/**
 * The relational schema: the `users`, `resources` and `user_progress` tables as
 * maps from primary key to row, with the key, uniqueness and foreign-key rules as
 * invariants. Nullable columns are `Option`s; NOT NULL columns are plain values.
 */
module Schema {
  import opened Wrappers

  /** The authentication provider's user id (text primary key of `users`). */
  type UserId = string
  /** A resource's generated id (uuid primary key of `resources`). */
  type ResourceId = string
  /** An opaque timestamp. */
  type Tick = nat

  datatype User = User(
    id: UserId,
    email: string,
    fullName: Option<string>,
    imageUrl: Option<string>,
    selectedDomain: Option<string>,
    createdAt: Tick
  )

  /** A learning resource; `kind` is the `type` column ("video", "article", "course"). */
  datatype Resource = Resource(
    id: ResourceId,
    title: string,
    description: Option<string>,
    url: string,
    kind: string,
    domain: string,
    difficulty: Option<string>,
    createdAt: Tick
  )

  datatype Progress = Progress(
    userId: UserId,
    resourceId: ResourceId,
    isCompleted: bool,
    lastInteractedAt: Tick
  )

  /** The composite primary key of `user_progress`. */
  type ProgressKey = (UserId, ResourceId)

  function KeyOf(p: Progress): ProgressKey {
    (p.userId, p.resourceId)
  }

  datatype Tables = Tables(
    users: map<UserId, User>,
    resources: map<ResourceId, Resource>,
    progress: map<ProgressKey, Progress>
  )

  /** `users.id` is the primary key: the row stored under an id carries that id. */
  ghost predicate UsersKeyed(users: map<UserId, User>) {
    forall id :: id in users ==> users[id].id == id
  }

  /** `users.email` is unique: no two profiles share an email. */
  ghost predicate EmailUnique(users: map<UserId, User>) {
    forall a, b :: a in users && b in users && users[a].email == users[b].email ==> a == b
  }

  ghost predicate ResourcesKeyed(resources: map<ResourceId, Resource>) {
    forall id :: id in resources ==> resources[id].id == id
  }

  /** (userId, resourceId) is the primary key of `user_progress`. */
  ghost predicate ProgressKeyed(progress: map<ProgressKey, Progress>) {
    forall k :: k in progress ==> KeyOf(progress[k]) == k
  }

  /** Both columns of the progress key are foreign keys. */
  ghost predicate ProgressReferences(t: Tables) {
    forall k :: k in t.progress ==> k.0 in t.users && k.1 in t.resources
  }

  /** Every constraint the schema declares. */
  ghost predicate Valid(t: Tables)
    ensures Valid(t) ==> forall p :: p in t.progress.Values ==> p.userId in t.users && p.resourceId in t.resources
  {
    && UsersKeyed(t.users)
    && EmailUnique(t.users)
    && ResourcesKeyed(t.resources)
    && ProgressKeyed(t.progress)
    && ProgressReferences(t)
  }

  /** Some row other than `id`'s already holds `email`. */
  predicate EmailHeldByOther(users: map<UserId, User>, id: UserId, email: string) {
    exists other :: other in users && other != id && users[other].email == email
  }

  /** `users` row lookup by id, `undefined` when there is none. */
  function FindUser(users: map<UserId, User>, id: UserId): (r: Option<User>)
    ensures r.Some? <==> id in users
    ensures r.Some? ==> r.value == users[id]
  {
    if id in users then Some(users[id]) else None
  }

  /**
   * A `select` over `user_progress` yields the table's rows in some order: each row
   * once, nothing else.
   */
  ghost predicate ScanOf(scan: seq<Progress>, progress: map<ProgressKey, Progress>) {
    && (forall i :: 0 <= i < |scan| ==> KeyOf(scan[i]) in progress && progress[KeyOf(scan[i])] == scan[i])
    && (forall k :: k in progress ==> progress[k] in scan)
    && (forall i, j :: 0 <= i < j < |scan| ==> KeyOf(scan[i]) != KeyOf(scan[j]))
  }

  /** A `select` over `resources`: each row once, nothing else. */
  ghost predicate CatalogOf(catalog: seq<Resource>, resources: map<ResourceId, Resource>) {
    && (forall i :: 0 <= i < |catalog| ==> catalog[i].id in resources && resources[catalog[i].id] == catalog[i])
    && (forall id :: id in resources ==> resources[id] in catalog)
    && (forall i, j :: 0 <= i < j < |catalog| ==> catalog[i].id != catalog[j].id)
  }
}
