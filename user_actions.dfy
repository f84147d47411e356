/**
 * The three server actions that write to the database: choosing a domain (an
 * upsert of the caller's `users` row), toggling a resource's completion (an upsert
 * of the caller's `user_progress` row) and resetting the domain (an update-only
 * clear of `selectedDomain`). Each action checks authentication first.
 *
 * Each action is a pure step `(tables before) -> (outcome, tables after)`, whose
 * contract and lemmas state what the action promises, and a method of `Store`, the
 * database whose tables the action updates in place, proved to follow its step.
 */
module UserActions {
  import opened Wrappers
  import opened Text
  import opened Auth
  import opened Schema

  /** The errors an action throws: its own checks, or a constraint the database enforces. */
  datatype ActionError =
    | Unauthorized      // no signed-in caller
    | UserNotFound      // the provider returned no profile
    | EmailTaken        // unique constraint on users.email
    | MissingReference  // foreign key of user_progress

  /** `{ success: true }`, or the error the action throws. */
  datatype Outcome = Success | Failure(error: ActionError)

  /** `user.emailAddresses[0]?.emailAddress || ""`: the primary email, or "" when there is none. */
  function StoredEmail(p: Profile): (r: string)
    ensures |p.emailAddresses| == 0 ==> r == ""
    ensures |p.emailAddresses| > 0 ==> r == p.emailAddresses[0]
  {
    if |p.emailAddresses| > 0 then p.emailAddresses[0] else ""
  }

  /**
   * `firstName && lastName ? "first last" : firstName || username || null`.
   * The stored name is never the empty string, and it is null exactly when neither
   * the first name nor the username is usable.
   */
  function FullName(p: Profile): (r: Option<string>)
    ensures r.None? <==> !Truthy(p.firstName) && !Truthy(p.username)
    ensures r.Some? ==> r.value != ""
    ensures Truthy(p.firstName) && Truthy(p.lastName) ==>
              r == Some(p.firstName.value + " " + p.lastName.value)
    ensures Truthy(p.firstName) && !Truthy(p.lastName) ==> r == p.firstName
    ensures !Truthy(p.firstName) && Truthy(p.username) ==> r == p.username
  {
    if Truthy(p.firstName) && Truthy(p.lastName) then Some(p.firstName.value + " " + p.lastName.value)
    else Or(Or(p.firstName, p.username), None)
  }

  /** The `users` row `updateUserDomain` writes for caller `id`. */
  function ProfileRow(id: UserId, p: Profile, domain: string, createdAt: Tick): User {
    User(id, StoredEmail(p), FullName(p), Some(p.imageUrl), Some(domain), createdAt)
  }

  /**
   * `updateUserDomain(domain)`: insert the caller's profile row, or on a conflicting
   * id update its email, name, image and domain (its creation time stays).
   */
  function UpdateUserDomainStep(t: Tables, userId: Option<string>, profile: Option<Profile>,
                                domain: string, now: Tick): (r: (Outcome, Tables))
    ensures !SignedIn(userId) ==> r == (Failure(Unauthorized), t)
    ensures SignedIn(userId) && profile.None? ==> r == (Failure(UserNotFound), t)
    ensures SignedIn(userId) && profile.Some? ==>
              (r.0 == Failure(EmailTaken) <==> EmailHeldByOther(t.users, userId.value, StoredEmail(profile.value)))
    ensures r.0.Success? <==>
              SignedIn(userId) && profile.Some? &&
              !EmailHeldByOther(t.users, userId.value, StoredEmail(profile.value))
    ensures r.0.Failure? ==> r.1 == t
    ensures r.1.resources == t.resources && r.1.progress == t.progress
    ensures r.0.Success? ==>
              && r.1.users.Keys == t.users.Keys + {userId.value}
              && r.1.users[userId.value] == ProfileRow(userId.value, profile.value, domain,
                                                       if userId.value in t.users then t.users[userId.value].createdAt else now)
              && (forall id :: id in t.users && id != userId.value ==> r.1.users[id] == t.users[id])
    ensures Valid(t) ==> Valid(r.1)
  {
    if !SignedIn(userId) then (Failure(Unauthorized), t)
    else if profile.None? then (Failure(UserNotFound), t)
    else
      var id := userId.value;
      var email := StoredEmail(profile.value);
      if EmailHeldByOther(t.users, id, email) then (Failure(EmailTaken), t)
      else
        var createdAt := if id in t.users then t.users[id].createdAt else now;
        (Success, t.(users := t.users[id := ProfileRow(id, profile.value, domain, createdAt)]))
  }

  /**
   * `toggleResourceCompletion(resourceId, isCompleted)`: upsert the caller's progress
   * row for the resource; on a conflicting key only the flag and the time change.
   */
  function ToggleResourceCompletionStep(t: Tables, userId: Option<string>, resourceId: ResourceId,
                                        isCompleted: bool, now: Tick): (r: (Outcome, Tables))
    ensures !SignedIn(userId) ==> r == (Failure(Unauthorized), t)
    ensures r.0.Success? <==>
              SignedIn(userId) &&
              ((userId.value, resourceId) in t.progress ||
               (userId.value in t.users && resourceId in t.resources))
    ensures SignedIn(userId) && r.0.Failure? ==> r.0.error == MissingReference
    ensures r.0.Failure? ==> r.1 == t
    ensures r.1.users == t.users && r.1.resources == t.resources
    ensures r.0.Success? ==>
              && r.1.progress.Keys == t.progress.Keys + {(userId.value, resourceId)}
              && r.1.progress[(userId.value, resourceId)] == Progress(userId.value, resourceId, isCompleted, now)
              && (forall k :: k in t.progress && k != (userId.value, resourceId) ==> r.1.progress[k] == t.progress[k])
    ensures Valid(t) ==> Valid(r.1)
  {
    if !SignedIn(userId) then (Failure(Unauthorized), t)
    else
      var key := (userId.value, resourceId);
      var row := Progress(userId.value, resourceId, isCompleted, now);
      if key in t.progress then (Success, t.(progress := t.progress[key := row]))
      else if userId.value in t.users && resourceId in t.resources then
        (Success, t.(progress := t.progress[key := row]))
      else (Failure(MissingReference), t)
  }

  /**
   * `resetUserDomain()`: set the caller's `selectedDomain` to null. An update, not an
   * upsert: without a row nothing is written, and that is still a success.
   */
  function ResetUserDomainStep(t: Tables, userId: Option<string>): (r: (Outcome, Tables))
    ensures !SignedIn(userId) ==> r == (Failure(Unauthorized), t)
    ensures SignedIn(userId) ==> r.0 == Success
    ensures r.1.resources == t.resources && r.1.progress == t.progress
    ensures r.1.users.Keys == t.users.Keys
    ensures forall id :: id in t.users ==>
              r.1.users[id] == if SignedIn(userId) && id == userId.value
                               then t.users[id].(selectedDomain := None)
                               else t.users[id]
    ensures Valid(t) ==> Valid(r.1)
  {
    if !SignedIn(userId) then (Failure(Unauthorized), t)
    else if userId.value in t.users then
      var id := userId.value;
      (Success, t.(users := t.users[id := t.users[id].(selectedDomain := None)]))
    else (Success, t)
  }

  /** After a successful domain update the caller has exactly one profile row, holding that domain. */
  lemma UpdateThenLookup(t: Tables, userId: Option<string>, profile: Option<Profile>, domain: string, now: Tick)
    requires Valid(t)
    requires UpdateUserDomainStep(t, userId, profile, domain, now).0.Success?
    ensures var t' := UpdateUserDomainStep(t, userId, profile, domain, now).1;
            && FindUser(t'.users, userId.value) == Some(t'.users[userId.value])
            && t'.users[userId.value].selectedDomain == Some(domain)
            && (forall id :: id in t'.users && t'.users[id].id == userId.value ==> id == userId.value)
  {
  }

  /** Repeating a domain update with the same inputs changes nothing further. */
  lemma UpdateUserDomainIdempotent(t: Tables, userId: Option<string>, profile: Option<Profile>,
                                   domain: string, now: Tick, later: Tick)
    ensures var once := UpdateUserDomainStep(t, userId, profile, domain, now);
            UpdateUserDomainStep(once.1, userId, profile, domain, later) == once
  {
    var once := UpdateUserDomainStep(t, userId, profile, domain, now);
    if once.0.Success? {
      var id := userId.value;
      assert once.1.users[id := once.1.users[id]] == once.1.users;
    }
  }

  /**
   * Last write wins: a second toggle of the same (caller, resource) leaves exactly
   * what toggling once to the second value would, so the first leaves no trace.
   */
  lemma ToggleLastWriteWins(t: Tables, userId: Option<string>, resourceId: ResourceId,
                            first: bool, second: bool, now: Tick, later: Tick)
    ensures var once := ToggleResourceCompletionStep(t, userId, resourceId, first, now);
            ToggleResourceCompletionStep(once.1, userId, resourceId, second, later)
              == ToggleResourceCompletionStep(t, userId, resourceId, second, later)
  {
    var once := ToggleResourceCompletionStep(t, userId, resourceId, first, now);
    if once.0.Success? {
      var key := (userId.value, resourceId);
      var row := Progress(userId.value, resourceId, second, later);
      assert once.1.progress[key := row] == t.progress[key := row];
    }
  }

  /** With the foreign keys in force, a toggle succeeds exactly when the caller has a profile row and the resource exists. */
  lemma ToggleNeedsProfileAndResource(t: Tables, userId: Option<string>, resourceId: ResourceId,
                                      isCompleted: bool, now: Tick)
    requires Valid(t)
    ensures ToggleResourceCompletionStep(t, userId, resourceId, isCompleted, now).0.Success? <==>
              SignedIn(userId) && userId.value in t.users && resourceId in t.resources
  {
  }

  /** Resetting keeps the profile row and clears the domain whatever it was; resetting again changes nothing. */
  lemma ResetClearsDomain(t: Tables, userId: Option<string>)
    requires SignedIn(userId) && userId.value in t.users
    ensures var t' := ResetUserDomainStep(t, userId).1;
            && userId.value in t'.users
            && t'.users[userId.value].selectedDomain == None
            && ResetUserDomainStep(t', userId) == (Success, t')
  {
    var t' := ResetUserDomainStep(t, userId).1;
    var id := userId.value;
    assert t'.users[id := t'.users[id].(selectedDomain := None)] == t'.users;
  }

  /** The database the actions write to; the three tables are updated in place. */
  class Store {
    var users: map<UserId, User>
    var resources: map<ResourceId, Resource>
    var progress: map<ProgressKey, Progress>

    function Snapshot(): Tables
      reads this
    {
      Tables(users, resources, progress)
    }

    ghost predicate Valid()
      reads this
    {
      Schema.Valid(Snapshot())
    }

    /** A database seeded with a resource catalog and no users or progress. */
    constructor (catalog: map<ResourceId, Resource>)
      requires ResourcesKeyed(catalog)
      ensures Valid()
      ensures Snapshot() == Tables(map[], catalog, map[])
    {
      users := map[];
      resources := catalog;
      progress := map[];
    }

    method UpdateUserDomain(userId: Option<string>, profile: Option<Profile>, domain: string, now: Tick)
      returns (outcome: Outcome)
      requires Valid()
      modifies this
      ensures Valid()
      ensures (outcome, Snapshot()) == UpdateUserDomainStep(old(Snapshot()), userId, profile, domain, now)
    {
      if !SignedIn(userId) {
        return Failure(Unauthorized);
      }
      if profile.None? {
        return Failure(UserNotFound);
      }
      var id := userId.value;
      var row := ProfileRow(id, profile.value, domain, now);
      if EmailHeldByOther(users, id, row.email) {
        return Failure(EmailTaken);
      }
      if id in users {
        row := row.(createdAt := users[id].createdAt);
      }
      users := users[id := row];
      outcome := Success;
    }

    method ToggleResourceCompletion(userId: Option<string>, resourceId: ResourceId, isCompleted: bool, now: Tick)
      returns (outcome: Outcome)
      requires Valid()
      modifies this
      ensures Valid()
      ensures (outcome, Snapshot()) == ToggleResourceCompletionStep(old(Snapshot()), userId, resourceId, isCompleted, now)
    {
      if !SignedIn(userId) {
        return Failure(Unauthorized);
      }
      var key := (userId.value, resourceId);
      if key !in progress && !(userId.value in users && resourceId in resources) {
        return Failure(MissingReference);
      }
      progress := progress[key := Progress(userId.value, resourceId, isCompleted, now)];
      outcome := Success;
    }

    method ResetUserDomain(userId: Option<string>) returns (outcome: Outcome)
      requires Valid()
      modifies this
      ensures Valid()
      ensures (outcome, Snapshot()) == ResetUserDomainStep(old(Snapshot()), userId)
    {
      if !SignedIn(userId) {
        return Failure(Unauthorized);
      }
      var id := userId.value;
      if id in users {
        users := users[id := users[id].(selectedDomain := None)];
      }
      outcome := Success;
    }
  }
}
