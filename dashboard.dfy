/**
 * The dashboard page's data: the greeting name, the resources of the selected
 * domain, each resource card's completed flag, the completed-lessons count, the
 * completion percentage and the domain's display name. All of it is computed from
 * the caller's profile and a snapshot of the tables (rows in scan order).
 */
module Dashboard {
  import opened Wrappers
  import opened Text
  import opened Auth
  import opened Domains
  import opened Schema
  import ChatRoute

  /** `user?.firstName || user?.username || "there"`: never empty. */
  function UserName(profile: Option<Profile>): (r: string)
    ensures r != ""
    ensures profile.Some? && Truthy(profile.value.firstName) ==> r == profile.value.firstName.value
    ensures profile.Some? && !Truthy(profile.value.firstName) && Truthy(profile.value.username) ==>
              r == profile.value.username.value
    ensures profile.None? || (!Truthy(profile.value.firstName) && !Truthy(profile.value.username)) ==>
              r == "there"
  {
    if profile.None? then "there"
    else
      var name := Or(profile.value.firstName, profile.value.username);
      if Truthy(name) then name.value else "there"
  }

  /** `selectedDomain ? domainNames[selectedDomain] || selectedDomain : null`. */
  function DomainDisplayName(dbUser: Option<User>): (r: Option<string>)
    ensures r.None? <==> dbUser.None? || !Truthy(dbUser.value.selectedDomain)
    ensures r.Some? ==> r.value == Label(dbUser.value.selectedDomain.value) && r.value != ""
  {
    if dbUser.Some? && Truthy(dbUser.value.selectedDomain) then Some(Label(dbUser.value.selectedDomain.value))
    else None
  }

  /** The dashboard and the tutor prompt name the caller's domain alike; the prompt says "your chosen field" where the dashboard has none. */
  lemma DomainNamesAgree(dbUser: Option<User>)
    ensures ChatRoute.DomainDisplayName(dbUser) ==
              if DomainDisplayName(dbUser).Some? then DomainDisplayName(dbUser).value else "your chosen field"
  {
  }

  /** `select ... from resources where domain = ...`, in scan order. */
  function InDomain(catalog: seq<Resource>, domain: string): (r: seq<Resource>)
    ensures |r| <= |catalog|
    ensures forall x :: x in r <==> x in catalog && x.domain == domain
  {
    if catalog == [] then []
    else
      var n := |catalog| - 1;
      var rest := InDomain(catalog[..n], domain);
      assert forall x :: x in catalog <==> x in catalog[..n] || x == catalog[n];
      if catalog[n].domain == domain then rest + [catalog[n]] else rest
  }

  /** The domain filter keeps scan order. */
  lemma {:induction false} InDomainAppend(a: seq<Resource>, b: seq<Resource>, domain: string)
    ensures InDomain(a + b, domain) == InDomain(a, domain) + InDomain(b, domain)
  {
    if b == [] {
      assert a + b == a;
    } else {
      var n := |b| - 1;
      assert (a + b)[..|a + b| - 1] == a + b[..n];
      InDomainAppend(a, b[..n], domain);
    }
  }

  /** The resources the dashboard lists: none without a selected domain, else the domain's. */
  function DomainResources(dbUser: Option<User>, catalog: seq<Resource>): (r: seq<Resource>)
    ensures dbUser.None? || !Truthy(dbUser.value.selectedDomain) ==> r == []
    ensures dbUser.Some? && Truthy(dbUser.value.selectedDomain) ==>
              forall x :: x in r <==> x in catalog && x.domain == dbUser.value.selectedDomain.value
  {
    if dbUser.Some? && Truthy(dbUser.value.selectedDomain) then InDomain(catalog, dbUser.value.selectedDomain.value)
    else []
  }

  /** `select ... from user_progress where userId = ...`, in scan order. */
  function UserRows(scan: seq<Progress>, userId: UserId): (r: seq<Progress>)
    ensures forall p :: p in r <==> p in scan && p.userId == userId
  {
    if scan == [] then []
    else
      var n := |scan| - 1;
      var rest := UserRows(scan[..n], userId);
      assert forall p :: p in scan <==> p in scan[..n] || p == scan[n];
      if scan[n].userId == userId then rest + [scan[n]] else rest
  }

  /**
   * `new Map(rows.map(p => [p.resourceId, p.isCompleted]))`: one entry per resource
   * id that occurs in the rows.
   */
  function ProgressMap(rows: seq<Progress>): (m: map<ResourceId, bool>)
    ensures forall id :: id in m <==> exists p :: p in rows && p.resourceId == id
  {
    if rows == [] then map[]
    else
      var n := |rows| - 1;
      assert forall p :: p in rows <==> p in rows[..n] || p == rows[n];
      ProgressMap(rows[..n])[rows[n].resourceId := rows[n].isCompleted]
  }

  /** Where a resource id repeats, the entry holds the flag of the later row. */
  lemma {:induction false} ProgressMapLastWins(rows: seq<Progress>, i: nat)
    requires i < |rows|
    requires forall j :: i < j < |rows| ==> rows[j].resourceId != rows[i].resourceId
    ensures rows[i].resourceId in ProgressMap(rows)
    ensures ProgressMap(rows)[rows[i].resourceId] == rows[i].isCompleted
  {
    var n := |rows| - 1;
    if i < n {
      assert rows[..n][i] == rows[i];
      ProgressMapLastWins(rows[..n], i);
    }
  }

  /** `progressMap.get(resource.id) || false`: the recorded flag, or false without a row. */
  function CardCompleted(m: map<ResourceId, bool>, id: ResourceId): (r: bool)
    ensures r <==> id in m && m[id]
  {
    if id in m then m[id] else false
  }

  /** `progressData.filter(p => p.isCompleted).length`. */
  function CompletedCount(rows: seq<Progress>): (r: nat)
    ensures r <= |rows|
  {
    if rows == [] then 0
    else CompletedCount(rows[..|rows| - 1]) + (if rows[|rows| - 1].isCompleted then 1 else 0)
  }

  /**
   * `total > 0 ? Math.round(completed / total * 100) : 0`, in exact arithmetic:
   * the percentage rounded half up.
   */
  function CompletionPercentage(completed: nat, total: nat): (r: nat)
    ensures total == 0 ==> r == 0
    ensures total > 0 ==> 2 * total * r <= 200 * completed + total < 2 * total * (r + 1)
  {
    if total > 0 then (200 * completed + total) / (2 * total) else 0
  }

  /**
   * The percentage is at most 100 while no more lessons are completed than listed,
   * at least 100 once as many or more are (the count spans all domains, so it is not
   * capped), exactly 100 when the two agree and 0 when nothing is completed.
   */
  lemma CompletionPercentageBounds(completed: nat, total: nat)
    requires total > 0
    ensures completed <= total ==> CompletionPercentage(completed, total) <= 100
    ensures completed >= total ==> CompletionPercentage(completed, total) >= 100
    ensures completed == total ==> CompletionPercentage(completed, total) == 100
    ensures completed == 0 ==> CompletionPercentage(completed, total) == 0
  {
    var r := CompletionPercentage(completed, total);
    if completed <= total {
      assert 200 * completed + total < 2 * total * 101;
      LessTimes(2 * total, r, 101);
    }
    if completed >= total {
      assert 2 * total * 100 < 2 * total * (r + 1);
      LessTimes(2 * total, 99, r);
    }
    if completed == 0 {
      assert 2 * total * r < 2 * total * 1;
      LessTimes(2 * total, r, 1);
    }
  }

  lemma LessTimes(a: int, x: int, y: int)
    requires a > 0 && a * x < a * y
    ensures x < y
  {
  }

  /** Two completed lessons elsewhere against one listed resource show 200%. */
  lemma CompletionPercentageExceedsHundred()
    ensures CompletionPercentage(2, 1) == 200
  {
  }

  /** A resource card: the resource and whether the caller has completed it. */
  datatype Card = Card(resource: Resource, isCompleted: bool)

  /** The page: a redirect home for a signed-out caller, else the data it shows. */
  datatype Page =
    | Redirect(to: string)
    | View(userName: string, domainDisplayName: Option<string>, completedCount: nat,
           completionPercentage: nat, cards: seq<Card>)

  function Cards(resources: seq<Resource>, m: map<ResourceId, bool>): (r: seq<Card>)
    ensures |r| == |resources|
    ensures forall i :: 0 <= i < |resources| ==>
              r[i].resource == resources[i] && (r[i].isCompleted <==> resources[i].id in m && m[resources[i].id])
  {
    seq(|resources|, i requires 0 <= i < |resources| => Card(resources[i], CardCompleted(m, resources[i].id)))
  }

  /**
   * `DashboardPage()`. `catalog` and `scan` are the `resources` and `user_progress`
   * rows as the database yields them.
   */
  function DashboardPage(userId: Option<string>, profile: Option<Profile>, t: Tables,
                         catalog: seq<Resource>, scan: seq<Progress>): (r: Page)
    ensures !SignedIn(userId) ==> r == Redirect("/")
    ensures SignedIn(userId) ==> r.View?
    ensures r.View? ==>
              var dbUser := FindUser(t.users, userId.value);
              var listed := DomainResources(dbUser, catalog);
              && r.userName == UserName(profile)
              && r.domainDisplayName == DomainDisplayName(dbUser)
              && r.completedCount == CompletedCount(UserRows(scan, userId.value))
              && r.completionPercentage == CompletionPercentage(r.completedCount, |listed|)
              && |r.cards| == |listed|
              && (forall i :: 0 <= i < |listed| ==> r.cards[i].resource == listed[i])
              && (forall i :: 0 <= i < |listed| ==>
                    (r.cards[i].isCompleted <==> CardCompleted(ProgressMap(UserRows(scan, userId.value)), listed[i].id)))
  {
    if !SignedIn(userId) then Redirect("/")
    else
      var dbUser := FindUser(t.users, userId.value);
      var listed := DomainResources(dbUser, catalog);
      var progressData := UserRows(scan, userId.value);
      var completedCount := CompletedCount(progressData);
      View(UserName(profile), DomainDisplayName(dbUser), completedCount,
           CompletionPercentage(completedCount, |listed|), Cards(listed, ProgressMap(progressData)))
  }

  /** The caller's completed progress rows, by key. */
  ghost function CompletedKeys(progress: map<ProgressKey, Progress>, userId: UserId): set<ProgressKey> {
    set k | k in progress && k.0 == userId && progress[k].isCompleted
  }

  /** The keys of a scan's completed rows of one caller. */
  ghost function CompletedKeysOf(scan: seq<Progress>, userId: UserId): set<ProgressKey> {
    set p | p in scan && p.userId == userId && p.isCompleted :: KeyOf(p)
  }

  lemma CompletedKeysOfSnoc(scan: seq<Progress>, last: Progress, userId: UserId)
    ensures CompletedKeysOf(scan + [last], userId) ==
              CompletedKeysOf(scan, userId) + (if last.userId == userId && last.isCompleted then {KeyOf(last)} else {})
  {
  }

  lemma UserRowsSnoc(scan: seq<Progress>, last: Progress, userId: UserId)
    ensures CompletedCount(UserRows(scan + [last], userId)) ==
              CompletedCount(UserRows(scan, userId)) + (if last.userId == userId && last.isCompleted then 1 else 0)
  {
  }

  /** Counting completed rows of a scan with distinct keys counts their distinct keys. */
  lemma {:induction false} CompletedCountIsKeyCount(scan: seq<Progress>, userId: UserId)
    requires forall i, j :: 0 <= i < j < |scan| ==> KeyOf(scan[i]) != KeyOf(scan[j])
    ensures CompletedCount(UserRows(scan, userId)) == |CompletedKeysOf(scan, userId)|
  {
    if scan != [] {
      var n := |scan| - 1;
      var init, last := scan[..n], scan[n];
      assert scan == init + [last];
      CompletedCountIsKeyCount(init, userId);
      UserRowsSnoc(init, last, userId);
      CompletedKeysOfSnoc(init, last, userId);
      assert KeyOf(last) !in CompletedKeysOf(init, userId);
    }
  }

  /** The completed-lessons count is the number of the caller's completed progress rows, across all domains. */
  lemma CompletedCountMatchesTables(t: Tables, scan: seq<Progress>, userId: UserId)
    requires Valid(t) && ScanOf(scan, t.progress)
    ensures CompletedCount(UserRows(scan, userId)) == |CompletedKeys(t.progress, userId)|
  {
    CompletedCountIsKeyCount(scan, userId);
    var keys := CompletedKeysOf(scan, userId);
    forall k | k in keys ensures k in CompletedKeys(t.progress, userId) {
      var p :| p in scan && p.userId == userId && p.isCompleted && KeyOf(p) == k;
      var i :| 0 <= i < |scan| && scan[i] == p;
    }
    forall k | k in CompletedKeys(t.progress, userId) ensures k in keys {
      var p := t.progress[k];
      assert p in scan && KeyOf(p) == k;
    }
    assert keys == CompletedKeys(t.progress, userId);
  }

  /** A card is marked completed exactly when the caller's progress row for it says so. */
  lemma CardCompletedMatchesTables(t: Tables, scan: seq<Progress>, userId: UserId, id: ResourceId)
    requires Valid(t) && ScanOf(scan, t.progress)
    ensures CardCompleted(ProgressMap(UserRows(scan, userId)), id) <==>
              (userId, id) in t.progress && t.progress[(userId, id)].isCompleted
  {
    var rows := UserRows(scan, userId);
    var m := ProgressMap(rows);
    if (userId, id) in t.progress {
      var p := t.progress[(userId, id)];
      assert p in scan && p in rows;
      var i :| 0 <= i < |rows| && rows[i] == p;
      var j := LastWithId(rows, id, i);
      ProgressMapLastWins(rows, j);
      assert rows[j] in scan;
      var q := rows[j];
      var a :| 0 <= a < |scan| && scan[a] == q;
      assert KeyOf(q) == (userId, id);
      assert q == p;
    }
  }

  /** The last row of `rows` with resource id `id`, given that row `i` has it. */
  lemma LastWithId(rows: seq<Progress>, id: ResourceId, i: nat) returns (j: nat)
    requires i < |rows| && rows[i].resourceId == id
    ensures i <= j < |rows| && rows[j].resourceId == id
    ensures forall k :: j < k < |rows| ==> rows[k].resourceId != rows[j].resourceId
    decreases |rows| - i
  {
    if exists k :: i < k < |rows| && rows[k].resourceId == id {
      var k :| i < k < |rows| && rows[k].resourceId == id;
      j := LastWithId(rows, id, k);
    } else {
      j := i;
    }
  }

  /** The listed resources are exactly the table's resources of the selected domain. */
  lemma DomainResourcesMatchTables(t: Tables, catalog: seq<Resource>, dbUser: User)
    requires Valid(t) && CatalogOf(catalog, t.resources) && Truthy(dbUser.selectedDomain)
    ensures forall x :: x in DomainResources(Some(dbUser), catalog) <==>
              x.id in t.resources && t.resources[x.id] == x && x.domain == dbUser.selectedDomain.value
  {
  }
}
