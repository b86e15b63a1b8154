/** The backend calls the reconcilers of waldur-grafana-sync/sync.py issue,
    described as values: for each reconciler a function of the desired state
    and of what the backend listed at the start, and the lemmas that say what
    those calls are.  The class in sync.dfy is proved to issue exactly these. */
module Plan {
  import opened Wrappers
  import opened Text
  import opened Uuid
  import opened Desired

  /** What `create_or_update_dashboard` is sent: the rendered template (opaque
      once substituted), the folder, and, when an existing dashboard is
      replaced, the uid and version set on it and `overwrite`. */
  datatype Payload = Payload(
    dashboard: string, folderUid: string,
    uid: Option<string>, version: Option<int>, overwrite: bool)

  /** A dashboard as the search for the tag 'managed' returns it. */
  datatype DashboardHit = DashboardHit(uid: string, folderUid: Option<string>, version: Option<int>)

  /** The mutating calls of the backend client. `DeleteUser` and `DeleteTeam`
      exist in the backend's interface; the reconcilers never issue them. */
  datatype Call =
    | CreateUser(login: string, email: string, name: string)
    | DeleteUser(login: string)
    | CreateTeam(teamName: string)
    | DeleteTeam(teamName: string)
    | AddTeamMember(teamId: int, login: string, email: string, name: string)
    | RemoveTeamMember(teamId: int, login: string)
    | CreateFolder(title: string, uid: string)
    | UpdateFolder(uid: string, title: string)
    | DeleteFolder(uid: string)
    | SetFolderPermissions(uid: string, title: string)
    | UpsertDashboard(payload: Payload)

  /** No call of `calls` deletes a user or a team. */
  predicate DeletesNothing(calls: seq<Call>) {
    forall k :: 0 <= k < |calls| ==> !calls[k].DeleteUser? && !calls[k].DeleteTeam?
  }

  /** Each element of `s` occurs once. */
  predicate NoDuplicates<T(==)>(s: seq<T>) {
    forall i, j :: 0 <= i < j < |s| ==> s[i] != s[j]
  }

  // ----------------------------------------------------------------- users

  function Usernames(users: seq<User>): set<string> {
    set u | u in users :: u.username
  }

  predicate UniqueUsernames(users: seq<User>) {
    forall i, j :: 0 <= i < j < |users| ==> users[i].username != users[j].username
  }

  function CreateUserCall(u: User): Call {
    CreateUser(u.username, u.email, u.name)
  }

  /** The `create_user` calls of `sync_users` (sync.py:225-237) without dry
      run: one per desired user, in order, whose username is not a login the
      backend listed at the start. */
  function UserCreations(users: seq<User>, observed: set<string>): seq<Call>
    decreases |users|
  {
    if users == [] then []
    else
      var last := users[|users| - 1];
      UserCreations(users[..|users| - 1], observed)
        + (if last.username !in observed then [CreateUserCall(last)] else [])
  }

  /** A `create_user` call is issued for a desired user exactly when the user's
      username is not among the listed logins; nothing else is issued. */
  lemma {:induction false} UserCreationsExactly(users: seq<User>, observed: set<string>, c: Call)
    ensures c in UserCreations(users, observed) <==>
      exists u :: u in users && u.username !in observed && c == CreateUserCall(u)
    decreases |users|
  {
    if users != [] {
      var n := |users| - 1;
      UserCreationsExactly(users[..n], observed, c);
      assert forall u :: u in users <==> u in users[..n] || u == users[n];
    }
  }

  /** How many `create_user` calls of `calls` are for `login`. */
  function CreationsFor(calls: seq<Call>, login: string): nat {
    if calls == [] then 0
    else
      var c := calls[|calls| - 1];
      CreationsFor(calls[..|calls| - 1], login) + (if c.CreateUser? && c.login == login then 1 else 0)
  }

  /** With unique usernames (the registry's key), every missing user is created
      exactly once and a user already present is not created at all. */
  lemma {:induction false} OneCreationPerMissingUser(users: seq<User>, observed: set<string>, login: string)
    requires UniqueUsernames(users)
    ensures CreationsFor(UserCreations(users, observed), login)
         == if login in Usernames(users) && login !in observed then 1 else 0
    decreases |users|
  {
    if users != [] {
      var n := |users| - 1;
      var init := users[..n];
      var last := users[n];
      assert UniqueUsernames(init);
      OneCreationPerMissingUser(init, observed, login);
      var rest := UserCreations(init, observed);
      if last.username !in observed {
        CreationsForAppend(rest, CreateUserCall(last), login);
      } else {
        assert UserCreations(users, observed) == rest;
      }
      UsernamesOfPrefix(users);
      LastUsernameIsNew(users);
    }
  }

  /** Helper: the usernames of a non-empty sequence. */
  lemma UsernamesOfPrefix(users: seq<User>)
    requires users != []
    ensures Usernames(users) == Usernames(users[..|users| - 1]) + {users[|users| - 1].username}
  {
    assert forall u :: u in users <==> u in users[..|users| - 1] || u == users[|users| - 1];
  }

  /** Helper: with unique usernames the last username is not an earlier one. */
  lemma LastUsernameIsNew(users: seq<User>)
    requires users != [] && UniqueUsernames(users)
    ensures users[|users| - 1].username !in Usernames(users[..|users| - 1])
  {
  }

  /** Helper: counting over one more call. */
  lemma CreationsForAppend(calls: seq<Call>, c: Call, login: string)
    ensures CreationsFor(calls + [c], login)
         == CreationsFor(calls, login) + (if c.CreateUser? && c.login == login then 1 else 0)
  {
    assert (calls + [c])[..|calls|] == calls;
  }

  /** A second run, against the logins the first one created, creates nobody. */
  lemma {:induction false} UserCreationsIdempotent(users: seq<User>, observed: set<string>)
    ensures UserCreations(users, observed + Usernames(users)) == []
    decreases |users|
  {
    if users != [] {
      var n := |users| - 1;
      var init := users[..n];
      assert Usernames(init) <= Usernames(users);
      UserCreationsIdempotent(init, observed);
      UserCreationsMonotone(init, observed + Usernames(init), observed + Usernames(users));
    }
  }

  /** Helper: more listed logins, no more calls. */
  lemma {:induction false} UserCreationsMonotone(users: seq<User>, small: set<string>, big: set<string>)
    requires small <= big && UserCreations(users, small) == []
    ensures UserCreations(users, big) == []
    decreases |users|
  {
    if users != [] {
      UserCreationsMonotone(users[..|users| - 1], small, big);
    }
  }

  // ----------------------------------------------------------------- teams

  /** `waldur_map` of `_sync_teams` (line 254): the desired members by
      username; of two users with one username the later one is kept. */
  function UserIndex(users: seq<User>): (r: map<string, User>)
    ensures r.Keys == Usernames(users)
    ensures forall l :: l in r ==> r[l] in users && r[l].username == l
    decreases |users|
  {
    if users == [] then map[]
    else
      var last := users[|users| - 1];
      var init := users[..|users| - 1];
      assert forall u :: u in users <==> u in init || u == last;
      UserIndex(init)[last.username := last]
  }

  /** The username differences of `_sync_teams` (lines 257-258): logins to
      remove from the team and usernames to add. */
  function StaleLogins(observed: set<string>, desired: set<string>): set<string> {
    observed - desired
  }

  function NewLogins(observed: set<string>, desired: set<string>): set<string> {
    desired - observed
  }

  /** Removing the stale logins and adding the new ones turns the team's
      members into the desired ones; the two sets never overlap; and nothing is
      to be done exactly when the team is already as desired. */
  lemma MembershipDiff(observed: set<string>, desired: set<string>)
    ensures StaleLogins(observed, desired) !! NewLogins(observed, desired)
    ensures (observed - StaleLogins(observed, desired)) + NewLogins(observed, desired) == desired
    ensures StaleLogins(observed, desired) == {} && NewLogins(observed, desired) == {} <==> observed == desired
  {
  }

  /** The call that removes `login` from team `id`.  (A removal in the
      backend names the user by id; the model names it by login.) */
  predicate RemovalFor(c: Call, id: int, stale: set<string>) {
    c.RemoveTeamMember? && c.teamId == id && c.login in stale
  }

  /** `rs` removes each login of `stale` from team `id` once, and does nothing else. */
  ghost predicate RemovalsOf(rs: seq<Call>, id: int, stale: set<string>) {
    NoDuplicates(rs) && forall c :: c in rs <==> RemovalFor(c, id, stale)
  }

  lemma RemovalsStep(rs: seq<Call>, id: int, done: set<string>, login: string)
    requires RemovalsOf(rs, id, done) && login !in done
    ensures RemovalsOf(rs + [RemoveTeamMember(id, login)], id, done + {login})
  {
    var c' := RemoveTeamMember(id, login);
    assert c' !in rs;
    forall c ensures c in rs + [c'] <==> RemovalFor(c, id, done + {login}) {
      assert c in rs + [c'] <==> c in rs || c == c';
    }
  }

  /** The call that adds `login` to team `id` with the email and name of that
      user in `index`. */
  function Addition(id: int, login: string, index: map<string, User>): Call
    requires login in index
  {
    AddTeamMember(id, login, index[login].email, index[login].name)
  }

  predicate AdditionFor(c: Call, id: int, joining: set<string>, index: map<string, User>) {
    c.AddTeamMember? && c.login in joining && c.login in index && c == Addition(id, c.login, index)
  }

  /** `adds` adds each username of `joining` to team `id` once, with the email
      and name of that user in `index`, and does nothing else. */
  ghost predicate AdditionsOf(adds: seq<Call>, id: int, joining: set<string>, index: map<string, User>) {
    NoDuplicates(adds) && forall c :: c in adds <==> AdditionFor(c, id, joining, index)
  }

  lemma AdditionsStep(adds: seq<Call>, id: int, done: set<string>, login: string, index: map<string, User>)
    requires AdditionsOf(adds, id, done, index) && login !in done && login in index
    ensures AdditionsOf(adds + [Addition(id, login, index)], id, done + {login}, index)
  {
    var c' := Addition(id, login, index);
    assert c' !in adds;
    forall c ensures c in adds + [c'] <==> AdditionFor(c, id, done + {login}, index) {
      assert c in adds + [c'] <==> c in adds || c == c';
    }
  }

  /** A call of the team reconcilers. */
  predicate TeamCall(c: Call) {
    c.CreateTeam? || c.RemoveTeamMember? || c.AddTeamMember?
  }

  /** The names of the teams `calls` creates, in order. */
  function TeamCreations(calls: seq<Call>): seq<string>
    decreases |calls|
  {
    if calls == [] then []
    else
      var n := |calls| - 1;
      TeamCreations(calls[..n]) + (if calls[n].CreateTeam? then [calls[n].teamName] else [])
  }

  /** The teams two stretches of calls create are those of the first, then
      those of the second. */
  lemma {:induction false} TeamCreationsAppend(a: seq<Call>, b: seq<Call>)
    ensures TeamCreations(a + b) == TeamCreations(a) + TeamCreations(b)
    decreases |b|
  {
    if b == [] {
      assert a + b == a;
    } else {
      var n := |b| - 1;
      assert (a + b)[..|a + b| - 1] == a + b[..n];
      assert (a + b)[|a + b| - 1] == b[n];
      TeamCreationsAppend(a, b[..n]);
    }
  }

  /** Calls none of which creates a team create no team. */
  lemma {:induction false} NoTeamCreations(calls: seq<Call>)
    requires forall k :: 0 <= k < |calls| ==> !calls[k].CreateTeam?
    ensures TeamCreations(calls) == []
    decreases |calls|
  {
    if calls != [] {
      NoTeamCreations(calls[..|calls| - 1]);
    }
  }

  /** `after` is `before` followed by team calls only. */
  predicate AppendsTeamCalls(before: seq<Call>, after: seq<Call>) {
    |before| <= |after| && after[..|before|] == before
    && forall k :: |before| <= k < |after| ==> TeamCall(after[k])
  }

  lemma AppendsTeamCallsTrans(a: seq<Call>, b: seq<Call>, c: seq<Call>)
    requires AppendsTeamCalls(a, b) && AppendsTeamCalls(b, c)
    ensures AppendsTeamCalls(a, c)
  {
    assert c[..|a|] == c[..|b|][..|a|];
  }

  lemma AppendsTeamCallsExtend(before: seq<Call>, extra: seq<Call>)
    requires forall k :: 0 <= k < |extra| ==> TeamCall(extra[k])
    ensures AppendsTeamCalls(before, before + extra)
  {
    assert (before + extra)[..|before|] == before;
  }

  /** Helper: membership calls are team calls. */
  lemma MembershipCallsAreTeamCalls(rs: seq<Call>, adds: seq<Call>, id: int, stale: set<string>,
                                    joining: set<string>, index: map<string, User>)
    requires RemovalsOf(rs, id, stale) && AdditionsOf(adds, id, joining, index)
    ensures forall k :: 0 <= k < |rs + adds| ==> TeamCall((rs + adds)[k])
  {
    forall k | 0 <= k < |rs + adds| ensures TeamCall((rs + adds)[k]) {
      if k < |rs| {
        assert rs[k] in rs;
      } else {
        assert adds[k - |rs|] in adds;
      }
    }
  }

  /** The membership calls of `_sync_teams` create no team. */
  lemma MembershipCallsCreateNoTeam(rs: seq<Call>, adds: seq<Call>, id: int, stale: set<string>,
                                    joining: set<string>, index: map<string, User>)
    requires RemovalsOf(rs, id, stale) && AdditionsOf(adds, id, joining, index)
    ensures TeamCreations(rs + adds) == []
  {
    forall k | 0 <= k < |rs + adds| ensures !(rs + adds)[k].CreateTeam? {
      if k < |rs| {
        assert rs[k] in rs;
      } else {
        assert adds[k - |rs|] in adds;
      }
    }
    NoTeamCreations(rs + adds);
  }

  /** The gap at sync.py:260-261 as written: `new_users` and `stale_users` are
      Python sets of a non-frozen dataclass and of dicts, neither of which is
      hashable, so building either from a non-empty set of usernames raises
      `TypeError`. The result is the pair of differences when the membership
      sync gets past those lines, None when it raises. */
  function MembershipDiffAsWritten(observed: set<string>, desired: set<string>): Option<(set<string>, set<string>)> {
    if NewLogins(observed, desired) == {} && StaleLogins(observed, desired) == {} then Some(({}, {}))
    else None
  }

  /** As written, the membership sync gets past sync.py:260-261 only for a team
      that is already as desired: a single user to add makes it raise. */
  lemma MembershipDiffAsWrittenRaises(observed: set<string>, desired: set<string>)
    ensures MembershipDiffAsWritten(observed, desired).Some? <==> observed == desired
    ensures MembershipDiffAsWritten({}, {"alice"}).None?
  {
    MembershipDiff(observed, desired);
    assert "alice" in NewLogins({}, {"alice"});
  }

  /** The team name of every organisation and, per name, the usernames of the
      owners of the LAST organisation carrying it: the team membership that
      `sync_organization_teams` leaves behind when it gets through every
      organisation (see `FirstNewRepeat`). */
  function OrgTeamTargets(orgs: seq<Organisation>): map<string, set<string>>
    decreases |orgs|
  {
    if orgs == [] then map[]
    else
      var last := orgs[|orgs| - 1];
      OrgTeamTargets(orgs[..|orgs| - 1])[Title(last) := Usernames(last.owners)]
  }

  /** Every organisation's title is a team name of the targets, and nothing
      else is. */
  lemma {:induction false} OrgTeamTargetsKeys(orgs: seq<Organisation>)
    ensures OrgTeamTargets(orgs).Keys == Titles(orgs)
    decreases |orgs|
  {
    if orgs != [] {
      var last := orgs[|orgs| - 1];
      var init := orgs[..|orgs| - 1];
      OrgTeamTargetsKeys(init);
      assert forall o :: o in orgs <==> o in init || o == last;
    }
  }

  /** The team of an organisation that is the last one with its title ends up
      with exactly that organisation's owners.  A run only gets this far with
      a shared title whose team was listed before the loop
      (`CompletedRepeatsWereListed`). */
  lemma {:induction false} OrgTeamTargetsLastWins(orgs: seq<Organisation>, i: int)
    requires 0 <= i < |orgs|
    requires forall j :: i < j < |orgs| ==> Title(orgs[j]) != Title(orgs[i])
    ensures Title(orgs[i]) in OrgTeamTargets(orgs)
    ensures OrgTeamTargets(orgs)[Title(orgs[i])] == Usernames(orgs[i].owners)
    decreases |orgs|
  {
    var n := |orgs| - 1;
    if i < n {
      OrgTeamTargetsLastWins(orgs[..n], i);
    }
  }

  /** The titles of the organisations. */
  function Titles(orgs: seq<Organisation>): set<string> {
    set o | o in orgs :: Title(o)
  }

  /** Organisation `j` asks for a team that is missing from the team listing
      taken before the loop (sync.py:292) but was already created for an
      earlier organisation with the same title: `create_team` is called a
      second time with that name (sync.py:300-302), which Grafana refuses. */
  predicate RepeatsNewTitle(orgs: seq<Organisation>, listed: set<string>, j: int)
    requires 0 <= j < |orgs|
  {
    Title(orgs[j]) !in listed && Title(orgs[j]) in OrgTeamTargets(orgs[..j])
  }

  /** The position of the first organisation that `RepeatsNewTitle`, or
      |orgs| when there is none: the organisations `sync_organization_teams`
      gets through before the backend refuses a team. */
  function FirstNewRepeat(orgs: seq<Organisation>, listed: set<string>): (k: nat)
    ensures k <= |orgs|
    decreases |orgs|
  {
    if orgs == [] then 0
    else
      var n := |orgs| - 1;
      var k := FirstNewRepeat(orgs[..n], listed);
      if k < n then k else if RepeatsNewTitle(orgs, listed, n) then n else |orgs|
  }

  /** Helper: whether an organisation repeats a new title depends only on the
      organisations up to it. */
  lemma RepeatsPrefix(orgs: seq<Organisation>, listed: set<string>, n: int, j: int)
    requires 0 <= j < n <= |orgs|
    ensures RepeatsNewTitle(orgs[..n], listed, j) == RepeatsNewTitle(orgs, listed, j)
  {
    assert orgs[..n][..j] == orgs[..j];
  }

  /** `FirstNewRepeat` is the first organisation that repeats a new title:
      none before it does, and it does unless it is past the end. */
  lemma {:induction false} FirstNewRepeatSpec(orgs: seq<Organisation>, listed: set<string>)
    ensures FirstNewRepeat(orgs, listed) <= |orgs|
    ensures forall j :: 0 <= j < FirstNewRepeat(orgs, listed) ==> !RepeatsNewTitle(orgs, listed, j)
    ensures FirstNewRepeat(orgs, listed) < |orgs| ==> RepeatsNewTitle(orgs, listed, FirstNewRepeat(orgs, listed))
    decreases |orgs|
  {
    if orgs != [] {
      var n := |orgs| - 1;
      FirstNewRepeatSpec(orgs[..n], listed);
      var k := FirstNewRepeat(orgs[..n], listed);
      forall j | 0 <= j < n ensures RepeatsNewTitle(orgs[..n], listed, j) == RepeatsNewTitle(orgs, listed, j) {
        RepeatsPrefix(orgs, listed, n, j);
      }
    }
  }

  /** Helper: a position with the two properties of `FirstNewRepeatSpec` is
      `FirstNewRepeat`. */
  lemma FirstNewRepeatIs(orgs: seq<Organisation>, listed: set<string>, k: int)
    requires 0 <= k <= |orgs|
    requires forall j :: 0 <= j < k ==> !RepeatsNewTitle(orgs, listed, j)
    requires k < |orgs| ==> RepeatsNewTitle(orgs, listed, k)
    ensures FirstNewRepeat(orgs, listed) == k
  {
    FirstNewRepeatSpec(orgs, listed);
  }

  /** Helper: one more organisation after a prefix with no repeat. */
  lemma FirstNewRepeatGrow(orgs: seq<Organisation>, listed: set<string>, i: int)
    requires 0 <= i < |orgs| && FirstNewRepeat(orgs[..i], listed) == i
    ensures RepeatsNewTitle(orgs, listed, i) ==> FirstNewRepeat(orgs, listed) == i
    ensures !RepeatsNewTitle(orgs, listed, i) ==> FirstNewRepeat(orgs[..i + 1], listed) == i + 1
  {
    FirstNewRepeatSpec(orgs[..i], listed);
    forall j | 0 <= j < i ensures !RepeatsNewTitle(orgs, listed, j) {
      RepeatsPrefix(orgs, listed, i, j);
    }
    if RepeatsNewTitle(orgs, listed, i) {
      FirstNewRepeatIs(orgs, listed, i);
    } else {
      assert orgs[..i + 1][..i] == orgs[..i];
      RepeatsPrefix(orgs, listed, i + 1, i);
    }
  }

  /** When `sync_organization_teams` gets through every organisation, a title
      shared by two organisations was a team before the loop: so the "last
      owners win" of `OrgTeamTargetsLastWins` is only ever reached for a team
      that already existed. */
  lemma CompletedRepeatsWereListed(orgs: seq<Organisation>, listed: set<string>, i: int, j: int)
    requires FirstNewRepeat(orgs, listed) == |orgs|
    requires 0 <= i < j < |orgs| && Title(orgs[i]) == Title(orgs[j])
    ensures Title(orgs[j]) in listed
  {
    FirstNewRepeatSpec(orgs, listed);
    assert orgs[..j][i] == orgs[i];
    OrgTeamTargetsKeys(orgs[..j]);
  }

  /** The titles `sync_organization_teams` creates teams for, in order: those
      of the organisations whose title the team listing lacks. */
  function NewTitles(orgs: seq<Organisation>, listed: set<string>): seq<string>
    decreases |orgs|
  {
    if orgs == [] then []
    else
      var n := |orgs| - 1;
      NewTitles(orgs[..n], listed) + (if Title(orgs[n]) in listed then [] else [Title(orgs[n])])
  }

  /** A title is created iff it is some organisation's title and is not
      listed. */
  lemma {:induction false} NewTitlesExactly(orgs: seq<Organisation>, listed: set<string>, t: string)
    ensures t in NewTitles(orgs, listed) <==> t !in listed && t in Titles(orgs)
    decreases |orgs|
  {
    if orgs != [] {
      var n := |orgs| - 1;
      NewTitlesExactly(orgs[..n], listed, t);
      assert forall o :: o in orgs <==> o in orgs[..n] || o == orgs[n];
    }
  }

  /** When no organisation repeats a new title, each new title is created
      once. */
  lemma {:induction false} NewTitlesDistinct(orgs: seq<Organisation>, listed: set<string>)
    requires forall j :: 0 <= j < |orgs| ==> !RepeatsNewTitle(orgs, listed, j)
    ensures NoDuplicates(NewTitles(orgs, listed))
    decreases |orgs|
  {
    if orgs != [] {
      var n := |orgs| - 1;
      forall j | 0 <= j < n ensures !RepeatsNewTitle(orgs[..n], listed, j) {
        RepeatsPrefix(orgs, listed, n, j);
      }
      NewTitlesDistinct(orgs[..n], listed);
      var t := Title(orgs[n]);
      if t !in listed {
        NewTitlesExactly(orgs[..n], listed, t);
        OrgTeamTargetsKeys(orgs[..n]);
        assert !RepeatsNewTitle(orgs, listed, n);
        assert t !in NewTitles(orgs[..n], listed);
      }
    }
  }

  /** The usernames of the owners of the organisations. */
  function OwnerLogins(orgs: seq<Organisation>): set<string>
    decreases |orgs|
  {
    if orgs == [] then {}
    else OwnerLogins(orgs[..|orgs| - 1]) + Usernames(orgs[|orgs| - 1].owners)
  }

  /** A login is an owner login iff some organisation has an owner with it. */
  lemma {:induction false} OwnerLoginsExactly(orgs: seq<Organisation>, l: string)
    ensures l in OwnerLogins(orgs) <==> exists i :: 0 <= i < |orgs| && l in Usernames(orgs[i].owners)
    decreases |orgs|
  {
    if orgs != [] {
      var n := |orgs| - 1;
      OwnerLoginsExactly(orgs[..n], l);
      assert forall i :: 0 <= i < n ==> orgs[..n][i] == orgs[i];
    }
  }

  // --------------------------------------------------------------- folders

  /** The state of the first loop of `sync_folders` (sync.py:174-197): the
      titles seen (`folder_names`), the folders as they now are on the backend
      (uid to title), and the calls issued so far. */
  datatype FolderPass = FolderPass(titles: set<string>, folders: map<string, string>, calls: seq<Call>)

  /** One organisation of that loop; `listed` is `grafana_folders`, the
      folders listed before the loop. */
  function FolderStep(p: FolderPass, o: Organisation, listed: map<string, string>, dryRun: bool): FolderPass {
    var t := Title(o);
    if o.uuid in listed then
      var renamed :=
        if listed[o.uuid] != t then p.(folders := p.folders[o.uuid := t], calls := p.calls + [UpdateFolder(o.uuid, t)])
        else p;
      if dryRun then renamed else renamed.(calls := renamed.calls + [SetFolderPermissions(o.uuid, t)])
    else if t in p.titles then p
    else if dryRun then p.(titles := p.titles + {t})
    else FolderPass(p.titles + {t}, p.folders[o.uuid := t], p.calls + [CreateFolder(t, o.uuid), SetFolderPermissions(o.uuid, t)])
  }

  /** Helper: a step appends its calls to those of the pass before it. */
  lemma FolderStepAppends(p: FolderPass, o: Organisation, listed: map<string, string>, dryRun: bool)
    ensures var q := FolderStep(p.(calls := []), o, listed, dryRun);
      FolderStep(p, o, listed, dryRun) == q.(calls := p.calls + q.calls)
  {
    assert p.calls + [] == p.calls;
  }

  /** The whole first loop, over the organisations in their listing order. */
  function FolderLoop(orgs: seq<Organisation>, listed: map<string, string>, dryRun: bool): FolderPass
    decreases |orgs|
  {
    if orgs == [] then FolderPass(listed.Values, listed, [])
    else FolderStep(FolderLoop(orgs[..|orgs| - 1], listed, dryRun), orgs[|orgs| - 1], listed, dryRun)
  }

  /** The organisation at `i`, which has no folder, is the first one processed
      with its title, and that title is not the title of a listed folder: the
      one organisation with that title that a folder is created for. */
  predicate GetsNewFolder(orgs: seq<Organisation>, listed: map<string, string>, i: int)
    requires 0 <= i < |orgs|
  {
    && orgs[i].uuid !in listed
    && Title(orgs[i]) !in listed.Values
    && forall j :: 0 <= j < i ==> orgs[j].uuid in listed || Title(orgs[j]) != Title(orgs[i])
  }

  /** The titles of the organisations without a listed folder. */
  function UnlistedTitles(orgs: seq<Organisation>, listed: map<string, string>): set<string> {
    set o | o in orgs && o.uuid !in listed :: Title(o)
  }

  /** Helper: `GetsNewFolder` only looks at the organisations up to `i`. */
  lemma GetsNewFolderPrefix(orgs: seq<Organisation>, listed: map<string, string>, n: int, i: int)
    requires 0 <= i < n <= |orgs|
    ensures GetsNewFolder(orgs[..n], listed, i) == GetsNewFolder(orgs, listed, i)
  {
    assert forall j :: 0 <= j <= i ==> orgs[..n][j] == orgs[j];
  }

  /** Helper: the unlisted titles of a non-empty sequence. */
  lemma UnlistedTitlesOfPrefix(orgs: seq<Organisation>, listed: map<string, string>)
    requires orgs != []
    ensures var n := |orgs| - 1;
      UnlistedTitles(orgs, listed)
        == UnlistedTitles(orgs[..n], listed) + (if orgs[n].uuid in listed then {} else {Title(orgs[n])})
  {
    var n := |orgs| - 1;
    assert forall o :: o in orgs <==> o in orgs[..n] || o == orgs[n];
  }

  /** Helper: the title of an organisation counts as seen exactly when it is the
      title of a listed folder or of an earlier organisation without one. */
  lemma TitleSeenIff(orgs: seq<Organisation>, listed: map<string, string>, n: int)
    requires 0 <= n < |orgs| && orgs[n].uuid !in listed
    ensures Title(orgs[n]) in listed.Values + UnlistedTitles(orgs[..n], listed) <==> !GetsNewFolder(orgs, listed, n)
  {
    var t := Title(orgs[n]);
    if t in UnlistedTitles(orgs[..n], listed) {
      var o :| o in orgs[..n] && o.uuid !in listed && Title(o) == t;
      var j :| 0 <= j < n && orgs[..n][j] == o;
      assert orgs[j] == o;
    }
    if !GetsNewFolder(orgs, listed, n) && t !in listed.Values {
      var j :| 0 <= j < n && orgs[j].uuid !in listed && Title(orgs[j]) == t;
      assert orgs[..n][j] == orgs[j];
    }
  }

  /** The titles taken after the loop: those of the listed folders and of every
      organisation without a folder, created or not (dry run included). */
  lemma {:induction false} FolderLoopTitles(orgs: seq<Organisation>, listed: map<string, string>, dryRun: bool)
    ensures FolderLoop(orgs, listed, dryRun).titles == listed.Values + UnlistedTitles(orgs, listed)
    decreases |orgs|
  {
    if orgs != [] {
      FolderLoopTitles(orgs[..|orgs| - 1], listed, dryRun);
      UnlistedTitlesOfPrefix(orgs, listed);
    }
  }

  /** The folders after the loop are the listed ones and, unless in dry run,
      one new folder for each organisation that `GetsNewFolder`. */
  lemma {:induction false} FolderLoopFolders(orgs: seq<Organisation>, listed: map<string, string>, dryRun: bool, u: string)
    ensures u in FolderLoop(orgs, listed, dryRun).folders <==>
      u in listed || (!dryRun && exists i :: 0 <= i < |orgs| && orgs[i].uuid == u && GetsNewFolder(orgs, listed, i))
    decreases |orgs|
  {
    if orgs != [] {
      var n := |orgs| - 1;
      var init := orgs[..n];
      FolderLoopFolders(init, listed, dryRun, u);
      FolderLoopTitles(init, listed, dryRun);
      forall i | 0 <= i < n {
        GetsNewFolderPrefix(orgs, listed, n, i);
      }
      if orgs[n].uuid !in listed {
        TitleSeenIff(orgs, listed, n);
      }
      if !dryRun && (exists i :: 0 <= i < |orgs| && orgs[i].uuid == u && GetsNewFolder(orgs, listed, i)) {
        var i :| 0 <= i < |orgs| && orgs[i].uuid == u && GetsNewFolder(orgs, listed, i);
        if i < n {
          assert init[i].uuid == u && GetsNewFolder(init, listed, i);
        }
      }
    }
  }

  /** Helper: the uuids of a non-empty sequence. */
  lemma UuidsOfPrefix(orgs: seq<Organisation>)
    requires orgs != []
    ensures Uuids(orgs) == Uuids(orgs[..|orgs| - 1]) + {orgs[|orgs| - 1].uuid}
  {
    assert forall o :: o in orgs <==> o in orgs[..|orgs| - 1] || o == orgs[|orgs| - 1];
  }

  /** Helper: the loop only ever adds the uuids of organisations. */
  lemma {:induction false} FolderLoopKeys(orgs: seq<Organisation>, listed: map<string, string>, dryRun: bool)
    ensures FolderLoop(orgs, listed, dryRun).folders.Keys <= listed.Keys + Uuids(orgs)
    decreases |orgs|
  {
    if orgs != [] {
      FolderLoopKeys(orgs[..|orgs| - 1], listed, dryRun);
      UuidsOfPrefix(orgs);
    }
  }

  /** A listed folder that belongs to no organisation keeps its title. */
  lemma {:induction false} FolderLoopKeepsOthers(orgs: seq<Organisation>, listed: map<string, string>, dryRun: bool, u: string)
    requires u in listed && u !in Uuids(orgs)
    ensures u in FolderLoop(orgs, listed, dryRun).folders
    ensures FolderLoop(orgs, listed, dryRun).folders[u] == listed[u]
    decreases |orgs|
  {
    if orgs != [] {
      UuidsOfPrefix(orgs);
      FolderLoopKeepsOthers(orgs[..|orgs| - 1], listed, dryRun, u);
    }
  }

  /** Every organisation that has a folder after the loop has it under its
      expected title: listed folders with another title are renamed. */
  lemma {:induction false} FolderLoopTitlesFolders(orgs: seq<Organisation>, listed: map<string, string>, dryRun: bool, i: int)
    requires UniqueUuids(orgs) && 0 <= i < |orgs|
    requires orgs[i].uuid in FolderLoop(orgs, listed, dryRun).folders
    ensures FolderLoop(orgs, listed, dryRun).folders[orgs[i].uuid] == Title(orgs[i])
    decreases |orgs|
  {
    var n := |orgs| - 1;
    var init := orgs[..n];
    var p := FolderLoop(init, listed, dryRun);
    assert FolderLoop(orgs, listed, dryRun) == FolderStep(p, orgs[n], listed, dryRun);
    if i < n {
      assert UniqueUuids(init);
      assert init[i] == orgs[i];
      FolderStepKeepsOthers(p, orgs[n], listed, dryRun, orgs[i].uuid);
      FolderLoopTitlesFolders(init, listed, dryRun, i);
    } else {
      UuidsOfPrefix(orgs);
      FolderLoopKeys(init, listed, dryRun);
      assert orgs[n].uuid !in Uuids(init);
      if orgs[n].uuid in listed {
        FolderLoopKeepsOthers(init, listed, dryRun, orgs[n].uuid);
      }
      FolderStepOwnFolder(p, orgs[n], listed, dryRun);
    }
  }

  /** Helper: a step leaves the folders of other uids alone. */
  lemma FolderStepKeepsOthers(p: FolderPass, o: Organisation, listed: map<string, string>, dryRun: bool, u: string)
    requires u != o.uuid
    ensures u in FolderStep(p, o, listed, dryRun).folders <==> u in p.folders
    ensures u in p.folders ==> FolderStep(p, o, listed, dryRun).folders[u] == p.folders[u]
  {
  }

  /** Helper: after its step, an organisation's folder, if any, has its title. */
  lemma FolderStepOwnFolder(p: FolderPass, o: Organisation, listed: map<string, string>, dryRun: bool)
    requires o.uuid in listed ==> o.uuid in p.folders && p.folders[o.uuid] == listed[o.uuid]
    requires o.uuid !in listed ==> o.uuid !in p.folders
    ensures o.uuid in FolderStep(p, o, listed, dryRun).folders ==>
      FolderStep(p, o, listed, dryRun).folders[o.uuid] == Title(o)
  {
  }

  /** The calls the loop issues for the organisation at `i`: a rename when its
      listed folder has another title (in dry run as well), a creation when it
      `GetsNewFolder`, and read access for its team whenever it has a folder;
      creations and permissions only outside dry run. */
  predicate FolderCallFor(orgs: seq<Organisation>, listed: map<string, string>, dryRun: bool, i: int, c: Call)
    requires 0 <= i < |orgs|
  {
    var o := orgs[i];
    var t := Title(o);
    if o.uuid in listed then
      (c == UpdateFolder(o.uuid, t) && listed[o.uuid] != t) || (!dryRun && c == SetFolderPermissions(o.uuid, t))
    else
      !dryRun && GetsNewFolder(orgs, listed, i) && (c == CreateFolder(t, o.uuid) || c == SetFolderPermissions(o.uuid, t))
  }

  /** The loop issues exactly the calls `FolderCallFor` names. */
  lemma {:induction false} FolderLoopCalls(orgs: seq<Organisation>, listed: map<string, string>, dryRun: bool, c: Call)
    ensures c in FolderLoop(orgs, listed, dryRun).calls <==>
      exists i :: 0 <= i < |orgs| && FolderCallFor(orgs, listed, dryRun, i, c)
    decreases |orgs|
  {
    if orgs != [] {
      var n := |orgs| - 1;
      var init := orgs[..n];
      FolderLoopCalls(init, listed, dryRun, c);
      forall i | 0 <= i < n
        ensures FolderCallFor(init, listed, dryRun, i, c) == FolderCallFor(orgs, listed, dryRun, i, c)
      {
        GetsNewFolderPrefix(orgs, listed, n, i);
        assert init[i] == orgs[i];
      }
      var added := FolderStepCalls(orgs, listed, dryRun, c);
      if exists i :: 0 <= i < |orgs| && FolderCallFor(orgs, listed, dryRun, i, c) {
        var i :| 0 <= i < |orgs| && FolderCallFor(orgs, listed, dryRun, i, c);
        if i < n {
          assert FolderCallFor(init, listed, dryRun, i, c);
        }
      }
    }
  }

  /** Helper: the calls the last step adds are those for the last organisation. */
  lemma FolderStepCalls(orgs: seq<Organisation>, listed: map<string, string>, dryRun: bool, c: Call)
      returns (added: seq<Call>)
    requires orgs != []
    ensures FolderLoop(orgs, listed, dryRun).calls == FolderLoop(orgs[..|orgs| - 1], listed, dryRun).calls + added
    ensures c in added <==> FolderCallFor(orgs, listed, dryRun, |orgs| - 1, c)
  {
    var n := |orgs| - 1;
    var p := FolderLoop(orgs[..n], listed, dryRun);
    FolderLoopTitles(orgs[..n], listed, dryRun);
    var o := orgs[n];
    var t := Title(o);
    if o.uuid in listed {
      var renames := if listed[o.uuid] != t then [UpdateFolder(o.uuid, t)] else [];
      added := renames + if dryRun then [] else [SetFolderPermissions(o.uuid, t)];
    } else {
      TitleSeenIff(orgs, listed, n);
      added := if t in p.titles || dryRun then [] else [CreateFolder(t, o.uuid), SetFolderPermissions(o.uuid, t)];
    }
  }

  /** In dry run the loop issues nothing but renames. */
  lemma DryRunOnlyRenames(orgs: seq<Organisation>, listed: map<string, string>, k: int)
    requires 0 <= k < |FolderLoop(orgs, listed, true).calls|
    ensures FolderLoop(orgs, listed, true).calls[k].UpdateFolder?
  {
    FolderLoopCalls(orgs, listed, true, FolderLoop(orgs, listed, true).calls[k]);
  }

  /** An organisation without a folder whose title is taken, by a listed
      folder or by an earlier organisation, gets neither a folder nor read
      access: it is skipped. */
  lemma SkippedOrganisationGetsNothing(orgs: seq<Organisation>, listed: map<string, string>, dryRun: bool, i: int)
    requires UniqueUuids(orgs) && 0 <= i < |orgs|
    requires orgs[i].uuid !in listed
    requires Title(orgs[i]) in listed.Values || exists j :: 0 <= j < i && orgs[j].uuid !in listed && Title(orgs[j]) == Title(orgs[i])
    ensures orgs[i].uuid !in FolderLoop(orgs, listed, dryRun).folders
    ensures forall t :: SetFolderPermissions(orgs[i].uuid, t) !in FolderLoop(orgs, listed, dryRun).calls
    ensures forall t :: CreateFolder(t, orgs[i].uuid) !in FolderLoop(orgs, listed, dryRun).calls
  {
    var u := orgs[i].uuid;
    FolderLoopFolders(orgs, listed, dryRun, u);
    forall t ensures SetFolderPermissions(u, t) !in FolderLoop(orgs, listed, dryRun).calls
                  && CreateFolder(t, u) !in FolderLoop(orgs, listed, dryRun).calls {
      FolderLoopCalls(orgs, listed, dryRun, SetFolderPermissions(u, t));
      FolderLoopCalls(orgs, listed, dryRun, CreateFolder(t, u));
    }
  }

  /** No two folders created in one run share a title, nor does a created folder
      share the title of a listed one. */
  lemma CreatedTitlesDistinct(orgs: seq<Organisation>, listed: map<string, string>, u1: string, u2: string)
    requires UniqueUuids(orgs)
    requires u1 != u2 && u1 !in listed && u2 !in listed
    requires u1 in FolderLoop(orgs, listed, false).folders && u2 in FolderLoop(orgs, listed, false).folders
    ensures FolderLoop(orgs, listed, false).folders[u1] != FolderLoop(orgs, listed, false).folders[u2]
    ensures FolderLoop(orgs, listed, false).folders[u1] !in listed.Values
  {
    FolderLoopFolders(orgs, listed, false, u1);
    FolderLoopFolders(orgs, listed, false, u2);
    var i1 :| 0 <= i1 < |orgs| && orgs[i1].uuid == u1 && GetsNewFolder(orgs, listed, i1);
    var i2 :| 0 <= i2 < |orgs| && orgs[i2].uuid == u2 && GetsNewFolder(orgs, listed, i2);
    FolderLoopTitlesFolders(orgs, listed, false, i1);
    FolderLoopTitlesFolders(orgs, listed, false, i2);
  }

  /** The folders the cleanup loop (sync.py:200-206) deletes: listed ones whose
      uid is UUID-like and belongs to no organisation. */
  function Orphans(listed: map<string, string>, orgs: seq<Organisation>): set<string> {
    set u | u in listed && IsUuidLike(u) && u !in Uuids(orgs)
  }

  /** `ds` deletes each folder of `uids` once, and does nothing else. */
  ghost predicate DeletionsOf(ds: seq<Call>, uids: set<string>) {
    NoDuplicates(ds) && forall c :: c in ds <==> c.DeleteFolder? && c.uid in uids
  }

  lemma DeletionsStep(ds: seq<Call>, done: set<string>, uid: string)
    requires DeletionsOf(ds, done) && uid !in done
    ensures DeletionsOf(ds + [DeleteFolder(uid)], done + {uid})
  {
    assert DeleteFolder(uid) !in ds;
    forall c ensures c in ds + [DeleteFolder(uid)] <==> c.DeleteFolder? && c.uid in done + {uid} {
      assert c in ds + [DeleteFolder(uid)] <==> c in ds || c == DeleteFolder(uid);
    }
  }

  /** The folders on the backend once `sync_folders` is done. */
  function FolderOutcome(orgs: seq<Organisation>, listed: map<string, string>, dryRun: bool): map<string, string> {
    var loop := FolderLoop(orgs, listed, dryRun).folders;
    if dryRun then loop else loop - Orphans(listed, orgs)
  }

  /** What `sync_folders` leaves: a listed folder stays unless, outside dry run,
      its uid is UUID-like and no organisation has it; a new folder exists for
      each organisation that `GetsNewFolder`, outside dry run; and every
      organisation with a folder has it under its expected title. */
  lemma FolderOutcomeExactly(orgs: seq<Organisation>, listed: map<string, string>, dryRun: bool, u: string)
    requires UniqueUuids(orgs)
    ensures u in FolderOutcome(orgs, listed, dryRun) <==>
      (u in listed && (dryRun || !IsUuidLike(u) || u in Uuids(orgs)))
      || (!dryRun && exists i :: 0 <= i < |orgs| && orgs[i].uuid == u && GetsNewFolder(orgs, listed, i))
    ensures forall i :: 0 <= i < |orgs| && orgs[i].uuid in FolderOutcome(orgs, listed, dryRun) ==>
      FolderOutcome(orgs, listed, dryRun)[orgs[i].uuid] == Title(orgs[i])
    ensures u in listed && u !in Uuids(orgs) && u in FolderOutcome(orgs, listed, dryRun) ==>
      FolderOutcome(orgs, listed, dryRun)[u] == listed[u]
  {
    FolderLoopFolders(orgs, listed, dryRun, u);
    forall i | 0 <= i < |orgs| && orgs[i].uuid in FolderOutcome(orgs, listed, dryRun)
      ensures FolderOutcome(orgs, listed, dryRun)[orgs[i].uuid] == Title(orgs[i])
    {
      FolderLoopTitlesFolders(orgs, listed, dryRun, i);
    }
    if u in listed && u !in Uuids(orgs) {
      FolderLoopKeepsOthers(orgs, listed, dryRun, u);
    }
  }

  /** A hand-made folder, whose uid is too short to be a UUID, is never deleted. */
  lemma ShortUidFolderKept(orgs: seq<Organisation>, listed: map<string, string>, dryRun: bool, u: string)
    requires UniqueUuids(orgs) && u in listed && |u| < 32
    ensures u in FolderOutcome(orgs, listed, dryRun)
  {
    ShortIsNotUuidLike(u);
    FolderOutcomeExactly(orgs, listed, dryRun, u);
  }

  /** A second `sync_folders` after one without dry run, over the same
      organisations, renames no folder: every organisation's folder already
      has its expected title. */
  lemma SecondRunRenamesNothing(orgs: seq<Organisation>, listed: map<string, string>, c: Call)
    requires UniqueUuids(orgs)
    requires c in FolderLoop(orgs, FolderOutcome(orgs, listed, false), false).calls
    ensures !c.UpdateFolder?
  {
    var after := FolderOutcome(orgs, listed, false);
    FolderLoopCalls(orgs, after, false, c);
    var i :| 0 <= i < |orgs| && FolderCallFor(orgs, after, false, i, c);
    FolderOutcomeExactly(orgs, listed, false, orgs[i].uuid);
  }

  // ------------------------------------------------------------ dashboards

  const CustomerNamePlaceholder: string := "$CUSTOMER_NAME$"
  const DatasourcePlaceholder: string := "$DATASOURCE_UID$"

  /** The dashboard of an organisation (sync.py:330-332): the customer name is
      substituted first, then the datasource uid, into the result of the first. */
  function Render(template: string, name: string, datasourceUid: string): string {
    ReplaceAll(ReplaceAll(template, CustomerNamePlaceholder, name), DatasourcePlaceholder, datasourceUid)
  }

  /** A template without placeholders is sent as it is. */
  lemma RenderPlainTemplate(template: string, name: string, datasourceUid: string)
    requires !Occurs(template, CustomerNamePlaceholder) && !Occurs(template, DatasourcePlaceholder)
    ensures Render(template, name, datasourceUid) == template
  {
    ReplaceAbsent(template, CustomerNamePlaceholder, name);
    ReplaceAbsent(template, DatasourcePlaceholder, datasourceUid);
  }

  /** Helper: a string without '$' holds neither placeholder. */
  lemma NoPlaceholders(s: string)
    requires '$' !in s
    ensures !Occurs(s, CustomerNamePlaceholder) && !Occurs(s, DatasourcePlaceholder)
  {
    AbsentWhenCharMissing(s, CustomerNamePlaceholder, 0);
    AbsentWhenCharMissing(s, DatasourcePlaceholder, 0);
  }

  /** The customer-name placeholder is replaced by the name, the text around it
      kept. */
  lemma RenderName(a: string, b: string, name: string, datasourceUid: string)
    requires '$' !in a && '$' !in b && '$' !in name
    ensures Render(a + CustomerNamePlaceholder + b, name, datasourceUid) == a + name + b
  {
    var p := CustomerNamePlaceholder;
    forall i: nat | i < |a| ensures !OccursAt(a + p + b, p, i) {
      assert (a + p + b)[i] == a[i];
    }
    ReplaceFirst(a, p, b, name);
    NoPlaceholders(b);
    ReplaceAbsent(b, p, name);
    NoPlaceholders(a + name + b);
    ReplaceAbsent(a + name + b, DatasourcePlaceholder, datasourceUid);
  }

  /** Because of that order, a customer name that itself holds the datasource
      placeholder has it replaced too. */
  lemma RenderRewritesName(name: string, datasourceUid: string)
    ensures Render(CustomerNamePlaceholder, name, datasourceUid) == ReplaceAll(name, DatasourcePlaceholder, datasourceUid)
  {
    ReplaceFirst("", CustomerNamePlaceholder, "", name);
    assert "" + CustomerNamePlaceholder + "" == CustomerNamePlaceholder;
    assert "" + name + "" == name;
  }

  /** `grafana_dashboards_map` (sync.py:318-322): the managed dashboards by
      folder; a dashboard outside any folder is left out, and of two in one
      folder the later is kept. */
  function ManagedByFolder(hits: seq<DashboardHit>): (r: map<string, DashboardHit>)
    ensures r.Keys == set h | h in hits && h.folderUid.Some? :: h.folderUid.value
    ensures forall f :: f in r ==> r[f] in hits && r[f].folderUid == Some(f)
    decreases |hits|
  {
    if hits == [] then map[]
    else
      var last := hits[|hits| - 1];
      var init := hits[..|hits| - 1];
      assert forall h :: h in hits <==> h in init || h == last;
      var m := ManagedByFolder(init);
      if last.folderUid.Some? then m[last.folderUid.value := last] else m
  }

  /** The dashboard kept for a folder is the last one listed in it. */
  lemma {:induction false} ManagedLastWins(hits: seq<DashboardHit>, i: int)
    requires 0 <= i < |hits| && hits[i].folderUid.Some?
    requires forall j :: i < j < |hits| ==> hits[j].folderUid != hits[i].folderUid
    ensures ManagedByFolder(hits)[hits[i].folderUid.value] == hits[i]
    decreases |hits|
  {
    if i < |hits| - 1 {
      ManagedLastWins(hits[..|hits| - 1], i);
    }
  }

  /** The dashboard managed in folder `uid`, if any (`dict.get`). */
  function ManagedIn(managed: map<string, DashboardHit>, uid: string): Option<DashboardHit> {
    if uid in managed then Some(managed[uid]) else None
  }

  /** The payload of `create_or_update_dashboard` for an organisation. */
  function DashboardPayload(o: Organisation, existing: Option<DashboardHit>, template: string, datasourceUid: string): Payload {
    var body := Render(template, o.name, datasourceUid);
    match existing
    case None => Payload(body, o.uuid, None, None, false)
    case Some(d) => Payload(body, o.uuid, Some(d.uid), Some(d.version.GetOr(0) + 1), true)
  }

  /** The upserts of `sync_dashboards` without dry run: one per organisation
      that has a folder, in order; `folderUids` are the uids then listed. */
  function DashboardCalls(orgs: seq<Organisation>, folderUids: set<string>, managed: map<string, DashboardHit>,
                          template: string, datasourceUid: string): seq<Call>
    decreases |orgs|
  {
    if orgs == [] then []
    else
      var o := orgs[|orgs| - 1];
      DashboardCalls(orgs[..|orgs| - 1], folderUids, managed, template, datasourceUid)
        + if o.uuid in folderUids
          then [UpsertDashboard(DashboardPayload(o, ManagedIn(managed, o.uuid), template, datasourceUid))]
          else []
  }

  /** What an upsert for `o` carries: the rendered template in the
      organisation's folder; for a folder that already holds a managed
      dashboard, that dashboard's uid, its version plus one (a missing version
      counting as 0) and `overwrite`; otherwise neither uid nor version and no
      overwrite. */
  predicate UpsertFor(o: Organisation, managed: map<string, DashboardHit>, template: string, datasourceUid: string, p: Payload) {
    && p.folderUid == o.uuid
    && p.dashboard == Render(template, o.name, datasourceUid)
    && (o.uuid in managed ==>
          p.uid == Some(managed[o.uuid].uid)
          && p.version == Some(if managed[o.uuid].version.Some? then managed[o.uuid].version.value + 1 else 1)
          && p.overwrite)
    && (o.uuid !in managed ==> p.uid.None? && p.version.None? && !p.overwrite)
  }

  /** Every call of `sync_dashboards` is an upsert for an organisation that has
      a folder: dashboards are never deleted and organisations without a
      folder get none. */
  lemma {:induction false} DashboardCallsSound(orgs: seq<Organisation>, folderUids: set<string>,
      managed: map<string, DashboardHit>, template: string, datasourceUid: string, c: Call)
    requires c in DashboardCalls(orgs, folderUids, managed, template, datasourceUid)
    ensures c.UpsertDashboard?
    ensures exists o :: o in orgs && o.uuid in folderUids && UpsertFor(o, managed, template, datasourceUid, c.payload)
    decreases |orgs|
  {
    var n := |orgs| - 1;
    var init := orgs[..n];
    var rest := DashboardCalls(init, folderUids, managed, template, datasourceUid);
    if c in rest {
      DashboardCallsSound(init, folderUids, managed, template, datasourceUid, c);
      var o :| o in init && o.uuid in folderUids && UpsertFor(o, managed, template, datasourceUid, c.payload);
      assert o in orgs;
    } else {
      PayloadIsUpsertFor(orgs[n], managed, template, datasourceUid);
      assert orgs[n] in orgs;
    }
  }

  /** Every organisation that has a folder gets an upsert into it. */
  lemma {:induction false} DashboardCallsComplete(orgs: seq<Organisation>, folderUids: set<string>,
      managed: map<string, DashboardHit>, template: string, datasourceUid: string, i: int)
    requires 0 <= i < |orgs| && orgs[i].uuid in folderUids
    ensures UpsertDashboard(DashboardPayload(orgs[i], ManagedIn(managed, orgs[i].uuid), template, datasourceUid))
              in DashboardCalls(orgs, folderUids, managed, template, datasourceUid)
    decreases |orgs|
  {
    var n := |orgs| - 1;
    if i < n {
      DashboardCallsComplete(orgs[..n], folderUids, managed, template, datasourceUid, i);
    }
  }

  /** Helper: the payload built for an organisation is an upsert for it. */
  lemma PayloadIsUpsertFor(o: Organisation, managed: map<string, DashboardHit>, template: string, datasourceUid: string)
    ensures UpsertFor(o, managed, template, datasourceUid, DashboardPayload(o, ManagedIn(managed, o.uuid), template, datasourceUid))
  {
  }

  /** Replacing dashboard "dash-1" at version 3 sends version 4 with its uid. */
  lemma VersionBumpExample(o: Organisation, template: string, datasourceUid: string)
    ensures var p := DashboardPayload(o, Some(DashboardHit("dash-1", Some(o.uuid), Some(3))), template, datasourceUid);
      p.uid == Some("dash-1") && p.version == Some(4) && p.overwrite
  {
  }

  // ------------------------------------------------------ nothing deleted

  lemma DeletesNothingConcat(a: seq<Call>, b: seq<Call>)
    requires DeletesNothing(a) && DeletesNothing(b)
    ensures DeletesNothing(a + b)
  {
    forall k | 0 <= k < |a + b| ensures !(a + b)[k].DeleteUser? && !(a + b)[k].DeleteTeam? {
      if k >= |a| {
        assert (a + b)[k] == b[k - |a|];
      }
    }
  }

  /** `sync_users` creates users and deletes none. */
  lemma UserCreationsDeleteNothing(users: seq<User>, observed: set<string>)
    ensures DeletesNothing(UserCreations(users, observed))
  {
    var cs := UserCreations(users, observed);
    forall k | 0 <= k < |cs| ensures !cs[k].DeleteUser? && !cs[k].DeleteTeam? {
      UserCreationsExactly(users, observed, cs[k]);
    }
  }

  /** The team reconcilers append no deletion of a user or a team. */
  lemma TeamCallsDeleteNothing(before: seq<Call>, after: seq<Call>)
    requires AppendsTeamCalls(before, after)
    ensures after == before + after[|before|..]
    ensures DeletesNothing(after[|before|..])
  {
    assert after == after[..|before|] + after[|before|..];
    forall k | 0 <= k < |after| - |before| ensures TeamCall(after[|before|..][k]) {
      assert after[|before|..][k] == after[|before| + k];
    }
  }

  /** The first loop of `sync_folders` deletes nothing. */
  lemma FolderLoopDeletesNothing(orgs: seq<Organisation>, listed: map<string, string>, dryRun: bool)
    ensures DeletesNothing(FolderLoop(orgs, listed, dryRun).calls)
  {
    var cs := FolderLoop(orgs, listed, dryRun).calls;
    forall k | 0 <= k < |cs| ensures !cs[k].DeleteUser? && !cs[k].DeleteTeam? {
      FolderLoopCalls(orgs, listed, dryRun, cs[k]);
    }
  }

  /** Folder deletions delete no user and no team. */
  lemma DeletionsDeleteNothing(ds: seq<Call>, uids: set<string>)
    requires DeletionsOf(ds, uids)
    ensures DeletesNothing(ds)
  {
    forall k | 0 <= k < |ds| ensures !ds[k].DeleteUser? && !ds[k].DeleteTeam? {
      assert ds[k] in ds;
    }
  }

  /** `sync_dashboards` only upserts. */
  lemma DashboardCallsDeleteNothing(orgs: seq<Organisation>, folderUids: set<string>,
      managed: map<string, DashboardHit>, template: string, datasourceUid: string)
    ensures DeletesNothing(DashboardCalls(orgs, folderUids, managed, template, datasourceUid))
  {
    var cs := DashboardCalls(orgs, folderUids, managed, template, datasourceUid);
    forall k | 0 <= k < |cs| ensures !cs[k].DeleteUser? && !cs[k].DeleteTeam? {
      DashboardCallsSound(orgs, folderUids, managed, template, datasourceUid, cs[k]);
    }
  }
}

