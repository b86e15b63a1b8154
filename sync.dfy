/** The reconciler `Sync` of waldur-grafana-sync/sync.py:69-350 as a class.
    The Grafana backend it talks to is abstracted by fields of the class: the
    logins of its users, its teams and their members, its folders and the
    managed dashboards; every mutating call issued is appended to `calls`.
    The registry's users, customers and the dashboard template are passed in. */
module Reconcile {
  import opened Wrappers
  import opened Uuid
  import opened Settings
  import opened Desired
  import opened Plan

  class Sync {
    /** The settings read at start-up (sync.py:22-33). */
    const config: Config
    /** The logins of the backend's users. */
    var logins: set<string>
    /** The backend's teams, name to id. */
    var teams: map<string, int>
    /** The logins in each team, by team id. */
    var members: map<int, set<string>>
    /** The id the backend gives the next team it creates. */
    var nextTeamId: int
    /** The backend's folders, uid to title. */
    var folders: map<string, string>
    /** What the search for dashboards tagged 'managed' returns. */
    const dashboards: seq<DashboardHit>
    /** The mutating backend calls that succeeded, oldest first. */
    var calls: seq<Call>

    /** Every team has a member set and an id of its own below `nextTeamId`,
        and every member of a team is a user of the backend. */
    ghost predicate Valid()
      reads this
    {
      && (forall name :: name in teams ==> teams[name] in members && teams[name] < nextTeamId)
      && (forall id :: id in members ==> id < nextTeamId && members[id] <= logins)
      && (forall a, b :: a in teams && b in teams && a != b ==> teams[a] != teams[b])
    }

    constructor (config: Config, logins: set<string>, teams: map<string, int>, members: map<int, set<string>>,
                 nextTeamId: int, folders: map<string, string>, dashboards: seq<DashboardHit>)
      requires forall name :: name in teams ==> teams[name] in members
      requires forall id :: id in members ==> id < nextTeamId && members[id] <= logins
      requires forall a, b :: a in teams && b in teams && a != b ==> teams[a] != teams[b]
      ensures Valid()
      ensures this.config == config && this.logins == logins && this.teams == teams && this.members == members
      ensures this.nextTeamId == nextTeamId && this.folders == folders && this.dashboards == dashboards
      ensures calls == []
    {
      this.config := config;
      this.logins := logins;
      this.teams := teams;
      this.members := members;
      this.nextTeamId := nextTeamId;
      this.folders := folders;
      this.dashboards := dashboards;
      calls := [];
    }

    /** `create_team` (backend.py:36-37): a team without members under the next
        id. Grafana refuses a name that is already taken, and the client then
        raises: `ok` is false and nothing changes. */
    method AddTeam(name: string) returns (ok: bool)
      requires Valid()
      modifies this
      ensures Valid()
      ensures ok <==> old(name !in teams)
      ensures name in teams
      ensures !ok ==>
        teams == old(teams) && members == old(members) && nextTeamId == old(nextTeamId) && calls == old(calls)
      ensures ok ==>
        && teams == old(teams)[name := old(nextTeamId)]
        && members == old(members)[old(nextTeamId) := {}]
        && nextTeamId == old(nextTeamId) + 1
        && calls == old(calls) + [CreateTeam(name)]
      ensures logins == old(logins) && folders == old(folders)
    {
      if name in teams {
        return false;
      }
      teams := teams[name := nextTeamId];
      members := members[nextTeamId := {}];
      nextTeamId := nextTeamId + 1;
      calls := calls + [CreateTeam(name)];
      ok := true;
    }

    /** `_sync_teams` (sync.py:239-277): make the members of team `teamName` the
        usernames of `users`, creating the team first; in dry run a missing
        team ends the step and an existing one is left alone. Stale members are
        removed before new ones are added; a new member whose login the backend
        lacks becomes a user. `removals` and `additions` are the membership
        calls planned, issued unless in dry run. */
    method SyncTeam(teamName: string, users: seq<User>) returns (removals: seq<Call>, additions: seq<Call>)
      requires Valid()
      modifies this
      ensures Valid()
      ensures folders == old(folders)
      ensures teamName !in old(teams) && config.dryRun ==>
        && removals == [] && additions == []
        && teams == old(teams) && members == old(members) && nextTeamId == old(nextTeamId)
        && logins == old(logins) && calls == old(calls)
      ensures teamName in old(teams) || !config.dryRun ==>
        && teamName in teams
        && (teamName in old(teams) ==> teams == old(teams) && nextTeamId == old(nextTeamId))
        && (teamName !in old(teams) ==>
              teams == old(teams)[teamName := old(nextTeamId)] && nextTeamId == old(nextTeamId) + 1)
        && var id := teams[teamName];
           var observed := if teamName in old(teams) then old(members)[id] else {};
           && RemovalsOf(removals, id, StaleLogins(observed, Usernames(users)))
           && AdditionsOf(additions, id, NewLogins(observed, Usernames(users)), UserIndex(users))
           && (config.dryRun ==> members == old(members) && logins == old(logins) && calls == old(calls))
           && (!config.dryRun ==>
                 && members == old(members)[id := Usernames(users)]
                 && logins == old(logins) + NewLogins(observed, Usernames(users))
                 && calls == old(calls) + (if teamName in old(teams) then [] else [CreateTeam(teamName)])
                             + removals + additions)
      ensures old(logins) <= logins
      ensures forall n :: n in old(teams) ==> n in teams && teams[n] == old(teams)[n]
      ensures forall n :: n in old(teams) && n != teamName ==> members[teams[n]] == old(members)[old(teams)[n]]
      ensures teams.Keys <= old(teams).Keys + {teamName}
      ensures AppendsTeamCalls(old(calls), calls)
    {
      var found := FindOrCreateTeam(teamName);
      if !found {
        return [], [];
      }
      ghost var calls1 := calls;
      removals, additions := SyncMembers(teams[teamName], users);
      AppendsTeamCallsTrans(old(calls), calls1, calls);
    }

    /** The start of `_sync_teams` (sync.py:240-250): the team by that name,
        created unless in dry run; `found` is false when there is no team to
        sync. */
    method FindOrCreateTeam(teamName: string) returns (found: bool)
      requires Valid()
      modifies this
      ensures Valid()
      ensures found <==> teamName in old(teams) || !config.dryRun
      ensures found ==> teamName in teams
      ensures teamName in old(teams) || !found ==>
        teams == old(teams) && members == old(members) && nextTeamId == old(nextTeamId) && calls == old(calls)
      ensures teamName !in old(teams) && found ==>
        && teams == old(teams)[teamName := old(nextTeamId)]
        && members == old(members)[old(nextTeamId) := {}]
        && nextTeamId == old(nextTeamId) + 1
        && calls == old(calls) + [CreateTeam(teamName)]
      ensures AppendsTeamCalls(old(calls), calls)
      ensures logins == old(logins) && folders == old(folders)
    {
      if teamName !in teams {
        if config.dryRun {
          AppendsTeamCallsExtend(calls, []);
          assert calls + [] == calls;
          return false;
        }
        var _ := AddTeam(teamName);
        AppendsTeamCallsExtend(old(calls), [CreateTeam(teamName)]);
      } else {
        AppendsTeamCallsExtend(calls, []);
        assert calls + [] == calls;
      }
      found := true;
    }

    /** The membership half of `_sync_teams` (sync.py:252-277) for team `id`:
        remove the members that are not desired, then add the desired users
        that are not members. `removals` and `additions` are the calls planned,
        issued unless in dry run. */
    method SyncMembers(id: int, users: seq<User>) returns (removals: seq<Call>, additions: seq<Call>)
      requires Valid() && id in members
      modifies this
      ensures Valid()
      ensures RemovalsOf(removals, id, StaleLogins(old(members)[id], Usernames(users)))
      ensures AdditionsOf(additions, id, NewLogins(old(members)[id], Usernames(users)), UserIndex(users))
      ensures config.dryRun ==> members == old(members) && logins == old(logins) && calls == old(calls)
      ensures !config.dryRun ==>
        && members == old(members)[id := Usernames(users)]
        && logins == old(logins) + NewLogins(old(members)[id], Usernames(users))
        && calls == old(calls) + removals + additions
      ensures AppendsTeamCalls(old(calls), calls)
      ensures teams == old(teams) && nextTeamId == old(nextTeamId) && folders == old(folders)
    {
      var observed := members[id];
      var index := UserIndex(users);
      var stale := StaleLogins(observed, index.Keys);
      var joining := NewLogins(observed, index.Keys);
      removals := RemoveMembers(id, stale);
      additions := AddMembers(id, joining, index);
      MembershipCallsAreTeamCalls(removals, additions, id, stale, joining, index);
      AppendsTeamCallsExtend(old(calls), if config.dryRun then [] else removals + additions);
      assert calls == old(calls) + if config.dryRun then [] else removals + additions;
      MembershipDiff(observed, index.Keys);
    }

    /** `remove_team_member` (backend.py:45-46). */
    method RemoveMember(id: int, login: string)
      requires Valid() && id in members
      modifies this
      ensures Valid() && id in members
      ensures members == old(members)[id := old(members)[id] - {login}]
      ensures calls == old(calls) + [RemoveTeamMember(id, login)]
      ensures teams == old(teams) && nextTeamId == old(nextTeamId)
      ensures logins == old(logins) && folders == old(folders)
    {
      members := members[id := members[id] - {login}];
      calls := calls + [RemoveTeamMember(id, login)];
    }

    /** `create_team_member` (backend.py:57-65): the user is created when the
        backend has none, then added to team `id`. */
    method CreateTeamMember(id: int, login: string, email: string, name: string)
      requires Valid() && id in members
      modifies this
      ensures Valid() && id in members
      ensures logins == old(logins) + {login}
      ensures members == old(members)[id := old(members)[id] + {login}]
      ensures calls == old(calls) + [AddTeamMember(id, login, email, name)]
      ensures teams == old(teams) && nextTeamId == old(nextTeamId) && folders == old(folders)
    {
      logins := logins + {login};
      members := members[id := members[id] + {login}];
      calls := calls + [AddTeamMember(id, login, email, name)];
    }

    /** The first loop of `_sync_teams` (sync.py:263-268): remove each stale
        login from team `id`, unless in dry run. */
    method RemoveMembers(id: int, stale: set<string>) returns (removals: seq<Call>)
      requires Valid() && id in members
      modifies this
      ensures Valid()
      ensures RemovalsOf(removals, id, stale)
      ensures members == if config.dryRun then old(members) else old(members)[id := old(members)[id] - stale]
      ensures calls == old(calls) + if config.dryRun then [] else removals
      ensures teams == old(teams) && nextTeamId == old(nextTeamId)
      ensures logins == old(logins) && folders == old(folders)
    {
      removals := [];
      var todo := stale;
      assert members == old(members);
      assert stale - todo == {};
      assert old(members)[id] - (stale - todo) == old(members)[id];
      assert old(members)[id := old(members)[id]] == old(members);
      while todo != {}
        invariant todo <= stale
        invariant RemovalsOf(removals, id, stale - todo)
        invariant config.dryRun ==> members == old(members)
        invariant !config.dryRun ==> members == old(members)[id := old(members)[id] - (stale - todo)]
        invariant calls == old(calls) + if config.dryRun then [] else removals
        invariant teams == old(teams) && nextTeamId == old(nextTeamId)
        invariant logins == old(logins) && folders == old(folders)
        invariant Valid() && id in members
        decreases |todo|
      {
        var login :| login in todo;
        RemovalsStep(removals, id, stale - todo, login);
        assert stale - todo + {login} == stale - (todo - {login});
        removals := removals + [RemoveTeamMember(id, login)];
        if !config.dryRun {
          assert members[id] - {login} == old(members)[id] - (stale - (todo - {login}));
          RemoveMember(id, login);
        }
        todo := todo - {login};
      }
      assert stale - todo == stale;
    }

    /** The second loop of `_sync_teams` (sync.py:270-277): add each new
        username to team `id` with the email and name the registry gives,
        creating the backend user when there is none (`create_team_member`),
        unless in dry run. */
    method AddMembers(id: int, joining: set<string>, index: map<string, User>) returns (additions: seq<Call>)
      requires Valid() && id in members && joining <= index.Keys
      modifies this
      ensures Valid()
      ensures AdditionsOf(additions, id, joining, index)
      ensures config.dryRun ==> members == old(members) && logins == old(logins)
      ensures !config.dryRun ==> members == old(members)[id := old(members)[id] + joining]
      ensures !config.dryRun ==> logins == old(logins) + joining
      ensures calls == old(calls) + if config.dryRun then [] else additions
      ensures teams == old(teams) && nextTeamId == old(nextTeamId) && folders == old(folders)
    {
      additions := [];
      var todo := joining;
      ghost var done: set<string> := {};
      ghost var before := old(members)[id];
      assert before + done == before;
      assert old(members)[id := before] == old(members);
      while todo != {}
        invariant done + todo == joining && done !! todo
        invariant AdditionsOf(additions, id, done, index)
        invariant config.dryRun ==> members == old(members) && logins == old(logins)
        invariant !config.dryRun ==> members == old(members)[id := before + done]
        invariant !config.dryRun ==> logins == old(logins) + done
        invariant calls == old(calls) + if config.dryRun then [] else additions
        invariant teams == old(teams) && nextTeamId == old(nextTeamId) && folders == old(folders)
        invariant Valid() && id in members
        decreases |todo|
      {
        var login :| login in todo;
        var add := Addition(id, login, index);
        AdditionsStep(additions, id, done, login, index);
        if !config.dryRun {
          CreateTeamMember(id, login, index[login].email, index[login].name);
          MemberAdded(old(members), id, before, done, login, members);
          CallAppended(old(calls), additions, add, calls);
        }
        additions := additions + [add];
        SetMoved(done, todo, login);
        done := done + {login};
        todo := todo - {login};
      }
      assert done == joining;
    }

    /** `create_user` (backend.py:73-80); the generated password is not
        modelled. */
    method AddUser(login: string, email: string, name: string)
      requires Valid()
      modifies this
      ensures Valid()
      ensures logins == old(logins) + {login}
      ensures calls == old(calls) + [CreateUser(login, email, name)]
      ensures teams == old(teams) && members == old(members) && nextTeamId == old(nextTeamId) && folders == old(folders)
    {
      logins := logins + {login};
      calls := calls + [CreateUser(login, email, name)];
    }

    /** `sync_users` (sync.py:212-237): create a backend user for each desired
        user whose username is not among the logins listed at the start; no
        user is ever deleted. `creations` are the calls planned, issued unless
        in dry run. */
    method SyncUsers(users: seq<User>) returns (creations: seq<Call>)
      requires Valid()
      modifies this
      ensures Valid()
      ensures creations == UserCreations(users, old(logins))
      ensures config.dryRun ==> logins == old(logins) && calls == old(calls)
      ensures !config.dryRun ==> logins == old(logins) + Usernames(users) && calls == old(calls) + creations
      ensures teams == old(teams) && members == old(members) && nextTeamId == old(nextTeamId) && folders == old(folders)
    {
      var listed := logins;
      creations := [];
      for i := 0 to |users|
        invariant Valid()
        invariant creations == UserCreations(users[..i], listed)
        invariant config.dryRun ==> logins == listed && calls == old(calls)
        invariant !config.dryRun ==> logins == listed + Usernames(users[..i]) && calls == old(calls) + creations
        invariant teams == old(teams) && members == old(members) && nextTeamId == old(nextTeamId) && folders == old(folders)
      {
        var u := users[i];
        assert users[..i + 1][..i] == users[..i];
        UsernamesOfPrefix(users[..i + 1]);
        if u.username !in listed {
          var c := CreateUserCall(u);
          if !config.dryRun {
            AddUser(u.username, u.email, u.name);
            CallAppended(old(calls), creations, c, calls);
          }
          creations := creations + [c];
        }
      }
      assert users[..|users|] == users;
    }

    /** `sync_organization_teams` (sync.py:291-313): for each organisation, in
        order, create the team named by its title when the team listing taken
        at the start lacks it, then make the owners its members. The listing
        is not updated, so a second organisation with a title the listing
        lacks makes `create_team` run again for a name now taken; the backend
        refuses it and the run ends there: `ok` is false and exactly the
        organisations before it have been through. Of several organisations
        with one title the last one's owners remain. The cleanup of other
        teams is disabled in the source and only logs. */
    method SyncOrganizationTeams(orgs: seq<Organisation>) returns (ok: bool)
      requires Valid()
      modifies this
      ensures Valid()
      ensures folders == old(folders) && old(logins) <= logins
      ensures AppendsTeamCalls(old(calls), calls)
      ensures ok <==> config.dryRun || FirstNewRepeat(orgs, old(teams).Keys) == |orgs|
      ensures config.dryRun ==>
        && teams == old(teams) && members == old(members) && logins == old(logins)
        && nextTeamId == old(nextTeamId) && calls == old(calls)
      ensures !config.dryRun ==>
        var done := orgs[..FirstNewRepeat(orgs, old(teams).Keys)];
        && teams.Keys == old(teams).Keys + Titles(done)
        && TeamsAre(OrgTeamTargets(done), teams, members)
        && (forall n :: n in old(teams) && n !in OrgTeamTargets(done) ==> members[teams[n]] == old(members)[old(teams)[n]])
        && logins == old(logins) + OwnerLogins(done)
        && nextTeamId == old(nextTeamId) + |NewTitles(done, old(teams).Keys)|
        && TeamCreations(calls[|old(calls)|..]) == NewTitles(done, old(teams).Keys)
      ensures forall n :: n in old(teams) ==> n in teams && teams[n] == old(teams)[n]
    {
      var listed := teams.Keys;
      ok := true;
      OrgTeamsStart(orgs, listed, config.dryRun, teams, members, logins, nextTeamId, calls);
      var i := 0;
      while i < |orgs|
        invariant 0 <= i <= |orgs|
        invariant Valid() && folders == old(folders) && listed == old(teams).Keys && listed <= teams.Keys
        invariant !config.dryRun ==> FirstNewRepeat(orgs[..i], listed) == i
        invariant OrgTeamsDone(OrgTeamTargets(orgs[..i]), config.dryRun, old(teams), old(members), old(logins), old(calls),
                               teams, members, logins, calls)
        invariant OrgTeamsCounted(NewTitles(orgs[..i], listed), OwnerLogins(orgs[..i]), config.dryRun,
                                  old(logins), old(nextTeamId), old(calls), logins, nextTeamId, calls)
      {
        var stepOk := SyncOrganizationTeamsTurn(orgs, listed, i, old(teams), old(members), old(logins),
                                                old(nextTeamId), old(calls));
        if !stepOk {
          OrgTeamsFinish(orgs, listed, i, config.dryRun, old(teams), old(members), old(logins), old(nextTeamId),
                         old(calls), teams, members, logins, nextTeamId, calls);
          ok := false;
          return;
        }
        i := i + 1;
      }
      assert orgs[..|orgs|] == orgs;
      OrgTeamsFinish(orgs, listed, |orgs|, config.dryRun, old(teams), old(members), old(logins), old(nextTeamId),
                     old(calls), teams, members, logins, nextTeamId, calls);
    }

    /** Turn `i` of the loop of `sync_organization_teams`, from teams `t0`,
        members `m0`, logins `l0`, next id `n0` and calls `c0` before the
        loop: either the organisations up to `i` have been through, or
        organisation `i` is the first to repeat a new title and nothing
        changes. */
    method SyncOrganizationTeamsTurn(orgs: seq<Organisation>, listed: set<string>, i: int,
        ghost t0: map<string, int>, ghost m0: map<int, set<string>>, ghost l0: set<string>, ghost n0: int,
        ghost c0: seq<Call>) returns (stepOk: bool)
      requires 0 <= i < |orgs|
      requires Valid() && listed == t0.Keys && listed <= teams.Keys
      requires !config.dryRun ==> FirstNewRepeat(orgs[..i], listed) == i
      requires OrgTeamsDone(OrgTeamTargets(orgs[..i]), config.dryRun, t0, m0, l0, c0, teams, members, logins, calls)
      requires OrgTeamsCounted(NewTitles(orgs[..i], listed), OwnerLogins(orgs[..i]), config.dryRun,
                               l0, n0, c0, logins, nextTeamId, calls)
      modifies this
      ensures Valid() && folders == old(folders) && listed <= teams.Keys
      ensures !stepOk ==>
        && !config.dryRun && FirstNewRepeat(orgs, listed) == i
        && teams == old(teams) && members == old(members) && logins == old(logins)
        && nextTeamId == old(nextTeamId) && calls == old(calls)
      ensures stepOk ==>
        && (!config.dryRun ==> FirstNewRepeat(orgs[..i + 1], listed) == i + 1)
        && OrgTeamsDone(OrgTeamTargets(orgs[..i + 1]), config.dryRun, t0, m0, l0, c0, teams, members, logins, calls)
        && OrgTeamsCounted(NewTitles(orgs[..i + 1], listed), OwnerLogins(orgs[..i + 1]), config.dryRun,
                           l0, n0, c0, logins, nextTeamId, calls)
    {
      var o := orgs[i];
      TargetsPrefix(orgs, listed, i);
      stepOk := SyncOrganizationTeam(o, listed);
      if !config.dryRun {
        FirstNewRepeatGrow(orgs, listed, i);
      }
      if !stepOk {
        return;
      }
      OrgTeamsStep(OrgTeamTargets(orgs[..i]), OrgTeamTargets(orgs[..i + 1]), Title(o), Usernames(o.owners),
                   config.dryRun, t0, m0, l0, c0, old(teams), old(members), old(logins), old(calls),
                   teams, members, logins, calls);
      CountedStep(NewTitles(orgs[..i], listed), OwnerLogins(orgs[..i]), Title(o), Title(o) !in listed,
                  Usernames(o.owners), config.dryRun, l0, n0, c0,
                  old(logins), old(nextTeamId), old(calls), logins, nextTeamId, calls);
    }

    /** One turn of the loop of `sync_organization_teams` (sync.py:295-305):
        `listed` are the team names listed before the loop. `ok` is false when
        the backend refuses to create the team because an earlier turn
        created it. */
    method SyncOrganizationTeam(o: Organisation, listed: set<string>) returns (ok: bool)
      requires Valid() && listed <= teams.Keys
      modifies this
      ensures Valid()
      ensures folders == old(folders) && old(logins) <= logins
      ensures AppendsTeamCalls(old(calls), calls)
      ensures ok <==> config.dryRun || Title(o) in listed || Title(o) !in old(teams)
      ensures !ok || config.dryRun ==>
        && teams == old(teams) && members == old(members) && logins == old(logins)
        && nextTeamId == old(nextTeamId) && calls == old(calls)
      ensures ok && !config.dryRun ==>
        && teams.Keys == old(teams).Keys + {Title(o)}
        && members == old(members)[teams[Title(o)] := Usernames(o.owners)]
        && logins == old(logins) + Usernames(o.owners)
        && nextTeamId == old(nextTeamId) + (if Title(o) in listed then 0 else 1)
        && TeamCreations(calls[|old(calls)|..]) == (if Title(o) in listed then [] else [Title(o)])
      ensures forall n :: n in old(teams) ==> n in teams && teams[n] == old(teams)[n]
    {
      var t := Title(o);
      ok := CreateOrgTeam(t, listed);
      if !ok {
        return;
      }
      ghost var teams1, members1, logins1, next1, calls1 := teams, members, logins, nextTeamId, calls;
      var removals, additions := SyncTeam(t, o.owners);
      AppendsTeamCallsTrans(old(calls), calls1, calls);
      if !config.dryRun {
        var id := teams[t];
        var observed := members1[id];
        var owners := Usernames(o.owners);
        MembershipCallsCreateNoTeam(removals, additions, id, StaleLogins(observed, owners), NewLogins(observed, owners),
                                    UserIndex(o.owners));
        OrgTeamCallsCreate(old(calls), calls1, calls, t, t !in listed, removals, additions);
        OrgTeamTurnState(t, owners, listed, old(teams), old(members), old(logins), old(nextTeamId),
                         teams1, members1, logins1, next1, teams, members, logins, nextTeamId);
      }
    }

    /** The `create_team` of one turn of `sync_organization_teams`
        (sync.py:300-303): issued, unless in dry run, when the team listing
        taken before the loop lacks `t`; refused when an earlier turn has
        created `t`. */
    method CreateOrgTeam(t: string, listed: set<string>) returns (ok: bool)
      requires Valid() && listed <= teams.Keys
      modifies this
      ensures Valid()
      ensures ok <==> config.dryRun || t in listed || t !in old(teams)
      ensures !ok || config.dryRun || t in listed ==>
        teams == old(teams) && members == old(members) && nextTeamId == old(nextTeamId) && calls == old(calls)
      ensures ok && !config.dryRun && t !in listed ==>
        && teams == old(teams)[t := old(nextTeamId)] && members == old(members)[old(nextTeamId) := {}]
        && nextTeamId == old(nextTeamId) + 1 && calls == old(calls) + [CreateTeam(t)]
      ensures ok && !config.dryRun ==> t in teams
      ensures logins == old(logins) && folders == old(folders)
      ensures AppendsTeamCalls(old(calls), calls)
    {
      ok := true;
      if t !in listed && !config.dryRun {
        ok := AddTeam(t);
        if ok {
          AppendsTeamCallsExtend(old(calls), [CreateTeam(t)]);
          return;
        }
      }
      AppendsTeamCallsExtend(calls, []);
      assert calls + [] == calls;
    }

    /** `sync_folders` (sync.py:168-206): for each organisation, in order,
        rename its folder when the listed title differs (even in dry run), or
        create a folder under its uid when its title is not yet taken, and
        grant its team read access; then delete every listed folder whose uid
        is UUID-like and belongs to no organisation. `deletions` are the
        deletions planned, issued unless in dry run. */
    method SyncFolders(orgs: seq<Organisation>) returns (deletions: seq<Call>)
      requires Valid()
      modifies this
      ensures Valid()
      ensures folders == FolderOutcome(orgs, old(folders), config.dryRun)
      ensures DeletionsOf(deletions, Orphans(old(folders), orgs))
      ensures calls == old(calls) + FolderLoop(orgs, old(folders), config.dryRun).calls
                       + if config.dryRun then [] else deletions
      ensures logins == old(logins) && teams == old(teams) && members == old(members) && nextTeamId == old(nextTeamId)
    {
      var listed := folders;
      var folderNames := listed.Values;
      assert orgs[..0] == [] && calls == old(calls) + [];
      for i := 0 to |orgs|
        invariant var p := FolderLoop(orgs[..i], listed, config.dryRun);
          folderNames == p.titles && folders == p.folders && calls == old(calls) + p.calls
        invariant logins == old(logins) && teams == old(teams) && members == old(members) && nextTeamId == old(nextTeamId)
      {
        ghost var before := FolderLoop(orgs[..i], listed, config.dryRun);
        ghost var calls0 := calls;
        folderNames := SyncFolder(orgs[i], listed, folderNames);
        assert orgs[..i + 1][..i] == orgs[..i];
        FolderStepAppends(before, orgs[i], listed, config.dryRun);
        ghost var added := FolderStep(before.(calls := []), orgs[i], listed, config.dryRun).calls;
        assert calls == old(calls) + (before.calls + added);
      }
      assert orgs[..|orgs|] == orgs;
      deletions := RemoveOrphans(orgs, listed);
    }

    /** One turn of the first loop of `sync_folders` (sync.py:174-197) for
        organisation `o`, given the folders `listed` before the loop and the
        titles seen so far; `titlesOut` are the titles seen after it. */
    method SyncFolder(o: Organisation, listed: map<string, string>, titles: set<string>) returns (titlesOut: set<string>)
      modifies this
      ensures var q := FolderStep(FolderPass(titles, old(folders), []), o, listed, config.dryRun);
        titlesOut == q.titles && folders == q.folders && calls == old(calls) + q.calls
      ensures logins == old(logins) && teams == old(teams) && members == old(members) && nextTeamId == old(nextTeamId)
    {
      var t := Title(o);
      titlesOut := titles;
      if o.uuid in listed {
        if listed[o.uuid] != t {
          RenameFolder(o.uuid, t);
        }
      } else {
        if t in titles {
          assert calls == old(calls) + [];
          return;
        }
        if !config.dryRun {
          AddFolder(t, o.uuid);
        }
        titlesOut := titles + {t};
      }
      if !config.dryRun {
        GrantFolderAccess(o.uuid, t);
      }
    }

    /** The cleanup loop of `sync_folders` (sync.py:199-206) over the folders
        `listed` before the first loop. */
    method RemoveOrphans(orgs: seq<Organisation>, listed: map<string, string>) returns (deletions: seq<Call>)
      modifies this
      ensures DeletionsOf(deletions, Orphans(listed, orgs))
      ensures folders == if config.dryRun then old(folders) else old(folders) - Orphans(listed, orgs)
      ensures calls == old(calls) + if config.dryRun then [] else deletions
      ensures logins == old(logins) && teams == old(teams) && members == old(members) && nextTeamId == old(nextTeamId)
    {
      var orgUuids := Uuids(orgs);
      var orphan := (u: string) => IsUuidLike(u) && u !in orgUuids;
      deletions := RemoveFoldersWhere(listed.Keys, orphan);
      assert (set u | u in listed.Keys && orphan(u)) == Orphans(listed, orgs);
    }

    /** The loop of `RemoveOrphans`: delete, unless in dry run, each folder of
        `keys` that passes `orphan`. */
    method RemoveFoldersWhere(keys: set<string>, orphan: string -> bool) returns (deletions: seq<Call>)
      modifies this
      ensures DeletionsOf(deletions, set u | u in keys && orphan(u))
      ensures folders == if config.dryRun then old(folders) else old(folders) - (set u | u in keys && orphan(u))
      ensures calls == old(calls) + if config.dryRun then [] else deletions
      ensures logins == old(logins) && teams == old(teams) && members == old(members) && nextTeamId == old(nextTeamId)
    {
      ghost var orphans := set u | u in keys && orphan(u);
      deletions := [];
      var todo := keys;
      assert orphans - todo == {};
      assert old(folders) - (orphans - todo) == old(folders);
      while todo != {}
        invariant todo <= keys
        invariant DeletionsOf(deletions, orphans - todo)
        invariant config.dryRun ==> folders == old(folders) && calls == old(calls)
        invariant !config.dryRun ==> folders == old(folders) - (orphans - todo) && calls == old(calls) + deletions
        invariant logins == old(logins) && teams == old(teams) && members == old(members) && nextTeamId == old(nextTeamId)
        decreases |todo|
      {
        var u :| u in todo;
        OrphanStep(orphans, todo, u, old(folders));
        if orphan(u) {
          DeletionsStep(deletions, orphans - todo, u);
          if !config.dryRun {
            RemoveFolder(u);
            assert calls == old(calls) + (deletions + [DeleteFolder(u)]);
          }
          deletions := deletions + [DeleteFolder(u)];
        }
        todo := todo - {u};
      }
      assert orphans - todo == orphans;
    }

    /** `update_folder`: the folder `uid` gets title `title`. */
    method RenameFolder(uid: string, title: string)
      modifies this
      ensures folders == old(folders)[uid := title]
      ensures calls == old(calls) + [UpdateFolder(uid, title)]
      ensures logins == old(logins) && teams == old(teams) && members == old(members) && nextTeamId == old(nextTeamId)
    {
      folders := folders[uid := title];
      calls := calls + [UpdateFolder(uid, title)];
    }

    /** `create_folder`: a folder titled `title` under uid `uid`. */
    method AddFolder(title: string, uid: string)
      modifies this
      ensures folders == old(folders)[uid := title]
      ensures calls == old(calls) + [CreateFolder(title, uid)]
      ensures logins == old(logins) && teams == old(teams) && members == old(members) && nextTeamId == old(nextTeamId)
    {
      folders := folders[uid := title];
      calls := calls + [CreateFolder(title, uid)];
    }

    /** `set_folder_permissions`: the team titled `title` may read folder
        `uid`. Permissions are not part of the modelled state. */
    method GrantFolderAccess(uid: string, title: string)
      modifies this
      ensures calls == old(calls) + [SetFolderPermissions(uid, title)]
      ensures folders == old(folders)
      ensures logins == old(logins) && teams == old(teams) && members == old(members) && nextTeamId == old(nextTeamId)
    {
      calls := calls + [SetFolderPermissions(uid, title)];
    }

    /** `delete_folder`. */
    method RemoveFolder(uid: string)
      modifies this
      ensures folders == old(folders) - {uid}
      ensures calls == old(calls) + [DeleteFolder(uid)]
      ensures logins == old(logins) && teams == old(teams) && members == old(members) && nextTeamId == old(nextTeamId)
    {
      folders := folders - {uid};
      calls := calls + [DeleteFolder(uid)];
    }

    /** `sync_dashboards` (sync.py:315-350): for each organisation, in order,
        whose uuid is the uid of a folder now listed, upsert its dashboard:
        a new one when its folder holds no managed dashboard, otherwise the
        managed one with its version bumped. `upserts` are the calls planned,
        issued unless in dry run. */
    method SyncDashboards(orgs: seq<Organisation>, template: string) returns (upserts: seq<Call>)
      modifies this
      ensures upserts == DashboardCalls(orgs, folders.Keys, ManagedByFolder(dashboards), template, config.datasourceUid)
      ensures calls == old(calls) + if config.dryRun then [] else upserts
      ensures folders == old(folders)
      ensures logins == old(logins) && teams == old(teams) && members == old(members) && nextTeamId == old(nextTeamId)
    {
      var managed := ManagedByFolder(dashboards);
      var folderUids := folders.Keys;
      upserts := [];
      for i := 0 to |orgs|
        invariant upserts == DashboardCalls(orgs[..i], folderUids, managed, template, config.datasourceUid)
        invariant calls == old(calls) + if config.dryRun then [] else upserts
        invariant folders == old(folders)
        invariant logins == old(logins) && teams == old(teams) && members == old(members) && nextTeamId == old(nextTeamId)
      {
        var o := orgs[i];
        assert orgs[..i + 1][..i] == orgs[..i];
        if o.uuid !in folderUids {
          continue;
        }
        var payload := DashboardPayload(o, ManagedIn(managed, o.uuid), template, config.datasourceUid);
        upserts := upserts + [UpsertDashboard(payload)];
        if !config.dryRun {
          CreateOrUpdateDashboard(payload);
        }
      }
      assert orgs[..|orgs|] == orgs;
    }

    /** `create_or_update_dashboard`; what the backend then stores is not
        modelled. */
    method CreateOrUpdateDashboard(payload: Payload)
      modifies this
      ensures calls == old(calls) + [UpsertDashboard(payload)]
      ensures folders == old(folders)
      ensures logins == old(logins) && teams == old(teams) && members == old(members) && nextTeamId == old(nextTeamId)
    {
      calls := calls + [UpsertDashboard(payload)];
    }

    /** The first four steps of `run` (sync.py:79-82): `sync_users`, then
        `sync_organization_teams`, `sync_staff_team` and `sync_support_team`,
        which issue team calls only. When the organisation teams end early
        (`ok` false) the role teams are not reached. */
    method SyncUsersAndTeams(users: seq<User>, orgs: seq<Organisation>) returns (ok: bool)
      requires Valid()
      modifies this
      ensures Valid()
      ensures folders == old(folders)
      ensures ok <==> config.dryRun || FirstNewRepeat(orgs, old(teams).Keys) == |orgs|
      ensures config.dryRun ==> logins == old(logins) && teams == old(teams) && members == old(members) && calls == old(calls)
      ensures !config.dryRun ==> Usernames(users) <= logins
      ensures ok && !config.dryRun ==> RoleTeamsSynced(config, users, teams, members)
      ensures ok && !config.dryRun ==> OrgTeamsSynced(OrgTeamTargets(orgs), config, teams, members)
      ensures AppendsTeamCalls(old(calls) + (if config.dryRun then [] else UserCreations(users, old(logins))), calls)
    {
      var _ := SyncUsers(users);
      ghost var calls1 := calls;
      ok := SyncOrganizationTeams(orgs);
      if !ok {
        return;
      }
      ghost var calls2 := calls;
      assert orgs[..|orgs|] == orgs;
      SyncRoleTeams(users, OrgTeamTargets(orgs));
      AppendsTeamCallsTrans(calls1, calls2, calls);
    }

    /** `sync_staff_team` then `sync_support_team` (sync.py:81-82, 279-289):
        `_sync_teams` on the staff users, then on the support users. The
        teams of `targets`, synced before, keep their members unless one of
        them is a role team. */
    method SyncRoleTeams(users: seq<User>, ghost targets: map<string, set<string>>)
      requires Valid()
      requires !config.dryRun ==> TeamsAre(targets, teams, members)
      modifies this
      ensures Valid()
      ensures folders == old(folders) && old(logins) <= logins
      ensures config.dryRun ==> logins == old(logins) && teams == old(teams) && members == old(members) && calls == old(calls)
      ensures !config.dryRun ==> RoleTeamsSynced(config, users, teams, members)
      ensures !config.dryRun ==> OrgTeamsSynced(targets, config, teams, members)
      ensures AppendsTeamCalls(old(calls), calls)
    {
      var _, _ := SyncTeam(config.staffTeamName, StaffUsers(users));
      ghost var calls3, teams3, members3 := calls, teams, members;
      var _, _ := SyncTeam(config.supportTeamName, SupportUsers(users));
      AppendsTeamCallsTrans(old(calls), calls3, calls);
      if !config.dryRun {
        RoleTeamsStep(targets, config, Usernames(StaffUsers(users)), Usernames(SupportUsers(users)),
                      old(teams), old(members), teams3, members3, teams, members);
      }
    }

    /** `run` (sync.py:78-84): users, organisation teams, the staff team, the
        support team (`sync_staff_team` and `sync_support_team`,
        sync.py:279-289, are `_sync_teams` on the staff and support users),
        folders and dashboards, in that order, over the desired users built
        from `userItems` and the organisations built from `customers`. No
        user or team is ever deleted. In dry run only the folder renames of
        the folder loop are issued. Otherwise the calls are the user
        creations, then team calls, then the calls of the folder loop, the
        deletion of each orphaned folder and the dashboard upserts, in that
        order; every desired user has a login, the support team has exactly
        the support users, the staff team the staff users (unless both names
        are the same team), and every other organisation team the owners of
        the last organisation titled by it. When an organisation repeats a
        title that had no team before the run, `create_team` is refused and
        the run ends inside the organisation teams: `ok` is false. */
    method Run(userItems: seq<UserItem>, customers: seq<CustomerItem>, template: string) returns (ok: bool)
      requires Valid()
      modifies this
      ensures Valid()
      ensures |old(calls)| <= |calls| && calls[..|old(calls)|] == old(calls)
      ensures DeletesNothing(calls[|old(calls)|..])
      ensures ok <==> (config.dryRun
                    || FirstNewRepeat(WaldurOrganizations(customers), old(teams).Keys) == |WaldurOrganizations(customers)|)
      ensures folders == if ok then FolderOutcome(WaldurOrganizations(customers), old(folders), config.dryRun)
                         else old(folders)
      ensures config.dryRun ==> logins == old(logins) && teams == old(teams) && members == old(members)
      ensures config.dryRun ==> calls == old(calls) + FolderLoop(WaldurOrganizations(customers), old(folders), true).calls
      ensures config.dryRun ==> forall k :: |old(calls)| <= k < |calls| ==> calls[k].UpdateFolder?
      ensures !config.dryRun ==> Usernames(DesiredUsers(userItems)) <= logins
      ensures ok && !config.dryRun ==> RoleTeamsSynced(config, DesiredUsers(userItems), teams, members)
      ensures ok && !config.dryRun ==> OrgTeamsSynced(OrgTeamTargets(WaldurOrganizations(customers)), config, teams, members)
      ensures ok && !config.dryRun ==>
        RunPhases(calls[|old(calls)|..], UserCreations(DesiredUsers(userItems), old(logins)),
                  FolderLoop(WaldurOrganizations(customers), old(folders), false).calls,
                  Orphans(old(folders), WaldurOrganizations(customers)),
                  DashboardCalls(WaldurOrganizations(customers), folders.Keys, ManagedByFolder(dashboards),
                                 template, config.datasourceUid))
      ensures !ok ==> RunPhases(calls[|old(calls)|..], UserCreations(DesiredUsers(userItems), old(logins)), [], {}, [])
    {
      var users := WaldurUsers(userItems);
      var orgs := WaldurOrganizations(customers);
      ghost var calls0, logins0, folders0 := calls, logins, folders;
      ok := SyncUsersAndTeams(users, orgs);
      if !ok {
        AbortCalls(calls0, calls, users, logins0);
        return;
      }
      ghost var calls4 := calls;
      var deletions := SyncFolders(orgs);
      ghost var calls5 := calls;
      var upserts := SyncDashboards(orgs, template);
      RunCalls(calls0, calls4, calls5, calls, config.dryRun, users, logins0, orgs, folders0, deletions,
               upserts, folders.Keys, ManagedByFolder(dashboards), template, config.datasourceUid);
    }
  }

  /** `log` is `creations`, then team calls, then `folderCalls`, then the
      deletion of each folder of `orphans` once, then `upserts`. */
  ghost predicate RunPhases(log: seq<Call>, creations: seq<Call>, folderCalls: seq<Call>, orphans: set<string>,
                            upserts: seq<Call>) {
    exists teamCalls: seq<Call>, deletions: seq<Call> ::
      && (forall k :: 0 <= k < |teamCalls| ==> TeamCall(teamCalls[k]))
      && DeletionsOf(deletions, orphans)
      && log == creations + teamCalls + folderCalls + deletions + upserts
  }

  /** Helper: the calls of a `run` that ends in the organisation teams, from
      `c0`: user creations, then team calls up to `c2`. */
  lemma AbortCalls(c0: seq<Call>, c2: seq<Call>, users: seq<User>, observed: set<string>)
    requires AppendsTeamCalls(c0 + UserCreations(users, observed), c2)
    ensures |c0| <= |c2| && c2[..|c0|] == c0
    ensures DeletesNothing(c2[|c0|..])
    ensures RunPhases(c2[|c0|..], UserCreations(users, observed), [], {}, [])
  {
    var creations := UserCreations(users, observed);
    var c1 := c0 + creations;
    var teamCalls := c2[|c1|..];
    assert c2 == c1 + teamCalls;
    assert c2[|c0|..] == creations + teamCalls;
    assert c2[|c0|..] == creations + teamCalls + [] + [] + [];
    TeamCallsDeleteNothing(c1, c2);
    UserCreationsDeleteNothing(users, observed);
    DeletesNothingConcat(creations, teamCalls);
    RunPhasesWitness(c2[|c0|..], creations, teamCalls, [], [], {}, []);
  }

  /** Helper: `RunPhases` from its two hidden phases. */
  lemma RunPhasesWitness(log: seq<Call>, creations: seq<Call>, teamCalls: seq<Call>, folderCalls: seq<Call>,
                         deletions: seq<Call>, orphans: set<string>, upserts: seq<Call>)
    requires forall k :: 0 <= k < |teamCalls| ==> TeamCall(teamCalls[k])
    requires DeletionsOf(deletions, orphans)
    requires log == creations + teamCalls + folderCalls + deletions + upserts
    ensures RunPhases(log, creations, folderCalls, orphans, upserts)
  {
  }

  /** Helper: moving `x` from `todo` to `done` keeps their union and their
      disjointness. */
  lemma SetMoved<T>(done: set<T>, todo: set<T>, x: T)
    requires x in todo && done !! todo
    ensures (done + {x}) + (todo - {x}) == done + todo && (done + {x}) !! (todo - {x})
  {
  }

  /** Helper: one more call `x` after `c0 + prev`. */
  lemma CallAppended(c0: seq<Call>, prev: seq<Call>, x: Call, c: seq<Call>)
    requires c == c0 + prev + [x]
    ensures c == c0 + (prev + [x])
  {
  }

  /** Helper: adding `login` to team `id`, whose members are `before + done`,
      makes them `before + (done + {login})`. */
  lemma MemberAdded(m0: map<int, set<string>>, id: int, before: set<string>, done: set<string>, login: string,
                    m: map<int, set<string>>)
    requires m == m0[id := before + done][id := m0[id := before + done][id] + {login}]
    ensures m == m0[id := before + (done + {login})]
  {
    assert before + done + {login} == before + (done + {login});
  }

  /** Each team of `targets` exists and has exactly the members given. */
  ghost predicate TeamsAre(targets: map<string, set<string>>, teams: map<string, int>, members: map<int, set<string>>) {
    forall t :: t in targets ==> t in teams && teams[t] in members && members[teams[t]] == targets[t]
  }

  /** What `sync_organization_teams` has done once it has been through
      organisations whose team targets are `targets`, from teams `t0`,
      members `m0`, logins `l0` and calls `c0`. */
  ghost predicate OrgTeamsDone(targets: map<string, set<string>>, dryRun: bool,
      t0: map<string, int>, m0: map<int, set<string>>, l0: set<string>, c0: seq<Call>,
      t: map<string, int>, m: map<int, set<string>>, l: set<string>, c: seq<Call>)
  {
    && l0 <= l
    && (dryRun ==> t == t0 && m == m0 && l == l0 && c == c0)
    && (!dryRun ==> t.Keys == t0.Keys + targets.Keys)
    && (!dryRun ==> TeamsAre(targets, t, m))
    && (forall n :: n in t0 ==> n in t && t[n] == t0[n])
    && (forall n :: n in t0 && n !in targets ==> t0[n] in m0 && t[n] in m && m[t[n]] == m0[t0[n]])
    && AppendsTeamCalls(c0, c)
  }

  /** The team targets, the new titles and the owner logins of one more
      organisation. */
  lemma TargetsPrefix(orgs: seq<Organisation>, listed: set<string>, i: int)
    requires 0 <= i < |orgs|
    ensures OrgTeamTargets(orgs[..i + 1]) == OrgTeamTargets(orgs[..i])[Title(orgs[i]) := Usernames(orgs[i].owners)]
    ensures NewTitles(orgs[..i + 1], listed)
         == NewTitles(orgs[..i], listed) + (if Title(orgs[i]) in listed then [] else [Title(orgs[i])])
    ensures OwnerLogins(orgs[..i + 1]) == OwnerLogins(orgs[..i]) + Usernames(orgs[i].owners)
  {
    assert orgs[..i + 1][..i] == orgs[..i];
  }

  /** What `sync_organization_teams` has added to the logins (`l0` to `l`),
      the next team id (`n0` to `n`) and the calls (`c0` to `c`) once it has
      been through organisations whose owners' logins are `owners` and whose
      new titles are `newTitles`. */
  ghost predicate OrgTeamsCounted(newTitles: seq<string>, owners: set<string>, dryRun: bool,
      l0: set<string>, n0: int, c0: seq<Call>, l: set<string>, n: int, c: seq<Call>)
  {
    && (dryRun ==> n == n0)
    && (!dryRun ==> l == l0 + owners && n == n0 + |newTitles| && |c0| <= |c| && TeamCreations(c[|c0|..]) == newTitles)
  }

  /** Helper: before the loop of `sync_organization_teams` nothing is done. */
  lemma OrgTeamsStart(orgs: seq<Organisation>, listed: set<string>, dryRun: bool,
      t: map<string, int>, m: map<int, set<string>>, l: set<string>, n: int, c: seq<Call>)
    requires forall name :: name in t ==> t[name] in m
    ensures !dryRun ==> FirstNewRepeat(orgs[..0], listed) == 0
    ensures OrgTeamsDone(OrgTeamTargets(orgs[..0]), dryRun, t, m, l, c, t, m, l, c)
    ensures OrgTeamsCounted(NewTitles(orgs[..0], listed), OwnerLogins(orgs[..0]), dryRun, l, n, c, l, n, c)
  {
    assert orgs[..0] == [];
    AppendsTeamCallsExtend(c, []);
    assert c + [] == c;
    assert c[|c|..] == [];
  }

  /** Helper: what `sync_organization_teams` has done once it stops after
      the organisations before `k`, the first to repeat a new title (or all
      of them). */
  lemma OrgTeamsFinish(orgs: seq<Organisation>, listed: set<string>, k: int, dryRun: bool,
      t0: map<string, int>, m0: map<int, set<string>>, l0: set<string>, n0: int, c0: seq<Call>,
      t: map<string, int>, m: map<int, set<string>>, l: set<string>, n: int, c: seq<Call>)
    requires 0 <= k <= |orgs| && listed == t0.Keys
    requires !dryRun ==> FirstNewRepeat(orgs, listed) == k
    requires OrgTeamsDone(OrgTeamTargets(orgs[..k]), dryRun, t0, m0, l0, c0, t, m, l, c)
    requires OrgTeamsCounted(NewTitles(orgs[..k], listed), OwnerLogins(orgs[..k]), dryRun, l0, n0, c0, l, n, c)
    ensures dryRun ==> t == t0 && m == m0 && l == l0 && n == n0 && c == c0
    ensures !dryRun ==>
      var done := orgs[..FirstNewRepeat(orgs, listed)];
      && t.Keys == t0.Keys + Titles(done)
      && TeamsAre(OrgTeamTargets(done), t, m)
      && (forall name :: name in t0 && name !in OrgTeamTargets(done) ==> t[name] in m && m[t[name]] == m0[t0[name]])
      && l == l0 + OwnerLogins(done)
      && n == n0 + |NewTitles(done, listed)|
      && TeamCreations(c[|c0|..]) == NewTitles(done, listed)
    ensures l0 <= l && AppendsTeamCalls(c0, c)
    ensures forall name :: name in t0 ==> name in t && t[name] == t0[name]
  {
    OrgTeamTargetsKeys(orgs[..k]);
  }

  /** Helper: the state after one turn of `sync_organization_teams` outside
      dry run, from teams `t0`, members `m0`, logins `l0` and next id `n0`:
      the team is created when unlisted (up to `t1`, `m1`, `l1`, `n1`), then
      given the owners' logins `owners` as members. */
  lemma OrgTeamTurnState(title: string, owners: set<string>, listed: set<string>,
      t0: map<string, int>, m0: map<int, set<string>>, l0: set<string>, n0: int,
      t1: map<string, int>, m1: map<int, set<string>>, l1: set<string>, n1: int,
      t2: map<string, int>, m2: map<int, set<string>>, l2: set<string>, n2: int)
    requires listed <= t0.Keys
    requires title !in listed ==> title !in t0 && t1 == t0[title := n0] && m1 == m0[n0 := {}] && n1 == n0 + 1
    requires title in listed ==> t1 == t0 && m1 == m0 && n1 == n0
    requires l1 == l0 && title in t1 && t1[title] in m1 && m1[t1[title]] <= l1
    requires t2 == t1 && n2 == n1
    requires m2 == m1[t1[title] := owners] && l2 == l1 + NewLogins(m1[t1[title]], owners)
    ensures t2.Keys == t0.Keys + {title}
    ensures m2 == m0[t2[title] := owners]
    ensures l2 == l0 + owners
    ensures n2 == n0 + (if title in listed then 0 else 1)
  {
  }

  /** Helper: the calls of one turn of `sync_organization_teams`, from `c0`:
      the team creation, if any, up to `c1`, then membership calls `rs` and
      `adds`, which create no team. */
  lemma OrgTeamCallsCreate(c0: seq<Call>, c1: seq<Call>, c2: seq<Call>, t: string, created: bool,
                           rs: seq<Call>, adds: seq<Call>)
    requires c1 == c0 + (if created then [CreateTeam(t)] else [])
    requires c2 == c1 + [] + rs + adds
    requires TeamCreations(rs + adds) == []
    ensures |c0| <= |c2| && TeamCreations(c2[|c0|..]) == if created then [t] else []
  {
    var first := if created then [CreateTeam(t)] else [];
    assert c2[|c0|..] == first + (rs + adds);
    TeamCreationsAppend(first, rs + adds);
    assert [CreateTeam(t)][..0] == [];
  }

  /** Helper: one more organisation, with owners' logins `ownersHere`,
      which creates team `title` when `isNew`. */
  lemma CountedStep(newTitles: seq<string>, owners: set<string>, title: string, isNew: bool, ownersHere: set<string>,
      dryRun: bool, l0: set<string>, n0: int, c0: seq<Call>,
      la: set<string>, na: int, ca: seq<Call>, lb: set<string>, nb: int, cb: seq<Call>)
    requires OrgTeamsCounted(newTitles, owners, dryRun, l0, n0, c0, la, na, ca)
    requires AppendsTeamCalls(c0, ca) && AppendsTeamCalls(ca, cb)
    requires dryRun ==> nb == na
    requires !dryRun ==>
      && lb == la + ownersHere && nb == na + (if isNew then 1 else 0)
      && TeamCreations(cb[|ca|..]) == (if isNew then [title] else [])
    ensures OrgTeamsCounted(newTitles + (if isNew then [title] else []), owners + ownersHere, dryRun,
                            l0, n0, c0, lb, nb, cb)
  {
    if !dryRun {
      var extra := if isNew then [title] else [];
      CreationsStep(c0, ca, cb, newTitles, extra);
      assert |newTitles + extra| == |newTitles| + |extra|;
      assert lb == l0 + (owners + ownersHere);
    }
  }

  /** Helper: the teams created from `c0` to `cb` are those created up to
      `ca` followed by those created after. */
  lemma CreationsStep(c0: seq<Call>, ca: seq<Call>, cb: seq<Call>, before: seq<string>, after: seq<string>)
    requires |c0| <= |ca| <= |cb| && ca[..|c0|] == c0 && cb[..|ca|] == ca
    requires TeamCreations(ca[|c0|..]) == before && TeamCreations(cb[|ca|..]) == after
    ensures TeamCreations(cb[|c0|..]) == before + after
  {
    assert cb[|c0|..] == ca[|c0|..] + cb[|ca|..];
    TeamCreationsAppend(ca[|c0|..], cb[|ca|..]);
  }

  /** Helper: one more organisation, whose title is `title` and whose owners
      are `owners`. */
  lemma OrgTeamsStep(before: map<string, set<string>>, after: map<string, set<string>>,
      title: string, owners: set<string>, dryRun: bool,
      t0: map<string, int>, m0: map<int, set<string>>, l0: set<string>, c0: seq<Call>,
      ta: map<string, int>, ma: map<int, set<string>>, la: set<string>, ca: seq<Call>,
      tb: map<string, int>, mb: map<int, set<string>>, lb: set<string>, cb: seq<Call>)
    requires OrgTeamsDone(before, dryRun, t0, m0, l0, c0, ta, ma, la, ca)
    requires forall n :: n in tb ==> tb[n] in mb
    requires forall a, b :: a in tb && b in tb && a != b ==> tb[a] != tb[b]
    requires la <= lb
    requires dryRun ==> tb == ta && mb == ma && lb == la && cb == ca
    requires !dryRun ==> tb.Keys == ta.Keys + {title} && mb == ma[tb[title] := owners]
    requires forall n :: n in ta ==> n in tb && tb[n] == ta[n]
    requires AppendsTeamCalls(ca, cb)
    requires after == before[title := owners]
    ensures OrgTeamsDone(after, dryRun, t0, m0, l0, c0, tb, mb, lb, cb)
  {
    AppendsTeamCallsTrans(c0, ca, cb);
    if !dryRun {
      TargetsStep(before, title, owners, ta, ma, tb, mb);
    }
    OthersStep(before, title, owners, dryRun, t0, m0, ta, ma, tb, mb);
  }

  /** Helper: the teams no organisation names so far keep their members. */
  lemma OthersStep(before: map<string, set<string>>, title: string, owners: set<string>, dryRun: bool,
      t0: map<string, int>, m0: map<int, set<string>>,
      ta: map<string, int>, ma: map<int, set<string>>,
      tb: map<string, int>, mb: map<int, set<string>>)
    requires forall n :: n in t0 ==> n in ta && ta[n] == t0[n]
    requires forall n :: n in t0 && n !in before ==> t0[n] in m0 && ta[n] in ma && ma[ta[n]] == m0[t0[n]]
    requires forall a, b :: a in tb && b in tb && a != b ==> tb[a] != tb[b]
    requires dryRun ==> tb == ta && mb == ma
    requires !dryRun ==> title in tb && mb == ma[tb[title] := owners]
    requires forall n :: n in ta ==> n in tb && tb[n] == ta[n]
    ensures forall n :: n in t0 && n !in before[title := owners] ==> t0[n] in m0 && tb[n] in mb && mb[tb[n]] == m0[t0[n]]
  {
  }

  /** Helper: one organisation's team sync keeps the teams of the earlier
      organisations as they were, except its own. */
  lemma TargetsStep(before: map<string, set<string>>, title: string, owners: set<string>,
                    teams0: map<string, int>, members0: map<int, set<string>>,
                    teams1: map<string, int>, members1: map<int, set<string>>)
    requires TeamsAre(before, teams0, members0)
    requires forall n :: n in teams0 ==> n in teams1 && teams1[n] == teams0[n]
    requires title in teams1
    requires members1 == members0[teams1[title] := owners]
    requires forall a, b :: a in teams1 && b in teams1 && a != b ==> teams1[a] != teams1[b]
    ensures TeamsAre(before[title := owners], teams1, members1)
  {
  }

  /** Helper: the cleanup loop takes folder `u` out of `todo`. */
  lemma OrphanStep(orphans: set<string>, todo: set<string>, u: string, folders: map<string, string>)
    requires u in todo
    ensures u in orphans ==>
      && orphans - (todo - {u}) == (orphans - todo) + {u}
      && u !in orphans - todo
      && folders - ((orphans - todo) + {u}) == (folders - (orphans - todo)) - {u}
    ensures u !in orphans ==> orphans - (todo - {u}) == orphans - todo
  {
  }

  /** The staff and support teams have exactly the staff and the support
      users (the staff team only when it is not also the support team). */
  ghost predicate RoleTeamsSynced(config: Config, users: seq<User>, teams: map<string, int>, members: map<int, set<string>>) {
    && config.supportTeamName in teams && teams[config.supportTeamName] in members
    && members[teams[config.supportTeamName]] == Usernames(SupportUsers(users))
    && (config.staffTeamName != config.supportTeamName ==>
          && config.staffTeamName in teams && teams[config.staffTeamName] in members
          && members[teams[config.staffTeamName]] == Usernames(StaffUsers(users)))
  }

  /** Each organisation team of `targets` other than the staff and the
      support team has exactly its target members. */
  ghost predicate OrgTeamsSynced(targets: map<string, set<string>>, config: Config,
                                 teams: map<string, int>, members: map<int, set<string>>) {
    forall t :: t in targets && t != config.staffTeamName && t != config.supportTeamName ==>
      t in teams && teams[t] in members && members[teams[t]] == targets[t]
  }

  /** Helper: syncing the staff team (teams `t3`, members `m3`) and then the
      support team (`t4`, `m4`) after the organisation teams (`t2`, `m2`)
      leaves each of the three as synced last. */
  lemma RoleTeamsStep(targets: map<string, set<string>>, config: Config, staff: set<string>, support: set<string>,
      t2: map<string, int>, m2: map<int, set<string>>, t3: map<string, int>, m3: map<int, set<string>>,
      t4: map<string, int>, m4: map<int, set<string>>)
    requires TeamsAre(targets, t2, m2)
    requires forall n :: n in t2 ==> t2[n] in m2
    requires forall n :: n in t3 ==> t3[n] in m3
    requires config.staffTeamName in t3 && t3[config.staffTeamName] in m3 && m3[t3[config.staffTeamName]] == staff
    requires forall n :: n in t2 ==> n in t3 && t3[n] == t2[n]
    requires forall n :: n in t2 && n != config.staffTeamName ==> m3[t3[n]] == m2[t2[n]]
    requires config.supportTeamName in t4 && t4[config.supportTeamName] in m4 && m4[t4[config.supportTeamName]] == support
    requires forall n :: n in t3 ==> n in t4 && t4[n] == t3[n]
    requires forall n :: n in t4 ==> t4[n] in m4
    requires forall n :: n in t3 && n != config.supportTeamName ==> m4[t4[n]] == m3[t3[n]]
    ensures config.supportTeamName in t4 && m4[t4[config.supportTeamName]] == support
    ensures config.staffTeamName != config.supportTeamName ==>
      config.staffTeamName in t4 && t4[config.staffTeamName] in m4 && m4[t4[config.staffTeamName]] == staff
    ensures OrgTeamsSynced(targets, config, t4, m4)
  {
  }

  /** Helper: the calls of `run`, phase by phase, from `c0`: user creations
      and team calls up to `c4`, folder calls up to `c5` and dashboard
      upserts up to `c6`. */
  lemma RunCalls(c0: seq<Call>, c4: seq<Call>, c5: seq<Call>, c6: seq<Call>, dryRun: bool,
      users: seq<User>, observed: set<string>, orgs: seq<Organisation>, listed: map<string, string>,
      deletions: seq<Call>, upserts: seq<Call>, folderUids: set<string>, managed: map<string, DashboardHit>,
      template: string, datasourceUid: string)
    requires AppendsTeamCalls(c0 + (if dryRun then [] else UserCreations(users, observed)), c4)
    requires dryRun ==> c4 == c0
    requires DeletionsOf(deletions, Orphans(listed, orgs))
    requires c5 == c4 + FolderLoop(orgs, listed, dryRun).calls + if dryRun then [] else deletions
    requires upserts == DashboardCalls(orgs, folderUids, managed, template, datasourceUid)
    requires c6 == c5 + if dryRun then [] else upserts
    ensures |c0| <= |c6| && c6[..|c0|] == c0
    ensures DeletesNothing(c6[|c0|..])
    ensures dryRun ==> forall k :: |c0| <= k < |c6| ==> c6[k].UpdateFolder?
    ensures dryRun ==> c6 == c0 + FolderLoop(orgs, listed, true).calls
    ensures !dryRun ==> RunPhases(c6[|c0|..], UserCreations(users, observed), FolderLoop(orgs, listed, false).calls,
                                  Orphans(listed, orgs), upserts)
  {
    if dryRun {
      DryRunCalls(c0, c4, c5, c6, orgs, listed);
    } else {
      var c1 := c0 + UserCreations(users, observed);
      WetRunCalls(c0, c1, c4, c5, c6, UserCreations(users, observed), c4[|c1|..], FolderLoop(orgs, listed, false).calls,
                  deletions, upserts, Orphans(listed, orgs));
      UserCreationsDeleteNothing(users, observed);
      FolderLoopDeletesNothing(orgs, listed, false);
      DeletionsDeleteNothing(deletions, Orphans(listed, orgs));
      DashboardCallsDeleteNothing(orgs, folderUids, managed, template, datasourceUid);
      TeamCallsDeleteNothing(c1, c4);
      PhasesDeleteNothing5(UserCreations(users, observed), c4[|c1|..], FolderLoop(orgs, listed, false).calls,
                           deletions, upserts);
    }
  }

  /** Helper: the calls of `run` in dry run: the folder loop's only. */
  lemma DryRunCalls(c0: seq<Call>, c4: seq<Call>, c5: seq<Call>, c6: seq<Call>, orgs: seq<Organisation>,
                    listed: map<string, string>)
    requires c4 == c0 && c5 == c4 + FolderLoop(orgs, listed, true).calls + [] && c6 == c5 + []
    ensures |c0| <= |c6| && c6[..|c0|] == c0
    ensures DeletesNothing(c6[|c0|..])
    ensures forall k :: |c0| <= k < |c6| ==> c6[k].UpdateFolder?
    ensures c6 == c0 + FolderLoop(orgs, listed, true).calls
  {
    assert c6 == c0 + FolderLoop(orgs, listed, true).calls;
    assert c6[|c0|..] == FolderLoop(orgs, listed, true).calls;
    FolderLoopDeletesNothing(orgs, listed, true);
    DryRunCallsAreRenames(c0, c6, orgs, listed);
  }

  /** Helper: the calls of `run` outside dry run, phase by phase. */
  lemma WetRunCalls(c0: seq<Call>, c1: seq<Call>, c4: seq<Call>, c5: seq<Call>, c6: seq<Call>,
                    creations: seq<Call>, teamCalls: seq<Call>, folderCalls: seq<Call>, deletions: seq<Call>,
                    upserts: seq<Call>, orphans: set<string>)
    requires c1 == c0 + creations && AppendsTeamCalls(c1, c4) && teamCalls == c4[|c1|..]
    requires c5 == c4 + folderCalls + deletions && c6 == c5 + upserts
    requires DeletionsOf(deletions, orphans)
    ensures |c0| <= |c6| && c6[..|c0|] == c0
    ensures c6[|c0|..] == creations + teamCalls + folderCalls + deletions + upserts
    ensures RunPhases(c6[|c0|..], creations, folderCalls, orphans, upserts)
  {
    assert c4 == c1 + teamCalls;
    assert c6 == c0 + (creations + teamCalls + folderCalls + deletions + upserts);
    RunPhasesWitness(c6[|c0|..], creations, teamCalls, folderCalls, deletions, orphans, upserts);
  }

  lemma PhasesDeleteNothing5(a: seq<Call>, b: seq<Call>, f: seq<Call>, d: seq<Call>, u: seq<Call>)
    requires DeletesNothing(a) && DeletesNothing(b) && DeletesNothing(f) && DeletesNothing(d) && DeletesNothing(u)
    ensures DeletesNothing(a + b + f + d + u)
  {
    DeletesNothingConcat(a, b);
    DeletesNothingConcat(a + b, f);
    DeletesNothingConcat(a + b + f, d);
    DeletesNothingConcat(a + b + f + d, u);
  }

  lemma DryRunCallsAreRenames(c0: seq<Call>, c6: seq<Call>, orgs: seq<Organisation>, listed: map<string, string>)
    requires |c0| <= |c6| && c6[|c0|..] == FolderLoop(orgs, listed, true).calls
    ensures forall k :: |c0| <= k < |c6| ==> c6[k].UpdateFolder?
  {
    forall k | |c0| <= k < |c6| ensures c6[k].UpdateFolder? {
      assert c6[k] == c6[|c0|..][k - |c0|];
      DryRunOnlyRenames(orgs, listed, k - |c0|);
    }
  }
}
