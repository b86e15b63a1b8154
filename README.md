# waldur-grafana-sync, modelled in Dafny

waldur-grafana-sync reconciles a Grafana instance with the organisations and
users of a Waldur deployment. One run of `Sync.run` makes six calls in a fixed
order (sync.py:79-84):

1. `sync_users`: create the missing Grafana users;
2. `sync_organization_teams`: make one team per organisation title, holding
   the organisation's owners;
3. `sync_staff_team`: make the staff team hold the staff users;
4. `sync_support_team`: make the support team hold the support users;
5. `sync_folders`: make one folder per organisation, renaming and creating as
   needed. Inside the same loop, each organisation's team is granted access to
   its folder. Afterwards, orphaned folders are deleted;
6. `sync_dashboards`: place one dashboard per organisation folder, rendered
   from a template.

When `DRY_RUN` is on, every mutating backend call is skipped except
`update_folder` (sync.py:185), which has no `DRY_RUN` guard. So a dry run still
renames folders.

Every backend call can fail, and nothing in `run` catches the error. The model
keeps one such failure that the code itself brings about. The team listing of
`sync_organization_teams` is taken once (sync.py:292). Take two organisations
whose shared title is missing from that listing: `create_team` is then called
twice with the same name (sync.py:300-302). Grafana refuses the second call,
so the run ends there. The model returns `ok == false` at that point, and no
later phase runs.

The model has these modules:

- `Settings` (settings.dfy): the configuration read from the environment.
- `Desired` (desired.dfy): the desired state built from the Waldur listings.
  It covers the qualifying users, the staff and support users, the
  organisations keyed by UUID, and the expected title "name (abbreviation)".
- `Uuid` (uuid.dfy): `is_uuid_like`. This is when Python's `uuid.UUID(str)`
  accepts a string, written out over ASCII.
- `Text` (text.dfy): the Python string operations the core uses.
  These are `str.replace` (leftmost, non-overlapping), `strip`, and
  `split(',')` / `','.join`.
- `Plan` (plan.dfy): for each reconciler, the backend calls it issues. Each is
  a function of the desired state and of what the backend listed, with
  lemmas saying what those calls are.
- `Reconcile` (sync.dfy): class `Sync`. Its fields are the backend's state:
  - users;
  - teams and their members;
  - the next team id;
  - folders;
  - managed dashboards;
  - a log of the mutating calls issued.

  Each reconciler is a method with loops, as in the source. It is proved to
  leave the state and the call log that the `Plan` functions describe.

The Waldur listings and the template text are inputs of `Run`. The Grafana state is
the object's fields at construction.

## Model

| member | source | states |
|---|---|---|
| Settings.LoadConfig | waldur-grafana-sync/sync.py:22-33 | The settings read from the environment: each optional variable or its default, the protected lists split at commas, and the dry-run flag. A missing DATASOURCE_UID gives None. ProtectedListsRoundTrip and DefaultConfig state its properties. |
| Settings.DryRunEnabled | waldur-grafana-sync/sync.py:33 | The DRY_RUN test. DryRunOnlyFourSpellings states exactly when it holds. |
| Settings.DefaultConfig | waldur-grafana-sync/sync.py:22-33 | With no optional variable set, the teams are "staff" and "support" and the protected users are "admin" plus the backend's account. The protected teams are "Development" and "Management", and dry run is on. |
| Settings.ProtectedListsRoundTrip | waldur-grafana-sync/sync.py:27-30 | Each protected list, joined with commas, gives back the variable's text (or its default). |
| Settings.DryRunOnlyFourSpellings | waldur-grafana-sync/sync.py:33 | Dry run is on exactly when DRY_RUN is unset or is one of TRUE, True, true, yes. Every other value turns it off. |
| Desired.OwnedOrganisations | waldur-grafana-sync/sync.py:144-152 | At most one organisation per permission. Empty exactly when no permission has role owner. An organisation is in the result iff some owner permission builds it. |
| Desired.DesiredUsers | waldur-grafana-sync/sync.py:143-165 | The desired users: the qualifying listed users, in listing order. DesiredUsersExactly states which users these are, and WaldurUsers is proved to compute it. |
| Desired.WaldurUsers | waldur-grafana-sync/sync.py:126-166 | The loop returns exactly the desired users: the qualifying listed users, in listing order. |
| Desired.QualifiesExactly | waldur-grafana-sync/sync.py:153-154 | A listed user is kept iff it is staff, support, or holds a permission with role owner. |
| Desired.DesiredUsersExactly | waldur-grafana-sync/sync.py:143-165 | A user is desired iff it is built from some qualifying listed item. |
| Desired.StaffUsers | waldur-grafana-sync/sync.py:86-88 | A user is in the result iff it is desired and staff. |
| Desired.SupportUsers | waldur-grafana-sync/sync.py:90-92 | A user is in the result iff it is desired and support. |
| Desired.IndexOfUuid | waldur-grafana-sync/sync.py:110-124 | Finds the position holding a UUID, or -1 when no organisation has it. |
| Desired.Put | waldur-grafana-sync/sync.py:110-124 | Storing under a dict key keeps the UUIDs unique and adds the new UUID. It keeps every other organisation and replaces the one with the same UUID. |
| Desired.WaldurOrganizations | waldur-grafana-sync/sync.py:94-124 | The UUIDs are unique and are exactly the listed customers' UUIDs. Each organisation is built from a listed customer. |
| Desired.LastListedWins | waldur-grafana-sync/sync.py:110-124 | The last record listed under a UUID is the organisation kept for it. |
| Desired.OrganisationsInListingOrder | waldur-grafana-sync/sync.py:110-124 | Organisations come in the order their UUIDs were first listed, as in dict insertion order. |
| Desired.Title | waldur-grafana-sync/sync.py:175-178 | The expected folder and team title: the name, followed by " (abbreviation)" when the abbreviation is non-empty. TitleExample, TitlesCanCollide and TitleDeterminesParts state its properties. |
| Desired.TitleExample | waldur-grafana-sync/sync.py:175-178 | "Acme" with abbreviation "ACM" gets the title "Acme (ACM)". |
| Desired.TitlesCanCollide | waldur-grafana-sync/sync.py:175-178 | Two organisations with different names can share a title. |
| Desired.TitleDeterminesParts | waldur-grafana-sync/sync.py:295-298 | When both abbreviations are non-empty and contain no '(', equal titles mean equal names and abbreviations. |
| Uuid.IsUuidLike | waldur-grafana-sync/sync.py:57-66 | `is_uuid_like`: `uuid.UUID(val)` accepts the value. UuidLikeIffParses and the lemmas below state when it holds. |
| Uuid.UuidLikeIffParses | waldur-grafana-sync/sync.py:57-66 | A value is UUID-like iff its hex part, with the prefixes, braces and hyphens removed, has 32 characters and parses as a base-16 integer. |
| Uuid.CanonicalIsUuidLike | waldur-grafana-sync/sync.py:57-66 | 32 hex digits are UUID-like, and form their own hex part. |
| Uuid.HyphenatedIsUuidLike | waldur-grafana-sync/sync.py:57-66 | The hyphenated 8-4-4-4-12 form is UUID-like, and its hex part is the digits without the hyphens. |
| Uuid.ShortIsNotUuidLike | waldur-grafana-sync/sync.py:57-66 | A value shorter than 32 characters is never UUID-like. |
| Uuid.NeverNegative | waldur-grafana-sync/sync.py:57-66 | A hex part that parses never carries a minus sign, so the range check of `uuid.UUID` cannot fail. |
| Uuid.UuidLikeAlphabet | waldur-grafana-sync/sync.py:57-66 | The hex part of a UUID-like value uses only hex digits, whitespace, sign, 'x'/'X' and '_'. |
| Uuid.UuidLikeWhenPlainDigits | waldur-grafana-sync/sync.py:57-66 | A hex part of plain hex digits is UUID-like iff it has 32 of them. |
| Text.ReplaceAll | waldur-grafana-sync/sync.py:330-332 | `str.replace`: every non-overlapping occurrence, scanned from the left, is replaced. ReplaceAbsent and ReplaceFirst state its properties. |
| Text.ReplaceAbsent | waldur-grafana-sync/sync.py:330-332 | `str.replace` leaves a string that does not contain the pattern unchanged. |
| Text.ReplaceFirst | waldur-grafana-sync/sync.py:330-332 | Replacing acts on the leftmost occurrence first and then goes on after it. |
| Text.SplitComma | waldur-grafana-sync/sync.py:27-30 | `split(',')`: at least one piece, and no piece contains a comma. JoinSplit and SplitJoin relate it to `','.join`. |
| Text.JoinSplit | waldur-grafana-sync/sync.py:27-30 | Splitting at commas and joining with commas gives back the text. |
| Text.SplitJoin | waldur-grafana-sync/sync.py:27-30 | Names without commas, joined and split again, give back the names. |
| Text.StripKeepsAbsent | waldur-grafana-sync/sync.py:57-66 | `strip` adds no character: a character absent from a string is absent once the string is stripped. |
| Plan.UserCreations | waldur-grafana-sync/sync.py:225-234 | The `create_user` calls of `sync_users` outside dry run. UserCreationsExactly and the lemmas below state which calls these are. |
| Plan.UserCreationsExactly | waldur-grafana-sync/sync.py:225-237 | Every user creation issued is for a desired user missing from the backend, with that user's login, email and name, and each such user gets one. |
| Plan.OneCreationPerMissingUser | waldur-grafana-sync/sync.py:225-237 | With unique usernames, a missing login is created exactly once and any other login never. |
| Plan.UserCreationsIdempotent | waldur-grafana-sync/sync.py:225-237 | When the backend already has every desired login, a second run creates no user. |
| Plan.UserCreationsMonotone | waldur-grafana-sync/sync.py:225-237 | When nothing is created against some observed logins, nothing is created against more logins either. |
| Plan.UserIndex | waldur-grafana-sync/sync.py:254 | The index by username covers exactly the desired usernames. Each entry is a desired user with that username. |
| Plan.StaleLogins | waldur-grafana-sync/sync.py:258 | `stale_usernames`: the members that are not desired. MembershipDiff states its properties. |
| Plan.NewLogins | waldur-grafana-sync/sync.py:257 | `new_usernames`: the desired usernames that are not members. MembershipDiff states its properties. |
| Plan.MembershipDiff | waldur-grafana-sync/sync.py:254-261 | The stale and the new logins are disjoint. Applying both to the observed members gives the desired ones. Both are empty iff the team is already as desired. |
| Plan.MembershipDiffAsWritten | waldur-grafana-sync/sync.py:260-261 | The two set comprehensions as written. They raise for a non-empty set of usernames, which the model gives as None. MembershipDiffAsWrittenRaises states the consequence. |
| Plan.MembershipDiffAsWrittenRaises | waldur-grafana-sync/sync.py:260-261 | As written, the membership sync gets past these lines only for a team already as desired. Adding "alice" to an empty team raises. |
| Plan.TeamCreationsAppend | waldur-grafana-sync/sync.py:300-302 | The teams created by two stretches of calls are those of the first, then those of the second. |
| Plan.OrgTeamTargets | waldur-grafana-sync/sync.py:294-305 | The members each organisation team is given, by title: the owners' usernames of the last organisation with that title. OrgTeamTargetsKeys and OrgTeamTargetsLastWins state its properties. |
| Plan.OrgTeamTargetsKeys | waldur-grafana-sync/sync.py:294-305 | The organisation teams are named by exactly the organisations' titles. |
| Plan.OrgTeamTargetsLastWins | waldur-grafana-sync/sync.py:294-305 | When several organisations share a title, the last one's owners form the team. A run reaches that only for a title whose team existed at the start (CompletedRepeatsWereListed). |
| Plan.FirstNewRepeat | waldur-grafana-sync/sync.py:292-302 | Where `sync_organization_teams` stops: the first organisation whose title is missing from the team listing but was already created in this loop. It is the number of organisations when there is none. FirstNewRepeatSpec states this. |
| Plan.FirstNewRepeatSpec | waldur-grafana-sync/sync.py:292-302 | No organisation before `FirstNewRepeat` repeats a new title, and the one at `FirstNewRepeat` does, unless it is past the end. |
| Plan.CompletedRepeatsWereListed | waldur-grafana-sync/sync.py:292-305 | When the loop gets through every organisation, any title shared by two of them already had a team in the listing. |
| Plan.NewTitles | waldur-grafana-sync/sync.py:300-302 | The titles `sync_organization_teams` creates teams for, in order. NewTitlesExactly and NewTitlesDistinct state its properties. |
| Plan.NewTitlesExactly | waldur-grafana-sync/sync.py:300-302 | A title is created iff it is some organisation's title and is missing from the listing. |
| Plan.NewTitlesDistinct | waldur-grafana-sync/sync.py:300-302 | When no organisation repeats a new title, no title is created twice. |
| Plan.OwnerLogins | waldur-grafana-sync/sync.py:294-305 | The usernames of the owners of the organisations. OwnerLoginsExactly states this. |
| Plan.OwnerLoginsExactly | waldur-grafana-sync/sync.py:294-305 | A login is an owner login iff some organisation has an owner with that username. |
| Plan.FolderStep | waldur-grafana-sync/sync.py:175-197 | One organisation of the folder loop: the titles seen, the folders and the calls after it. FolderLoopCalls and the other FolderLoop lemmas state its effect. |
| Plan.FolderLoop | waldur-grafana-sync/sync.py:173-197 | The whole folder loop, over the organisations in order. The FolderLoop lemmas below state its outcome. |
| Plan.FolderLoopTitles | waldur-grafana-sync/sync.py:173-194 | After the folder loop, the titles seen are the listed titles plus those of the organisations without a listed folder. |
| Plan.FolderLoopFolders | waldur-grafana-sync/sync.py:174-194 | After the loop, a uid has a folder iff it was listed or, outside dry run, belongs to an organisation that gets a new folder. |
| Plan.FolderLoopKeys | waldur-grafana-sync/sync.py:174-194 | The loop only touches listed uids and organisation uids. |
| Plan.FolderLoopKeepsOthers | waldur-grafana-sync/sync.py:174-194 | A listed folder of no organisation keeps its title through the loop. |
| Plan.FolderLoopTitlesFolders | waldur-grafana-sync/sync.py:175-194 | Every organisation that has a folder after the loop has it under its expected title. |
| Plan.FolderLoopCalls | waldur-grafana-sync/sync.py:174-197 | A call is issued by the loop iff some organisation accounts for it. A listed folder with the wrong title gets a rename. Outside dry run, a new one is created and every organisation not skipped gets a permission grant. |
| Plan.DryRunOnlyRenames | waldur-grafana-sync/sync.py:185 | In dry run the folder loop issues only renames. |
| Plan.SkippedOrganisationGetsNothing | waldur-grafana-sync/sync.py:187-189 | An unlisted organisation whose title is taken gets no folder, creation or permission grant. |
| Plan.CreatedTitlesDistinct | waldur-grafana-sync/sync.py:187-194 | Two new folders never share a title, and a new folder never repeats a listed title. |
| Plan.Orphans | waldur-grafana-sync/sync.py:200-201 | The folders the cleanup loop deletes: listed ones whose uid is UUID-like and belongs to no organisation. ShortUidFolderKept and FolderOutcomeExactly state what that leaves. |
| Plan.FolderOutcome | waldur-grafana-sync/sync.py:168-206 | The folders once `sync_folders` is done. FolderOutcomeExactly states which folders these are. |
| Plan.FolderOutcomeExactly | waldur-grafana-sync/sync.py:168-206 | A listed folder survives unless, outside dry run, its uid is UUID-like and belongs to no organisation. Outside dry run, each organisation that gets a new folder has one. Every organisation folder has its expected title. |
| Plan.ShortUidFolderKept | waldur-grafana-sync/sync.py:199-201 | A listed folder whose uid is shorter than 32 characters is never deleted. |
| Plan.SecondRunRenamesNothing | waldur-grafana-sync/sync.py:179-185 | Running the folder loop again on what a real run left renames no folder. |
| Plan.Render | waldur-grafana-sync/sync.py:329-333 | An organisation's dashboard text: the customer-name placeholder replaced, then the datasource placeholder. The Render lemmas state its properties. |
| Plan.RenderPlainTemplate | waldur-grafana-sync/sync.py:329-333 | A template without placeholders is used as it is. |
| Plan.RenderName | waldur-grafana-sync/sync.py:329-333 | Around a single customer-name placeholder, with no '$' anywhere else, the organisation name takes the placeholder's place. |
| Plan.RenderRewritesName | waldur-grafana-sync/sync.py:329-333 | The substitutions run in sequence, so a datasource placeholder inside the organisation name is replaced too. |
| Plan.ManagedByFolder | waldur-grafana-sync/sync.py:317-322 | The map is keyed by exactly the folder uids of the hits that have one. Each entry is a hit in that folder. |
| Plan.ManagedLastWins | waldur-grafana-sync/sync.py:317-322 | Of the dashboards in one folder, the last listed is the one kept. |
| Plan.DashboardPayload | waldur-grafana-sync/sync.py:334-347 | The upsert payload for one organisation. DashboardCallsSound and VersionBumpExample state what it carries. |
| Plan.DashboardCalls | waldur-grafana-sync/sync.py:325-350 | The upserts of `sync_dashboards` outside dry run. DashboardCallsSound and DashboardCallsComplete state which upserts these are. |
| Plan.DashboardCallsSound | waldur-grafana-sync/sync.py:325-350 | Every dashboard call is an upsert for an organisation that has a folder, with its rendered template. When a managed dashboard exists there, the upsert takes its uid and the next version and overwrites. |
| Plan.DashboardCallsComplete | waldur-grafana-sync/sync.py:325-350 | Every organisation with a folder gets its upsert. |
| Plan.VersionBumpExample | waldur-grafana-sync/sync.py:342-346 | A dashboard at version 3 is replaced at version 4 with its own uid. |
| Plan.UserCreationsDeleteNothing | waldur-grafana-sync/sync.py:225-237 | Creating users deletes no user and no team. |
| Plan.TeamCallsDeleteNothing | waldur-grafana-sync/sync.py:239-277 | Team synchronisation only appends calls, and none of them deletes a user or a team. |
| Plan.FolderLoopDeletesNothing | waldur-grafana-sync/sync.py:174-197 | The folder loop deletes no user and no team. |
| Plan.DashboardCallsDeleteNothing | waldur-grafana-sync/sync.py:325-350 | The dashboard phase deletes no user and no team. |
| Reconcile.Sync.AddUser | waldur-grafana-sync/backend.py:73-80 | `create_user`: the login is added and the creation is logged. Nothing else changes. |
| Reconcile.Sync.SyncUsers | waldur-grafana-sync/sync.py:212-237 | The creations are the planned user creations. Outside dry run, the backend then has every desired login and the log gains those creations. In dry run nothing changes. |
| Reconcile.Sync.AddTeam | waldur-grafana-sync/backend.py:36-37 | `create_team`: a new name gets an empty team under a fresh id, and the creation is logged. A taken name is refused (`ok` false) and nothing changes. |
| Reconcile.Sync.FindOrCreateTeam | waldur-grafana-sync/sync.py:240-250 | The team is found, or created outside dry run. Only in dry run is a missing team left missing. |
| Reconcile.Sync.RemoveMember | waldur-grafana-sync/backend.py:45-46 | `remove_team_member`: the login leaves that team only. |
| Reconcile.Sync.CreateTeamMember | waldur-grafana-sync/backend.py:57-65 | `create_team_member`: the login exists on the backend afterwards and joins that team only. |
| Reconcile.Sync.RemoveMembers | waldur-grafana-sync/sync.py:263-268 | Each stale login is removed exactly once, and the team loses exactly those logins; dry run changes nothing. |
| Reconcile.Sync.AddMembers | waldur-grafana-sync/sync.py:270-277 | Each new login is added exactly once with its user's email and name, and the team gains exactly those logins; dry run changes nothing. |
| Reconcile.Sync.SyncMembers | waldur-grafana-sync/sync.py:252-277 | Removes exactly the stale logins and adds exactly the new ones. Outside dry run, the team's members become exactly the desired usernames. |
| Reconcile.Sync.SyncTeam | waldur-grafana-sync/sync.py:239-277 | The removals and additions are the planned membership differences. Outside dry run, the team is created if missing and ends with exactly the desired usernames, all of them backend users. In dry run nothing changes. Other teams keep their ids and members, and only team calls are appended. |
| Reconcile.Sync.CreateOrgTeam | waldur-grafana-sync/sync.py:300-303 | Outside dry run, a title missing from the listing gets one `create_team`. The call is refused (`ok` false, nothing changes) iff an earlier turn already created that title. |
| Reconcile.Sync.SyncOrganizationTeam | waldur-grafana-sync/sync.py:295-305 | One organisation. It fails iff, outside dry run, its title is missing from the listing but already has a team; then nothing changes. Otherwise, outside dry run, its team holds exactly its owners' usernames and the owners become logins. A title missing from the listing gets exactly one team creation, and the next id moves by one. A listed title gets none. |
| Reconcile.Sync.SyncOrganizationTeamsTurn | waldur-grafana-sync/sync.py:294-305 | One turn of the loop. Either the organisations up to this one are through, or this one is the first to repeat a new title and nothing changes. |
| Reconcile.Sync.SyncOrganizationTeams | waldur-grafana-sync/sync.py:291-305 | Succeeds iff it is dry run or no organisation repeats a new title. Outside dry run, take the organisations before the first repeat. Their titles are added to the teams, and each such team holds its target owners. Teams named by no title keep their members. The logins gain exactly those owners' usernames. One `create_team` is issued per title missing from the listing, in order, and the next id moves by that count. Dry run changes nothing. |
| Reconcile.Sync.SyncRoleTeams | waldur-grafana-sync/sync.py:279-289 | Outside dry run, the staff and support teams hold exactly the staff and support usernames. The organisation teams synced before keep their members unless one of them is a role team. Dry run changes nothing. |
| Reconcile.Sync.SyncUsersAndTeams | waldur-grafana-sync/sync.py:79-82 | The first four calls of `run`. The log gains the user creations, then team calls only. Outside dry run every desired user exists. When no organisation repeats a new title, the role teams and the organisation teams are as desired; otherwise it fails before the role teams. |
| Reconcile.Sync.RenameFolder | waldur-grafana-sync/sync.py:185 | `update_folder`: the folder gets the title and the rename is logged. |
| Reconcile.Sync.AddFolder | waldur-grafana-sync/sync.py:193 | `create_folder`: a folder with that uid and title exists, and the creation is logged. |
| Reconcile.Sync.GrantFolderAccess | waldur-grafana-sync/sync.py:196-197 | `set_folder_permissions`: only the grant is logged. |
| Reconcile.Sync.RemoveFolder | waldur-grafana-sync/sync.py:205-206 | `delete_folder`: the folder is gone and the deletion is logged. |
| Reconcile.Sync.SyncFolder | waldur-grafana-sync/sync.py:175-197 | One organisation's turn: the titles, folders and calls become those of one step of the planned folder loop. |
| Reconcile.Sync.RemoveOrphans | waldur-grafana-sync/sync.py:199-206 | Each orphan folder (a UUID-like listed uid of no organisation) is deleted exactly once, outside dry run, and nothing else is. |
| Reconcile.Sync.SyncFolders | waldur-grafana-sync/sync.py:168-206 | The folders become the planned folder outcome. The log gains the planned loop calls, then, outside dry run, one deletion per orphan. Users and teams are unchanged. |
| Reconcile.Sync.CreateOrUpdateDashboard | waldur-grafana-sync/sync.py:338-350 | `create_or_update_dashboard`: the upsert is logged. |
| Reconcile.Sync.SyncDashboards | waldur-grafana-sync/sync.py:315-350 | The upserts are the planned dashboard calls for the folders as they then are. They are logged outside dry run, and nothing else changes. |
| Reconcile.RunPhases | waldur-grafana-sync/sync.py:79-84 | The order of a run's calls: the user creations, then team calls only, then the folder-loop calls, then one deletion per orphan folder, then the dashboard upserts. |
| Reconcile.Sync.Run | waldur-grafana-sync/sync.py:78-84 | See the list below. |

What `Reconcile.Sync.Run` guarantees:

- No run deletes a user or a team, and calls are only appended to the log.
- It fails (`ok` false) iff, outside dry run, some organisation repeats a title
  that had no team at the start. Then the log holds the user creations and then
  team calls only, and the folders are untouched.
- When it succeeds, the folders end as planned.
- In dry run, users and teams are untouched. The calls issued are exactly the
  renames of the folder loop.
- Outside dry run, every desired user exists.
- Outside dry run, on success, the staff and support teams hold exactly the
  staff and support usernames, and each organisation team holds its target
  owners.
- Outside dry run, on success, the new calls are, in order:
  - the planned user creations;
  - team calls only;
  - the calls of the planned folder loop;
  - one deletion per orphan folder;
  - the planned dashboard upserts for the folders as they then are.

## Left out

- Backend internals (backend.py): the HTTP client, its URLs and its JSON.
  The backend is the class's fields plus the log of mutating calls.
- Backend failures: every backend call is assumed to succeed, except the one
  `create_team` refusal described above. In the source, any refused call raises
  out of `run`. One example is `create_user` for a login or email already taken
  (backend.py:73-80).
- Backend folder and dashboard methods: `list_folders`, `update_folder`,
  `create_folder`, `set_folder_permissions`, `delete_folder`,
  `search_dashboards` and `create_or_update_dashboard` are not defined in
  backend.py. They are modelled as the Grafana operations their names
  describe.
- Password generation: `create_user`'s random password (backend.py:82-84)
  is randomness and is left out.
- main.py: not part of this model. It is an entry point, and it calls
  `sync_staff_teams`, which `Sync` does not define (main.py:21).
- Waldur registry client: the client, its pagination and its query filters
  (`REGISTRATION_METHOD`, `is_active`, `archived`) are left out. The listings
  arrive as parameters, already filtered.
- Environment reading, logging and `print` are left out. The environment is a
  map given to `LoadConfig`. The backend's own account name is a parameter.
- Other required variables: WALDUR_API_URL and WALDUR_API_TOKEN (sync.py:19-20)
  and BACKEND_API_URL, BACKEND_API_USER and BACKEND_API_PASSWORD
  (backend.py:10-12) are also required at import. They configure the two
  clients, which are left out, so `LoadConfig` does not read them: it gives
  None only for a missing DATASOURCE_UID.
- `member_of` (sync.py:208-210) is called by `sync_users` at sync.py:219 only to
  decide whether to log a backend user. The logging is left out, so it is too,
  and so is `ALL_SPECIAL_TEAMS` (sync.py:32), which only feeds that decision and
  the log line at sync.py:309.
- `sync_users` (sync.py:212-237) only logs the backend users that Waldur does not know.
  It deletes nothing, and the model follows that: unmatched users stay.
- The team cleanup after `sync_organization_teams` (sync.py:307-313) is
  commented out in the source and is not modelled.
- `list_teams(name)` (sync.py:240 and sync.py:250) is a name search, and
  sync.py:250 takes its first hit. It is modelled as the team whose name is
  exactly `name`.
- Reconcile.Sync.CreateTeamMember: the backend looks the user up by email
  (backend.py:57-65). The model uses the login.
- Reconcile.Sync.CreateOrUpdateDashboard: what Grafana stores for an
  upsert (uids, versions) is not modelled. Only the call is logged.
- Reconcile.Sync.GrantFolderAccess: folder permissions are not part of the
  modelled state. Only the call is logged.
- Template file: `dashboard_template` (sync.py:352-355) reads a file and
  `json.loads` parses the rendered text. Both are left out. The template is a
  string parameter, and the rendered text stands for the parsed dashboard.
- Uuid.IsUuidLike: the model covers ASCII input only. Python's `int()` also accepts
  Unicode digits and whitespace, which are not modelled.
- Dry run renames folders: `update_folder` (sync.py:185) and
  `folder_names.add` (sync.py:194) are not guarded by DRY_RUN. The model
  follows the code, so a dry run can rename folders. Every other mutating call
  in the source sits under `if not DRY_RUN`, so this one looks unintended. It
  is not listed as a finding, because the intent cannot be read from the code
  alone.

## Findings

| source | as written | input that shows it | evidently intended | confidence | as-written member | corrected member |
|---|---|---|---|---|---|---|
| waldur-grafana-sync/sync.py:260-261 | `new_users` / `stale_users` build Python sets of `User` dataclass instances and of dicts. Neither is hashable, so each raises `TypeError` as soon as it is non-empty. | A team with no members whose desired members are {"alice"} | Compute the users to add and the members to remove by username, then add and remove them | not executed | Plan.MembershipDiffAsWrittenRaises | Plan.MembershipDiff |
