/** The configuration the reconciliation reads once from its environment
    (waldur-grafana-sync/sync.py:22-33).  The environment is a parameter; a
    missing DATASOURCE_UID is `None` (Python's KeyError at import).  The other
    required variables configure the two API clients, which are not modelled. */
module Settings {
  import opened Wrappers
  import opened Text

  datatype Config = Config(
    staffTeamName: string,
    supportTeamName: string,
    datasourceUid: string,
    protectedUsernames: seq<string>,
    protectedTeams: seq<string>,
    dryRun: bool)

  /** `os.environ.get(key, default)`. */
  function Get(env: map<string, string>, key: string, default: string): string {
    if key in env then env[key] else default
  }

  /** The DRY_RUN test: on unless the variable is set to something other than
      one of four spellings of "yes". */
  predicate DryRunEnabled(env: map<string, string>) {
    Get(env, "DRY_RUN", "True") in ["TRUE", "True", "true", "yes"]
  }

  /** The settings, given the environment and BACKEND_API_USER (the backend's
      own required account name, which is protected by default). */
  function LoadConfig(env: map<string, string>, backendApiUser: string): Option<Config> {
    if "DATASOURCE_UID" !in env then None
    else
      Some(Config(
        Get(env, "STAFF_TEAM_NAME", "staff"),
        Get(env, "SUPPORT_TEAM_NAME", "support"),
        env["DATASOURCE_UID"],
        SplitComma(Get(env, "PROTECTED_USERNAMES", "admin," + backendApiUser)),
        SplitComma(Get(env, "PROTECTED_TEAMS", "Development,Management")),
        DryRunEnabled(env)))
  }

  /** With no optional variable set, the defaults apply: teams "staff" and
      "support", protected users "admin" and the backend's own account,
      protected teams "Development" and "Management", and dry run ON. */
  lemma {:induction false} DefaultConfig(datasourceUid: string, backendApiUser: string)
    requires ',' !in backendApiUser
    ensures LoadConfig(map["DATASOURCE_UID" := datasourceUid], backendApiUser)
         == Some(Config("staff", "support", datasourceUid,
                        ["admin", backendApiUser], ["Development", "Management"], true))
  {
    var users := ["admin", backendApiUser];
    assert users[1..] == [backendApiUser];
    assert JoinComma(users) == "admin," + backendApiUser;
    SplitJoin(users);
    var teams := ["Development", "Management"];
    assert teams[1..] == ["Management"];
    assert JoinComma(teams) == "Development,Management";
    SplitJoin(teams);
  }

  /** Every protected list read from the environment joins back to the
      variable's text, and none of its names contains a comma. */
  lemma {:induction false} ProtectedListsRoundTrip(env: map<string, string>, backendApiUser: string)
    requires LoadConfig(env, backendApiUser).Some?
    ensures var c := LoadConfig(env, backendApiUser).value;
      && JoinComma(c.protectedUsernames) == Get(env, "PROTECTED_USERNAMES", "admin," + backendApiUser)
      && JoinComma(c.protectedTeams) == Get(env, "PROTECTED_TEAMS", "Development,Management")
  {
    JoinSplit(Get(env, "PROTECTED_USERNAMES", "admin," + backendApiUser));
    JoinSplit(Get(env, "PROTECTED_TEAMS", "Development,Management"));
  }

  /** Dry run is on exactly when DRY_RUN is unset or holds one of four
      spellings; every other value ("false", "1", "" alike) switches it off. */
  lemma DryRunOnlyFourSpellings(env: map<string, string>)
    ensures DryRunEnabled(env) <==>
      "DRY_RUN" !in env || env["DRY_RUN"] in {"TRUE", "True", "true", "yes"}
  {
  }
}
