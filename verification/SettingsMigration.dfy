/** Which language model settings a user ends up with after being migrated from the old settings table to an
    organisation with a membership, and back. */
module SettingsMigration {
  import opened Options
  import opened Strings

  const CURRENT: int := 5

  /** The default model of each settings version. */
  const DEFAULTS: map<int, string> := map[
    1 := "claude-3-5-sonnet-20241022", 2 := "claude-3-7-sonnet-20250219", 3 := "claude-sonnet-4-20250514",
    4 := "claude-sonnet-4-20250514", 5 := "minimax-m2.5"]

  /** The deployment: address of the LiteLLM proxy, and the full name of the current default model. */
  datatype Deployment = Deployment(apiUrl: string, defaultModel: string)

  datatype UserSettings = UserSettings(version: int, model: Option<string>, baseUrl: Option<string>, key: string)

  /** The columns of an organisation that matter here. There is a default base URL, but no column `llm_base_url`, so
      assignments to that name have no effect. */
  datatype Org = Org(version: int, defaultModel: Option<string>, defaultBaseUrl: Option<string>)

  datatype Member = Member(model: Option<string>, baseUrl: Option<string>, key: string)

  datatype Effective = Effective(model: Option<string>, baseUrl: Option<string>, key: string)

  predicate Truthy(s: Option<string>) {
    s.Some? && s.value != ""
  }

  /** `x.strip() or None if x else None`. */
  function Normalized(s: Option<string>): Option<string> {
    if Truthy(s) && Strip(s.value) != "" then Some(Strip(s.value)) else None
  }

  function LastPart(model: string): string {
    var parts := Split(model, '/');
    parts[|parts| - 1]
  }

  /** `_has_custom_settings`. */
  predicate HasCustomSettings(us: UserSettings, d: Deployment) {
    var model, baseUrl := Normalized(us.model), Normalized(us.baseUrl);
    if baseUrl.Some? && baseUrl.value != d.apiUrl then true
    else if model.None? then false
    else if us.version != 0 && us.version <= CURRENT && us.version in DEFAULTS &&
        LastPart(model.value) == DEFAULTS[us.version] then false
    else true
  }

  /** The settings part of `migrate_user`. */
  function Migrate(us: UserSettings, d: Deployment): (Org, Member) {
    if HasCustomSettings(us, d) then
      (Org(CURRENT, Some(d.defaultModel), us.baseUrl), Member(us.model, us.baseUrl, us.key))
    else
      (Org(us.version, us.model, us.baseUrl), Member(None, None, us.key))
  }

  /** `_validate_org_version`, which runs whenever an organisation is loaded. */
  function Validate(org: Org, d: Deployment): (r: Org)
    ensures r.version >= CURRENT && r.defaultBaseUrl == org.defaultBaseUrl
    ensures r.defaultModel == if org.version < CURRENT then Some(d.defaultModel) else org.defaultModel
    ensures org.version >= CURRENT ==> r == org
  {
    if org.version < CURRENT then org.(version := CURRENT, defaultModel := Some(d.defaultModel)) else org
  }

  /** `SaasSettingsStore.load`: organisation defaults, overridden by what the membership sets. */
  function Load(stored: (Org, Member), d: Deployment): Option<Effective> {
    var (org, member) := stored;
    if member.key == "" then None
    else
      var o := Validate(org, d);
      Some(Effective(if Truthy(member.model) then member.model else o.defaultModel,
                     if Truthy(member.baseUrl) then member.baseUrl else o.defaultBaseUrl,
                     member.key))
  }

  /** What every user loads after the migration. The base URL always survives; the model survives for custom users
      that have one and for users of the current version, everybody else gets the current default. */
  lemma LoadedAfterMigration(us: UserSettings, d: Deployment)
    requires us.key != ""
    ensures Load(Migrate(us, d), d).Some?
    ensures var e := Load(Migrate(us, d), d).value;
      && e.baseUrl == us.baseUrl && e.key == us.key
      && (HasCustomSettings(us, d) && Truthy(us.model) ==> e.model == us.model)
      && (HasCustomSettings(us, d) && !Truthy(us.model) ==> e.model == Some(d.defaultModel))
      && (!HasCustomSettings(us, d) && us.version < 5 ==> e.model == Some(d.defaultModel))
      && (!HasCustomSettings(us, d) && us.version >= 5 ==> e.model == us.model)
  {
  }

  /** Exactly when the model survives. */
  lemma ModelSurvivesExactly(us: UserSettings, d: Deployment)
    requires us.key != ""
    ensures Load(Migrate(us, d), d).Some?
    ensures Load(Migrate(us, d), d).value.model == us.model <==>
      || us.model == Some(d.defaultModel)
      || (if HasCustomSettings(us, d) then Truthy(us.model) else us.version >= CURRENT)
  {
    hide HasCustomSettings;
    LoadedAfterMigration(us, d);
    assert HasCustomSettings(us, d) && !Truthy(us.model) ==>
        Load(Migrate(us, d), d).value.model == Some(d.defaultModel);
  }

  /** Who is not custom: the address is the proxy's or missing, and the model is missing or its version's default. */
  lemma NotCustomExactly(us: UserSettings, d: Deployment)
    ensures !HasCustomSettings(us, d) <==>
      && (Normalized(us.baseUrl).None? || Normalized(us.baseUrl).value == d.apiUrl)
      && (Normalized(us.model).None? ||
          (1 <= us.version <= CURRENT && LastPart(Normalized(us.model).value) == DEFAULTS[us.version]))
  {
    hide LastPart;
    assert forall v :: v in DEFAULTS <==> 1 <= v <= 5;
  }

  /** `_create_user_settings_from_entities`, used to downgrade people who signed up after the migration. */
  function FromEntities(stored: (Org, Member)): UserSettings {
    var (org, member) := stored;
    UserSettings(org.version,
                 if member.model.Some? then member.model else org.defaultModel,
                 if member.baseUrl.Some? then member.baseUrl else org.defaultBaseUrl,
                 member.key)
  }

  /** The base URL comes back unless the membership hides the organisation's default with an empty string. */
  predicate BaseUrlComesBack(stored: (Org, Member)) {
    stored.1.baseUrl == Some("") ==> stored.0.defaultBaseUrl == Some("")
  }

  /** When the model comes back. Below the current version, loading replaces the organisation's default model, and
      migrating replaces the model of everybody without custom settings; these two must agree. From the current version
      on, only a missing model can be replaced. */
  predicate ModelComesBack(stored: (Org, Member), d: Deployment) {
    var (org, member) := stored;
    var us := FromEntities(stored);
    if org.version < CURRENT then
      || HasCustomSettings(us, d) == Truthy(member.model)
      || !Truthy(us.model)
      || us.model == Some(d.defaultModel)
    else
      || Truthy(us.model)
      || org.defaultModel == if HasCustomSettings(us, d) then Some(d.defaultModel) else us.model
  }

  /** Downgrading such a user and migrating them again gives back the effective settings exactly under these conditions,
      for every organisation and membership. */
  lemma DowngradeRoundTrip(stored: (Org, Member), d: Deployment)
    ensures Load(Migrate(FromEntities(stored), d), d) == Load(stored, d) <==>
      stored.1.key == "" || (BaseUrlComesBack(stored) && ModelComesBack(stored, d))
  {
    hide HasCustomSettings;
    if stored.1.key != "" {
      LoadedAfterMigration(FromEntities(stored), d);
      LoadedDirectly(stored, d);
    }
  }

  lemma LoadedDirectly(stored: (Org, Member), d: Deployment)
    requires stored.1.key != ""
    ensures var (org, member) := stored;
      Load(stored, d) == Some(Effective(
        if Truthy(member.model) then member.model
        else if org.version < CURRENT then Some(d.defaultModel) else org.defaultModel,
        if Truthy(member.baseUrl) then member.baseUrl else org.defaultBaseUrl, member.key))
  {
  }

  // ----- people who were migrated before -----

  /** The downgrade of somebody who still has the old settings row: only the key is taken from the membership. */
  function Downgraded(us: UserSettings, stored: (Org, Member)): UserSettings {
    if stored.1.key != "" then us.(key := stored.1.key) else us
  }

  /** The model that such a user loads after being migrated again, whatever has been stored in the meantime. */
  function OldModel(us: UserSettings, d: Deployment): Option<string> {
    if HasCustomSettings(us, d) then if Truthy(us.model) then us.model else Some(d.defaultModel)
    else if us.version < CURRENT then Some(d.defaultModel) else us.model
  }

  /** Downgrading such a user and migrating them again restores the effective settings exactly if the model and the base
      URL in use are still those of the old row; later changes are lost. */
  lemma MigratedRoundTrip(us: UserSettings, stored: (Org, Member), d: Deployment)
    ensures var (org, member) := stored;
      Load(Migrate(Downgraded(us, stored), d), d) == Load(stored, d) <==>
      if member.key == "" then us.key == ""
      else
        && us.baseUrl == (if Truthy(member.baseUrl) then member.baseUrl else org.defaultBaseUrl)
        && OldModel(us, d) == if Truthy(member.model) then member.model
                              else if org.version < CURRENT then Some(d.defaultModel) else org.defaultModel
  {
    var again := Downgraded(us, stored);
    assert HasCustomSettings(again, d) == HasCustomSettings(us, d);
    hide HasCustomSettings;
    if stored.1.key != "" {
      LoadedAfterMigration(again, d);
      LoadedDirectly(stored, d);
    }
  }

  /** In particular, if nothing has changed since the first migration. */
  lemma UnchangedRoundTrip(us: UserSettings, d: Deployment)
    ensures Load(Migrate(Downgraded(us, Migrate(us, d)), d), d) == Load(Migrate(us, d), d)
  {
    hide HasCustomSettings;
    if us.key != "" {
      assert Downgraded(us, Migrate(us, d)) == us;
    }
  }

  /** What `create_user` writes; the version stays at its default. */
  function SignedUp(d: Deployment, key: string): (Org, Member) {
    (Org(0, Some(d.defaultModel), Some(d.apiUrl)), Member(None, None, key))
  }

  /** For a row written at sign-up, the round trip succeeds exactly if the default model is still the same: afterwards
      the model counts as custom and is pinned, while the stored row would have followed the new default. */
  lemma SignUpRoundTrip(signUp: Deployment, d: Deployment, key: string)
    requires key != "" && Strip(signUp.defaultModel) != ""
    ensures Load(Migrate(FromEntities(SignedUp(signUp, key)), d), d) == Load(SignedUp(signUp, key), d) <==>
      signUp.defaultModel == d.defaultModel
  {
    var us := FromEntities(SignedUp(signUp, key));
    assert signUp.defaultModel != "" by {
      assert Strip("") == "";
    }
    assert HasCustomSettings(us, d);
    DowngradeRoundTrip(SignedUp(signUp, key), d);
  }

  /** An empty string in the membership hides the organisation's default. */
  lemma EmptyModelIsNotRestored(d: Deployment)
    requires d.apiUrl != "" && d.defaultModel != "" && Strip(d.apiUrl) == d.apiUrl
    ensures var stored := (Org(CURRENT, Some(d.defaultModel), Some(d.apiUrl)), Member(Some(""), None, "key"));
      Load(Migrate(FromEntities(stored), d), d) != Load(stored, d)
  {
    var stored := (Org(CURRENT, Some(d.defaultModel), Some(d.apiUrl)), Member(Some(""), None, "key"));
    assert Normalized(FromEntities(stored).baseUrl) == Some(d.apiUrl);
    DowngradeRoundTrip(stored, d);
  }

  /** An organisation without a model gets one if its base URL is custom. */
  lemma MissingModelIsFilledIn(d: Deployment, url: string)
    requires Strip(url) == url != "" && url != d.apiUrl
    ensures var stored := (Org(CURRENT, None, Some(url)), Member(None, None, "key"));
      Load(Migrate(FromEntities(stored), d), d) != Load(stored, d)
  {
    var stored := (Org(CURRENT, None, Some(url)), Member(None, None, "key"));
    assert Normalized(FromEntities(stored).baseUrl) == Some(url);
    DowngradeRoundTrip(stored, d);
  }

  /** The name of a model is what follows the last slash. */
  lemma LastPartMeans(path: seq<string>, name: string)
    requires '/' !in name && forall i :: 0 <= i < |path| ==> '/' !in path[i]
    ensures LastPart(Join(path + [name], '/')) == name
  {
    SplitUndoesJoin(path + [name], '/');
  }

  /** What counts as a value at all: neither missing nor blank, and without the white space around it. */
  lemma NormalizedMeans(s: Option<string>)
    ensures Normalized(s).None? <==> s.None? || AllSpace(s.value)
    ensures Normalized(s).Some? ==> Normalized(s).value == Strip(s.value) != ""
  {
    if s.Some? {
      var front, back := StripMeans(s.value);
      var t := Strip(s.value);
      if t != "" {
        assert s.value[|front|] == t[0];
        assert [t[0]][0] == t[0];
      } else {
        assert s.value == front + back;
      }
      assert s.value == "" ==> t == "";
    }
  }

  /** Migrating a custom user fixes the defaults of the organisation: no later deployment replaces them. */
  lemma CustomDefaultsStay(us: UserSettings, d: Deployment, later: Deployment)
    requires HasCustomSettings(us, d)
    ensures Migrate(us, d).0.version == 5 && Migrate(us, d).0.defaultModel == Some(d.defaultModel)
    ensures Validate(Migrate(us, d).0, later) == Migrate(us, d).0
  {
  }
}
