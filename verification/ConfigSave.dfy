/**
 The save handler: decode, five validators in order, then the scope of the save, then the save.
 Parsing the base YAML is a parameter: it gives the top-level keys, or nothing for broken YAML.
 */
module ConfigSave {
  import opened Wrappers
  import opened Drafts
  import opened Checks
  import opened Acceptance
  import opened Validate
  import opened Decode
  import opened Messages
  import Store
  import RoundTrip

  type YAMLParser = string -> Option<set<string>>

  const GENERATED_KEYS: set<string> := {"proxies", "proxy-groups", "rules", "rule-providers", "sub-rules"}
  const BEHAVIORS: set<string> := {"domain", "ipcidr", "classical"}
  const FORMATS: set<string> := {"mrs", "yaml", "text"}

  // ----- the checks of the remaining validators

  ghost function YAMLChecks(base: string, parse: YAMLParser): seq<Check> {
    [ Check(parse(base).Some?, BaseYAMLInvalid),
      Check(parse(base).Some? ==> parse(base).value * GENERATED_KEYS == {}, GeneratedKeyPresent) ]
  }

  ghost function ProviderChecks(p: Provider): seq<Check> {
    [ Check(p.name != "", ProviderNameEmpty),
      Check(p.behavior in BEHAVIORS, ProviderBadBehavior),
      Check(p.format in FORMATS, ProviderBadFormat),
      Check(p.url != "", ProviderURLEmpty) ]
  }

  ghost function ProvidersChecks(providers: seq<Provider>): seq<Check> {
    if providers == [] then [] else ProviderChecks(providers[0]) + ProvidersChecks(providers[1..])
  }

  /** No path separators and no control characters. */
  predicate SafeFilename(name: string) {
    forall k :: 0 <= k < |name| ==>
      name[k] != '/' && name[k] != '\\' && name[k] as int >= 0x20 && name[k] as int != 0x7F
  }

  ghost function ProfileChecks(p: Profile): seq<Check> {
    [ Check(p.title != "", ProfileTitleEmpty),
      Check(p.filename != "", ProfileFilenameEmpty),
      Check(SafeFilename(p.filename), ProfileFilenameInvalid),
      Check(p.updateInterval >= 1, ProfileUpdateIntervalInvalid) ]
  }

  /** All checks of a save, in order. */
  ghost function ConfigChecks(d: ConfigDraft, parse: YAMLParser): seq<Check> {
    YAMLChecks(d.baseYAML, parse)
    + (ProxyGroupChecks(d.groups)
       + (RoutingChecks(d.rules, |d.groups|, |d.providers|)
          + (ProvidersChecks(d.providers) + ProfileChecks(d.profile))))
  }

  // ----- the remaining validators

  function ValidateBaseYAML(base: string, parse: YAMLParser): Option<Error> {
    match parse(base)
    case None => Some(BaseYAMLInvalid)
    case Some(keys) => if keys * GENERATED_KEYS != {} then Some(GeneratedKeyPresent) else None
  }

  lemma {:induction false} YAMLFirst(base: string, parse: YAMLParser)
    ensures ValidateBaseYAML(base, parse) == First(YAMLChecks(base, parse))
  {
    Unroll(YAMLChecks(base, parse));
  }

  function ProviderError(p: Provider): Option<Error> {
    if p.name == "" then Some(ProviderNameEmpty)
    else if p.behavior !in BEHAVIORS then Some(ProviderBadBehavior)
    else if p.format !in FORMATS then Some(ProviderBadFormat)
    else if p.url == "" then Some(ProviderURLEmpty)
    else None
  }

  method ValidateRuleProviders(providers: seq<Provider>) returns (err: Option<Error>)
    ensures err == First(ProvidersChecks(providers))
  {
    for i := 0 to |providers|
      invariant First(ProvidersChecks(providers)) == First(ProvidersChecks(providers[i..]))
    {
      err := ProviderError(providers[i]);
      ProviderFirst(providers[i]);
      assert providers[i..][1..] == providers[i + 1..];
      FirstConcat(ProviderChecks(providers[i]), ProvidersChecks(providers[i + 1..]));
      if err.Some? {
        return;
      }
    }
    err := None;
  }

  function ValidateProfile(p: Profile): Option<Error> {
    if p.title == "" then Some(ProfileTitleEmpty)
    else if p.filename == "" then Some(ProfileFilenameEmpty)
    else if !SafeFilename(p.filename) then Some(ProfileFilenameInvalid)
    else if p.updateInterval < 1 then Some(ProfileUpdateIntervalInvalid)
    else None
  }

  lemma {:induction false} ProfileFirst(p: Profile)
    ensures ValidateProfile(p) == First(ProfileChecks(p))
  {
    Unroll(ProfileChecks(p));
  }

  // ----- the handler

  /** The configs' anchors, each with its own id: the base one, made on first save, and the users' custom ones. */
  class Configs {
    var base: Option<int>
    var custom: map<int, int>
    var lastID: int

    /** No id is used twice, and all are below the counter. */
    ghost predicate Valid()
      reads this
    {
      && (base.Some? ==> base.value <= lastID)
      && (forall u :: u in custom ==> custom[u] <= lastID && base != Some(custom[u]))
      && (forall u, v :: u in custom && v in custom && u != v ==> custom[u] != custom[v])
    }

    constructor ()
      ensures Valid()
      ensures base == None && custom == map[] && lastID == 0
    {
      base, custom, lastID := None, map[], 0;
    }

    method EnsureBaseConfigID() returns (id: int)
      requires Valid()
      modifies this
      ensures Valid()
      ensures base == Some(id) && custom == old(custom)
      ensures old(base).Some? ==> id == old(base).value && lastID == old(lastID)
      ensures old(base).None? ==> id == old(lastID) + 1 == lastID
    {
      if base.None? {
        lastID := lastID + 1;
        base := Some(lastID);
      }
      id := base.value;
    }
  }

  datatype Response = BadRequest(message: string) | Done | ServerError

  class Handler {
    const configs: Configs
    const routing: Store.Repository

    constructor (configs: Configs, routing: Store.Repository)
      ensures this.configs == configs && this.routing == routing
    {
      this.configs, this.routing := configs, routing;
    }

    /** The five validators, each only when the ones before it passed. */
    method Validated(d: ConfigDraft, parse: YAMLParser) returns (err: Option<Error>)
      ensures err == First(ConfigChecks(d, parse))
    {
      hide First, YAMLChecks, ProxyGroupChecks, RoutingChecks, ProvidersChecks, ProfileChecks;
      ConfigFirst(d, parse);
      YAMLFirst(d.baseYAML, parse);
      ProfileFirst(d.profile);
      err := ValidateBaseYAML(d.baseYAML, parse);
      if err.None? {
        err := ValidateProxyGroups(d.groups);
      }
      if err.None? {
        err := ValidateRoutingRules(d.rules, |d.groups|, |d.providers|);
      }
      if err.None? {
        err := ValidateRuleProviders(d.providers);
      }
      if err.None? {
        err := ValidateProfile(d.profile);
      }
    }

    /**
     Input that fails a check is answered with its message before anything is touched; so is the
     save of a user without a config. Only then is the base config made, on its first save, and
     the draft stored. A repeated provider name is refused, and an inbound that no node has is a
     server error, both with everything stored left alone.
     */
    method ConfigSave(dto: ConfigDTO, userID: int, parse: YAMLParser) returns (r: Response)
      requires configs.Valid() && Store.ValidDB(routing.db)
      modifies configs, routing
      ensures configs.Valid() && Store.ValidDB(routing.db)
      ensures var d := Decoded(dto);
              var err := First(ConfigChecks(d, parse));
              if err.Some? then
                r.BadRequest? && Says(r.message, err.value) && unchanged(configs) && unchanged(routing)
              else if userID != 0 && userID !in old(configs.custom) then
                r == BadRequest("The user has no custom config") && unchanged(configs) && unchanged(routing)
              else
                && configs.custom == old(configs.custom) && (userID != 0 ==> unchanged(configs))
                && configs.base.Some? == (userID == 0 || old(configs.base).Some?)
                && (old(configs.base).Some? ==> configs.base == old(configs.base))
                && Good(d)
                && if !Store.DistinctProviderNames(d.providers) then
                     && r == BadRequest("A rule-provider with this name already exists")
                     && routing.db == old(routing.db)
                   else if !RoundTrip.InboundsExist(d, old(routing.db).inbounds) then
                     r == ServerError && routing.db == old(routing.db)
                   else
                     && r == Done
                     && (userID == 0 ==>
                           && Store.Savable(old(routing.db), configs.base.value, d)
                           && routing.db == Store.Saved(old(routing.db), configs.base.value, d)
                           && forall c :: c != configs.base.value ==> Store.SameRows(old(routing.db), routing.db, c))
                     && (userID != 0 ==>
                           && Store.Savable(old(routing.db), old(configs.custom)[userID], d)
                           && routing.db == Store.Saved(old(routing.db), old(configs.custom)[userID], d)
                           && forall c :: c != old(configs.custom)[userID] ==>
                                Store.SameRows(old(routing.db), routing.db, c))
    {
      hide First, ConfigChecks, Decoded, Store.Saved, Store.Savable, Store.ValidDB, Store.SameRows, Good,
           Says, ValidationMessage;
      var d := DecodeConfig(dto);
      var err := Validated(d, parse);
      if err.Some? {
        MessageSays(err.value);
        return BadRequest(ValidationMessage(err.value));
      }
      PassedIsGood(d, parse);
      var id: int;
      if userID == 0 {
        id := configs.EnsureBaseConfigID();
      } else {
        if userID !in configs.custom {
          return BadRequest(MSG_USER_CONFIG_MISSING);
        }
        id := configs.custom[userID];
      }
      GoodIsSavable(routing.db, id, d);
      if Store.Savable(routing.db, id, d) {
        forall c | c != id ensures Store.SameRows(routing.db, Store.Saved(routing.db, id, d), c) {
          Store.SaveLeavesOthers(routing.db, id, d, c);
        }
      }
      var failure := routing.SaveMihomoConfig(id, d);
      if failure == Some(Store.ProviderNameTaken) {
        return BadRequest(MSG_PROVIDER_NAME_TAKEN);
      }
      r := if failure.Some? then ServerError else Done;
    }
  }

  lemma {:induction false} ConfigFirst(d: ConfigDraft, parse: YAMLParser)
    ensures First(ConfigChecks(d, parse)) ==
            var yaml, groups := First(YAMLChecks(d.baseYAML, parse)), First(ProxyGroupChecks(d.groups));
            var rules := First(RoutingChecks(d.rules, |d.groups|, |d.providers|));
            var providers, profile := First(ProvidersChecks(d.providers)), First(ProfileChecks(d.profile));
            if yaml.Some? then yaml else if groups.Some? then groups else if rules.Some? then rules
            else if providers.Some? then providers else profile
  {
    hide First, YAMLChecks, ProxyGroupChecks, RoutingChecks, ProvidersChecks, ProfileChecks;
    var providers, profile := ProvidersChecks(d.providers), ProfileChecks(d.profile);
    var rules := RoutingChecks(d.rules, |d.groups|, |d.providers|);
    FirstConcat(providers, profile);
    FirstConcat(rules, providers + profile);
    FirstConcat(ProxyGroupChecks(d.groups), rules + (providers + profile));
    FirstConcat(YAMLChecks(d.baseYAML, parse), ProxyGroupChecks(d.groups) + (rules + (providers + profile)));
  }

  // ----- what a passed config is

  ghost predicate GoodProvider(p: Provider) {
    p.name != "" && p.behavior in BEHAVIORS && p.format in FORMATS && p.url != ""
  }

  /** What a good provider is, and which names a file must not have, spelled out. */
  lemma {:induction false} GoodProviderMeans(p: Provider)
    ensures GoodProvider(p) <==>
            && p.name != "" && p.url != ""
            && (p.behavior == "domain" || p.behavior == "ipcidr" || p.behavior == "classical")
            && (p.format == "mrs" || p.format == "yaml" || p.format == "text")
  {
  }

  lemma {:induction false} SafeFilenameMeans(name: string)
    ensures SafeFilename(name) <==>
            '/' !in name && '\\' !in name && !(exists c :: c in name && (c < ' ' || c == '\U{7F}'))
  {
    if SafeFilename(name) {
      forall c | c in name ensures !(c < ' ' || c == '\U{7F}') {
        var k :| 0 <= k < |name| && name[k] == c;
      }
    } else {
      var k :| && 0 <= k < |name|
               && !(name[k] != '/' && name[k] != '\\' && name[k] as int >= 0x20 && name[k] as int != 0x7F);
      assert name[k] in name;
    }
  }

  lemma {:induction false} GeneratedKeysAre(k: string)
    ensures k in GENERATED_KEYS <==>
            k == "proxies" || k == "proxy-groups" || k == "rules" || k == "rule-providers" || k == "sub-rules"
  {
  }

  ghost predicate GoodProfile(p: Profile) {
    p.title != "" && p.filename != "" && SafeFilename(p.filename) && p.updateInterval >= 1
  }

  ghost predicate Good(d: ConfigDraft) {
    && GoodGroups(d.groups)
    && GoodRules(d.rules, |d.groups|, |d.providers|)
    && (forall p :: p in d.providers ==> GoodProvider(p))
    && GoodProfile(d.profile)
  }

  lemma {:induction false} ProviderFirst(p: Provider)
    ensures ProviderError(p) == First(ProviderChecks(p))
    ensures ProviderError(p) == None <==> GoodProvider(p)
  {
    Unroll(ProviderChecks(p));
  }

  lemma {:induction false} GoodProviders(providers: seq<Provider>)
    ensures First(ProvidersChecks(providers)) == None <==> forall p :: p in providers ==> GoodProvider(p)
  {
    hide ProviderChecks, GoodProvider;
    if providers == [] {
    } else {
      GoodProviders(providers[1..]);
      ProviderFirst(providers[0]);
      FirstConcat(ProviderChecks(providers[0]), ProvidersChecks(providers[1..]));
      assert providers == [providers[0]] + providers[1..];
    }
  }

  /** The five validators together accept exactly the good configs with a proper base YAML. */
  lemma {:induction false} PassedIsGood(d: ConfigDraft, parse: YAMLParser)
    ensures First(ConfigChecks(d, parse)) == None
       <==> Good(d) && parse(d.baseYAML).Some? && parse(d.baseYAML).value * GENERATED_KEYS == {}
  {
    hide First, YAMLChecks, ProxyGroupChecks, RoutingChecks, ProvidersChecks, ProfileChecks, GoodGroups, GoodRules;
    ConfigFirst(d, parse);
    YAMLFirst(d.baseYAML, parse);
    ProfileFirst(d.profile);
    GoodProviders(d.providers);
    AcceptedIffGoodGroups(d.groups);
    AcceptedIffGoodRules(d.rules, |d.groups|, |d.providers|);
  }

  /** The store refuses a good draft for a repeated provider name or a missing inbound only. */
  lemma {:induction false} GoodIsSavable(db: Store.DB, config: int, d: ConfigDraft)
    requires Good(d)
    ensures Store.Savable(db, config, d)
       <==> Store.DistinctProviderNames(d.providers) && RoundTrip.InboundsExist(d, db.inbounds)
    ensures Store.DistinctGroupNames(d.groups)
  {
    AcceptedIffGoodGroups(d.groups);
    AcceptedIffGoodRules(d.rules, |d.groups|, |d.providers|);
    RoundTrip.AcceptedIsSavable(db, config, d);
  }
}
