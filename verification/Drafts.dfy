/**
 The save-time drafts: groups, rules and policy references before persistence, where a
 reference to a group or a provider is its index in the same draft. An absent Go pointer is
 None. Each Validate member returns the sentinel of the first local check that fails.
 */
module Drafts {
  import opened Wrappers
  import opened RuleTypes

  /** The sentinels of the mihomo package. */
  datatype Error =
    | GroupNameEmpty | GroupNameTaken | GroupUnknownType | GroupNoMembers | GroupCycle | GroupFieldNotAllowed
    | BadRef | GroupRefRange
    | UnknownRuleType | MatchNotLast | RuleValueRequired | RulePayloadNotAllowed | NoResolveUnsupported
    | ProviderRefRange
    | ChildrenNotAllowed | NotArity | LogicalArity | MatchChild | TargetRequired | ChildTarget
    | ProviderNameEmpty | ProviderBadBehavior | ProviderBadFormat | ProviderURLEmpty
    | BaseYAMLInvalid | GeneratedKeyPresent
    | ProfileTitleEmpty | ProfileFilenameEmpty | ProfileFilenameInvalid | ProfileUpdateIntervalInvalid

  const POLICY_INBOUND := "inbound"
  const POLICY_GROUP := "group"

  predicate KnownPolicy(k: string) {
    k in {"direct", "reject", "reject-drop", "reject-no-drop", "pass", "inbound", "group"}
  }

  /** Five built-in policies and two kinds of references. */
  lemma {:induction false} PolicyKinds(k: string)
    ensures KnownPolicy(k) <==>
            || k == "direct" || k == "reject" || k == "reject-drop" || k == "reject-no-drop" || k == "pass"
            || k == "inbound" || k == "group"
  {
  }

  datatype RefDraft = RefDraft(kind: string, inboundID: Option<int>, groupIdx: Option<int>) {

    function Validate(): Option<Error> {
      if !KnownPolicy(kind) then Some(BadRef)
      else if (kind == POLICY_INBOUND) != inboundID.Some? then Some(BadRef)
      else if (kind == POLICY_GROUP) != groupIdx.Some? then Some(BadRef)
      else None
    }
  }

  datatype RuleDraft = RuleDraft(
    typ: string,
    value: Option<string>,
    providerIdx: Option<int>,
    noResolve: Option<bool>,
    target: Option<RefDraft>,
    children: seq<RuleDraft>) {

    function Validate(): Option<Error> {
      if !KnownRule(typ) then Some(UnknownRuleType)
      else match PayloadError() {
        case Some(e) => Some(e)
        case None =>
          if |children| != 0 && !IsLogical(typ) then Some(ChildrenNotAllowed)
          else if noResolve == Some(true) && !SupportsNoResolve(typ) then Some(NoResolveUnsupported)
          else None
      }
    }

    /** The switch over the type: which of value and provider index the type takes. */
    function PayloadError(): Option<Error> {
      if IsLogical(typ) then
        if value.Some? || providerIdx.Some? then Some(RulePayloadNotAllowed) else None
      else if IsMatch(typ) then
        if value.Some? || providerIdx.Some? then Some(RulePayloadNotAllowed) else None
      else if TakesProvider(typ) then
        if value.Some? then Some(RulePayloadNotAllowed)
        else if providerIdx.None? then Some(ProviderRefRange)
        else None
      else if providerIdx.Some? then Some(RulePayloadNotAllowed)
      else if value.None? || value.value == "" then Some(RuleValueRequired)
      else None
    }
  }

  predicate KnownGroupType(t: string) { t in {"select", "url-test", "fallback", "load-balance", "relay"} }

  predicate UsesHealthCheck(t: string) { t in {"url-test", "fallback", "load-balance"} }

  predicate UsesTolerance(t: string) { t == "url-test" }

  /** Which group types there are, which take health-check fields, and which take a tolerance. */
  lemma {:induction false} GroupTypes(t: string)
    ensures KnownGroupType(t) <==>
            t == "select" || t == "relay" || t == "url-test" || t == "fallback" || t == "load-balance"
    ensures UsesHealthCheck(t) <==> KnownGroupType(t) && t != "select" && t != "relay"
    ensures UsesTolerance(t) <==> t == "url-test"
    ensures UsesTolerance(t) ==> UsesHealthCheck(t)
  {
  }

  datatype GroupDraft = GroupDraft(
    name: string,
    typ: string,
    url: string,
    interval: Option<int>,
    tolerance: Option<int>,
    lazy: Option<bool>,
    members: seq<RefDraft>) {

    function Validate(): Option<Error> {
      if name == "" then Some(GroupNameEmpty)
      else if !KnownGroupType(typ) then Some(GroupUnknownType)
      else if |members| == 0 then Some(GroupNoMembers)
      else if !UsesHealthCheck(typ) && (url != "" || interval.Some? || lazy.Some?) then Some(GroupFieldNotAllowed)
      else if !UsesTolerance(typ) && tolerance.Some? then Some(GroupFieldNotAllowed)
      else None
    }
  }

  /** A rule-provider of a draft: its id is not assigned yet, so it has none. */
  datatype Provider = Provider(
    name: string,
    behavior: string,
    format: string,
    url: string,
    interval: int,
    mirror: bool,
    mirrorInterval: int)

  datatype Profile = Profile(title: string, filename: string, updateInterval: int)

  datatype ConfigDraft = ConfigDraft(
    groups: seq<GroupDraft>,
    rules: seq<RuleDraft>,
    providers: seq<Provider>,
    baseYAML: string,
    profile: Profile)
}
