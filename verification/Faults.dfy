/**
 Which fault is reported, spelled out without the lists of checks: the sentinel of each fault, and
 which one comes first when there are several.
 */
module Faults {
  import opened Wrappers
  import opened RuleTypes
  import opened Drafts
  import opened Checks
  import opened Validate
  import opened ConfigSave

  // ----- one group, reference or rule node

  lemma {:induction false} GroupFault(d: GroupDraft)
    ensures d.Validate() ==
            if d.name == "" then Some(GroupNameEmpty)
            else if d.typ !in ["select", "url-test", "fallback", "load-balance", "relay"] then Some(GroupUnknownType)
            else if d.members == [] then Some(GroupNoMembers)
            else if d.typ in ["select", "relay"] && (d.url != "" || d.interval.Some? || d.lazy.Some?)
            then Some(GroupFieldNotAllowed)
            else if d.typ != "url-test" && d.tolerance.Some? then Some(GroupFieldNotAllowed)
            else None
    ensures First(LocalChecks(d)) == d.Validate()
  {
    GroupTypes(d.typ);
    Unroll(LocalChecks(d));
  }

  lemma {:induction false} RefFault(m: RefDraft, numGroups: nat)
    ensures First(RefChecks(m, numGroups)) ==
            if m.kind !in ["direct", "reject", "reject-drop", "reject-no-drop", "pass", "inbound", "group"]
            then Some(BadRef)
            else if m.inboundID.Some? != (m.kind == "inbound") then Some(BadRef)
            else if m.groupIdx.Some? != (m.kind == "group") then Some(BadRef)
            else if m.kind == "group" && !(0 <= m.groupIdx.value < numGroups) then Some(GroupRefRange)
            else None
  {
    PolicyKinds(m.kind);
    RefFirst(m, numGroups);
  }

  /** A rule node by itself: an unknown type, then the payload, then children, then no-resolve. */
  lemma {:induction false} TypeFault(r: RuleDraft)
    ensures First(TypeChecks(r)) ==
            if !KnownRule(r.typ) then Some(UnknownRuleType)
            else if r.typ in ["AND", "OR", "NOT", "MATCH"] && (r.value.Some? || r.providerIdx.Some?)
            then Some(RulePayloadNotAllowed)
            else if r.typ == "RULE-SET" && r.value.Some? then Some(RulePayloadNotAllowed)
            else if r.typ == "RULE-SET" && r.providerIdx.None? then Some(ProviderRefRange)
            else if r.typ !in ["AND", "OR", "NOT", "MATCH", "RULE-SET"] && r.providerIdx.Some?
            then Some(RulePayloadNotAllowed)
            else if r.typ !in ["AND", "OR", "NOT", "MATCH", "RULE-SET"] && (r.value.None? || r.value == Some(""))
            then Some(RuleValueRequired)
            else if r.typ !in ["AND", "OR", "NOT"] && r.children != [] then Some(ChildrenNotAllowed)
            else if r.typ !in ["IP-CIDR", "IP-CIDR6", "IP-SUFFIX", "IP-ASN", "GEOIP", "RULE-SET"]
                    && r.noResolve == Some(true) then Some(NoResolveUnsupported)
            else None
  {
    SpecialTypes(r.typ);
    NoResolveTypes(r.typ);
    hide KnownRule, IsLogical, TakesProvider, SupportsNoResolve;
    TypeFirst(r);
  }

  /** A rule node where it stands: its own faults, its target, its place, its provider, its arity. */
  lemma {:induction false} NodeFault(r: RuleDraft, top: bool, numGroups: nat, numProviders: nat)
    ensures First(NodeChecks(r, top, numGroups, numProviders)) ==
            if First(TypeChecks(r)).Some? then First(TypeChecks(r))
            else if top && r.target.None? then Some(TargetRequired)
            else if !top && r.target.Some? then Some(ChildTarget)
            else if top && First(RefChecks(r.target.value, numGroups)).Some?
            then First(RefChecks(r.target.value, numGroups))
            else if !top && r.typ == "MATCH" then Some(MatchChild)
            else if !top && r.noResolve == Some(true) then Some(NoResolveUnsupported)
            else if r.typ == "RULE-SET" && !(r.providerIdx.Some? && 0 <= r.providerIdx.value < numProviders)
            then Some(ProviderRefRange)
            else if r.typ == "NOT" && |r.children| != 1 then Some(NotArity)
            else if r.typ in ["AND", "OR"] && |r.children| < 2 then Some(LogicalArity)
            else None
  {
    hide First, TypeChecks, RefChecks, NodeChecks, ValidateRef;
    SpecialTypes(r.typ);
    TypeFirst(r);
    NodeFirst(r, top, numGroups, numProviders);
    if r.target.Some? {
      RefFirst(r.target.value, numGroups);
    }
    LocalMeans(r);
    hide KnownRule, IsLogical, TakesProvider, SupportsNoResolve;
  }

  /** Where a RULE-SET passes by itself it has an index. */
  lemma {:induction false} LocalMeans(r: RuleDraft)
    ensures r.Validate().None? && TakesProvider(r.typ) ==> r.providerIdx.Some?
  {
    SpecialTypes(r.typ);
  }

  // ----- lists

  /** The first faulty member of a group decides. */
  lemma {:induction false} FirstMember(members: seq<RefDraft>, k: nat, numGroups: nat)
    requires k < |members| && First(RefChecks(members[k], numGroups)).Some?
    requires forall j :: 0 <= j < k ==> First(RefChecks(members[j], numGroups)) == None
    ensures First(MemberChecks(members, numGroups)) == First(RefChecks(members[k], numGroups))
  {
    hide First, RefChecks;
    NoMemberBefore(members, k, numGroups);
    assert members[..k + 1][..k] == members[..k];
    FirstConcat(MemberChecks(members[..k], numGroups), RefChecks(members[k], numGroups));
    MemberFirst(members, k + 1, numGroups);
  }

  lemma {:induction false} NoMemberBefore(members: seq<RefDraft>, k: nat, numGroups: nat)
    requires k <= |members| && forall j :: 0 <= j < k ==> First(RefChecks(members[j], numGroups)) == None
    ensures First(MemberChecks(members[..k], numGroups)) == None
  {
    hide RefChecks;
    if k == 0 {
      assert members[..0] == [];
    } else {
      NoMemberBefore(members, k - 1, numGroups);
      assert members[..k][..k - 1] == members[..k - 1];
      FirstConcat(MemberChecks(members[..k - 1], numGroups), RefChecks(members[k - 1], numGroups));
    }
  }

  /** The first faulty sub-rule decides, each with everything below it. */
  lemma {:induction false} FirstChild(rs: seq<RuleDraft>, k: nat, numGroups: nat, numProviders: nat)
    requires k < |rs| && ValidateRule(rs[k], false, numGroups, numProviders).Some?
    requires forall j :: 0 <= j < k ==> ValidateRule(rs[j], false, numGroups, numProviders) == None
    ensures ValidateChildren(rs, numGroups, numProviders) == ValidateRule(rs[k], false, numGroups, numProviders)
  {
    hide ValidateRule;
    if k == 0 {
    } else {
      FirstChild(rs[1..], k - 1, numGroups, numProviders);
    }
  }

  /** A node's own fault comes before those below it. */
  lemma {:induction false} NodeBeforeChildren(r: RuleDraft, top: bool, numGroups: nat, numProviders: nat)
    ensures ValidateRule(r, top, numGroups, numProviders) ==
            var own := First(NodeChecks(r, top, numGroups, numProviders));
            if own.Some? then own
            else if r.typ in ["AND", "OR", "NOT"] then ValidateChildren(r.children, numGroups, numProviders) else None
  {
    hide NodeChecks, ValidateChildren, First, NodeError;
    NodeFirst(r, top, numGroups, numProviders);
    SpecialTypes(r.typ);
    hide IsLogical;
  }

  lemma {:induction false} ProviderFault(p: Provider)
    ensures First(ProviderChecks(p)) ==
            if p.name == "" then Some(ProviderNameEmpty)
            else if p.behavior !in ["domain", "ipcidr", "classical"] then Some(ProviderBadBehavior)
            else if p.format !in ["mrs", "yaml", "text"] then Some(ProviderBadFormat)
            else if p.url == "" then Some(ProviderURLEmpty)
            else None
  {
    Unroll(ProviderChecks(p));
  }

  /** The first faulty provider decides. */
  lemma {:induction false} FirstProvider(providers: seq<Provider>, k: nat)
    requires k < |providers| && First(ProviderChecks(providers[k])).Some?
    requires forall j :: 0 <= j < k ==> First(ProviderChecks(providers[j])) == None
    ensures First(ProvidersChecks(providers)) == First(ProviderChecks(providers[k]))
  {
    hide ProviderChecks;
    FirstConcat(ProviderChecks(providers[0]), ProvidersChecks(providers[1..]));
    if k == 0 {
    } else {
      FirstProvider(providers[1..], k - 1);
    }
  }

  lemma {:induction false} ProfileFault(p: Profile)
    ensures First(ProfileChecks(p)) ==
            if p.title == "" then Some(ProfileTitleEmpty)
            else if p.filename == "" then Some(ProfileFilenameEmpty)
            else if '/' in p.filename || '\\' in p.filename || exists c :: c in p.filename && (c < ' ' || c == '\U{7F}')
            then Some(ProfileFilenameInvalid)
            else if p.updateInterval < 1 then Some(ProfileUpdateIntervalInvalid)
            else None
  {
    SafeFilenameMeans(p.filename);
    hide SafeFilename;
    Unroll(ProfileChecks(p));
  }
}
