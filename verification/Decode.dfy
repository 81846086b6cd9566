/** Decoding the wire shape of a config into a draft. Absent JSON fields are None; null and [] are both []. */
module Decode {
  import opened Wrappers
  import opened Drafts

  datatype RefDTO = RefDTO(kind: string, inboundID: Option<int>, groupIdx: Option<int>)

  datatype RuleDTO = RuleDTO(
    typ: string,
    value: Option<string>,
    providerIdx: Option<int>,
    noResolve: Option<bool>,
    target: Option<RefDTO>,
    children: seq<RuleDTO>)

  datatype GroupDTO = GroupDTO(
    name: string,
    typ: string,
    url: string,
    interval: Option<int>,
    tolerance: Option<int>,
    lazy: Option<bool>,
    members: seq<RefDTO>)

  /** A provider has the same fields on the wire as in a draft. */
  datatype ConfigDTO = ConfigDTO(
    groups: seq<GroupDTO>,
    rules: seq<RuleDTO>,
    providers: seq<Provider>,
    baseYAML: string,
    profileTitle: string,
    filename: string,
    profileUpdateInterval: int)

  // ----- trimming

  /** White space as unicode.IsSpace defines it. */
  predicate IsSpace(c: char) {
    var n := c as int;
    || 9 <= n <= 13 || n == 32 || n == 0x85 || n == 0xA0 || n == 0x1680 || 0x2000 <= n <= 0x200A
    || n == 0x2028 || n == 0x2029 || n == 0x202F || n == 0x205F || n == 0x3000
  }

  predicate Trimmed(s: string) {
    s != "" ==> !IsSpace(s[0]) && !IsSpace(s[|s| - 1])
  }

  function TrimSpace(s: string): (t: string)
    ensures Trimmed(t)
    ensures Trimmed(s) ==> t == s
    decreases |s|
  {
    if s == "" then s
    else if IsSpace(s[0]) then TrimSpace(s[1..])
    else if IsSpace(s[|s| - 1]) then TrimSpace(s[..|s| - 1])
    else s
  }

  /** Only white space is taken off, and only at the two ends. */
  lemma {:induction false} TrimTakesOnlySpace(s: string) returns (a: nat, b: nat)
    ensures a <= b <= |s| && TrimSpace(s) == s[a..b]
    ensures forall k :: 0 <= k < a || b <= k < |s| ==> IsSpace(s[k])
    decreases |s|
  {
    if s == "" {
      a, b := 0, 0;
    } else if IsSpace(s[0]) {
      a, b := TrimTakesOnlySpace(s[1..]);
      assert s[1..][a..b] == s[a + 1..b + 1];
      a, b := a + 1, b + 1;
      forall k | 0 <= k < a || b <= k < |s| ensures IsSpace(s[k]) {
        assert k > 0 ==> s[1..][k - 1] == s[k];
      }
    } else if IsSpace(s[|s| - 1]) {
      a, b := TrimTakesOnlySpace(s[..|s| - 1]);
    } else {
      a, b := 0, |s|;
    }
  }

  function TrimOption(s: Option<string>): Option<string> {
    match s
    case None => None
    case Some(v) => if TrimSpace(v) == "" then None else Some(TrimSpace(v))
  }

  // ----- decoding

  /** Only the field that belongs to the kind is taken over. */
  function DecodeRef(d: RefDTO): RefDraft {
    var kind := TrimSpace(d.kind);
    if kind == POLICY_INBOUND then RefDraft(kind, d.inboundID, None)
    else if kind == POLICY_GROUP then RefDraft(kind, None, d.groupIdx)
    else RefDraft(kind, None, None)
  }

  ghost function DecodedRefs(ds: seq<RefDTO>): (r: seq<RefDraft>)
    ensures |r| == |ds|
  {
    seq(|ds|, k requires 0 <= k < |ds| => DecodeRef(ds[k]))
  }

  ghost function DecodedGroup(g: GroupDTO): GroupDraft {
    GroupDraft(TrimSpace(g.name), TrimSpace(g.typ), TrimSpace(g.url), g.interval, g.tolerance, g.lazy,
               DecodedRefs(g.members))
  }

  ghost function DecodedRule(ru: RuleDTO): RuleDraft
    decreases ru, 1
  {
    RuleDraft(TrimSpace(ru.typ), TrimOption(ru.value), ru.providerIdx, ru.noResolve,
              if ru.target.Some? then Some(DecodeRef(ru.target.value)) else None,
              DecodedRules(ru.children))
  }

  ghost function DecodedRules(rs: seq<RuleDTO>): (out: seq<RuleDraft>)
    ensures |out| == |rs| && forall k :: 0 <= k < |rs| ==> out[k] == DecodedRule(rs[k])
    decreases rs, 0
  {
    if rs == [] then [] else [DecodedRule(rs[0])] + DecodedRules(rs[1..])
  }

  ghost function DecodedProvider(p: Provider): Provider {
    p.(name := TrimSpace(p.name), url := TrimSpace(p.url))
  }

  ghost function Decoded(dto: ConfigDTO): ConfigDraft {
    ConfigDraft(
      seq(|dto.groups|, k requires 0 <= k < |dto.groups| => DecodedGroup(dto.groups[k])),
      DecodedRules(dto.rules),
      seq(|dto.providers|, k requires 0 <= k < |dto.providers| => DecodedProvider(dto.providers[k])),
      dto.baseYAML,
      Profile(TrimSpace(dto.profileTitle), TrimSpace(dto.filename), dto.profileUpdateInterval))
  }

  method RulesFromDTO(rs: seq<RuleDTO>) returns (out: seq<RuleDraft>)
    ensures out == DecodedRules(rs)
    decreases rs
  {
    out := [];
    for k := 0 to |rs|
      invariant |out| == k && forall j :: 0 <= j < k ==> out[j] == DecodedRule(rs[j])
    {
      var ru := rs[k];
      var target: Option<RefDraft> := None;
      if ru.target.Some? {
        target := Some(DecodeRef(ru.target.value));
      }
      var children := RulesFromDTO(ru.children);
      out := out + [RuleDraft(TrimSpace(ru.typ), TrimOption(ru.value), ru.providerIdx, ru.noResolve, target, children)];
    }
  }

  method DecodeConfig(dto: ConfigDTO) returns (draft: ConfigDraft)
    ensures draft == Decoded(dto)
  {
    hide TrimSpace, DecodeRef;
    var groups: seq<GroupDraft> := [];
    for i := 0 to |dto.groups|
      invariant |groups| == i && forall j :: 0 <= j < i ==> groups[j] == DecodedGroup(dto.groups[j])
    {
      var g := dto.groups[i];
      var members: seq<RefDraft> := [];
      for k := 0 to |g.members|
        invariant |members| == k && forall j :: 0 <= j < k ==> members[j] == DecodeRef(g.members[j])
      {
        members := members + [DecodeRef(g.members[k])];
      }
      assert members == DecodedRefs(g.members);
      groups := groups + [GroupDraft(TrimSpace(g.name), TrimSpace(g.typ), TrimSpace(g.url), g.interval, g.tolerance,
                                     g.lazy, members)];
    }
    var rules := RulesFromDTO(dto.rules);
    var providers: seq<Provider> := [];
    for i := 0 to |dto.providers|
      invariant |providers| == i && forall j :: 0 <= j < i ==> providers[j] == DecodedProvider(dto.providers[j])
    {
      var p := dto.providers[i];
      providers := providers + [p.(name := TrimSpace(p.name), url := TrimSpace(p.url))];
    }
    draft := ConfigDraft(groups, rules, providers, dto.baseYAML,
                         Profile(TrimSpace(dto.profileTitle), TrimSpace(dto.filename), dto.profileUpdateInterval));
  }

  // ----- decoding is a normalisation

  ghost predicate NormalRef(m: RefDraft) {
    && Trimmed(m.kind)
    && (m.inboundID.Some? ==> m.kind == POLICY_INBOUND)
    && (m.groupIdx.Some? ==> m.kind == POLICY_GROUP)
  }

  ghost predicate NormalGroup(g: GroupDraft) {
    Trimmed(g.name) && Trimmed(g.typ) && Trimmed(g.url) && forall m :: m in g.members ==> NormalRef(m)
  }

  ghost predicate NormalRule(r: RuleDraft)
    decreases r
  {
    && Trimmed(r.typ)
    && (r.value.Some? ==> r.value.value != "" && Trimmed(r.value.value))
    && (r.target.Some? ==> NormalRef(r.target.value))
    && forall c :: c in r.children ==> NormalRule(c)
  }

  ghost predicate NormalProvider(p: Provider) { Trimmed(p.name) && Trimmed(p.url) }

  ghost predicate Normal(d: ConfigDraft) {
    && (forall g :: g in d.groups ==> NormalGroup(g))
    && (forall r :: r in d.rules ==> NormalRule(r))
    && (forall p :: p in d.providers ==> NormalProvider(p))
    && Trimmed(d.profile.title) && Trimmed(d.profile.filename)
  }

  /** A draft written back in the wire shape. */
  ghost function EmbedRef(m: RefDraft): RefDTO { RefDTO(m.kind, m.inboundID, m.groupIdx) }

  ghost function EmbedGroup(g: GroupDraft): GroupDTO {
    GroupDTO(g.name, g.typ, g.url, g.interval, g.tolerance, g.lazy,
             seq(|g.members|, k requires 0 <= k < |g.members| => EmbedRef(g.members[k])))
  }

  ghost function EmbedRule(r: RuleDraft): RuleDTO
    decreases r, 1
  {
    RuleDTO(r.typ, r.value, r.providerIdx, r.noResolve,
            if r.target.Some? then Some(EmbedRef(r.target.value)) else None, EmbedRules(r.children))
  }

  ghost function EmbedRules(rs: seq<RuleDraft>): (out: seq<RuleDTO>)
    ensures |out| == |rs| && forall k :: 0 <= k < |rs| ==> out[k] == EmbedRule(rs[k])
    decreases rs, 0
  {
    if rs == [] then [] else [EmbedRule(rs[0])] + EmbedRules(rs[1..])
  }

  ghost function Embed(d: ConfigDraft): ConfigDTO {
    ConfigDTO(
      seq(|d.groups|, k requires 0 <= k < |d.groups| => EmbedGroup(d.groups[k])),
      EmbedRules(d.rules), d.providers, d.baseYAML,
      d.profile.title, d.profile.filename, d.profile.updateInterval)
  }

  lemma {:induction false} DecodedRuleIsNormal(ru: RuleDTO)
    ensures NormalRule(DecodedRule(ru))
    decreases ru
  {
    forall k | 0 <= k < |ru.children| ensures NormalRule(DecodedRules(ru.children)[k]) {
      DecodedRuleIsNormal(ru.children[k]);
    }
  }

  /** Names and types are trimmed, values absent or non-empty and trimmed, references carry nothing stray. */
  lemma {:induction false} DecodedIsNormal(dto: ConfigDTO)
    ensures Normal(Decoded(dto))
  {
    hide IsSpace, DecodeRef;
    var d := Decoded(dto);
    forall k, j | 0 <= k < |d.groups| && 0 <= j < |d.groups[k].members| ensures NormalRef(d.groups[k].members[j]) {
      NormalDecodedRef(dto.groups[k].members[j]);
    }
    forall k | 0 <= k < |d.rules| ensures NormalRule(d.rules[k]) {
      DecodedRuleIsNormal(dto.rules[k]);
    }
  }

  lemma {:induction false} NormalDecodedRef(m: RefDTO)
    ensures NormalRef(DecodeRef(m))
  {
  }

  lemma {:induction false} EmbedRefRound(m: RefDraft)
    ensures DecodeRef(EmbedRef(m)) == m <==> NormalRef(m)
  {
  }

  lemma {:induction false} EmbedGroupRound(g: GroupDraft)
    ensures DecodedGroup(EmbedGroup(g)) == g <==> NormalGroup(g)
  {
    var back := DecodedGroup(EmbedGroup(g));
    forall k | 0 <= k < |g.members| ensures back.members[k] == g.members[k] <==> NormalRef(g.members[k]) {
      EmbedRefRound(g.members[k]);
    }
    Pointwise(back.members, g.members);
  }

  lemma {:induction false} EmbedRuleRound(r: RuleDraft)
    ensures DecodedRule(EmbedRule(r)) == r <==> NormalRule(r)
    decreases r
  {
    if r.target.Some? {
      EmbedRefRound(r.target.value);
    }
    EmbedRulesRound(r.children);
  }

  lemma {:induction false} EmbedRulesRound(rs: seq<RuleDraft>)
    ensures DecodedRules(EmbedRules(rs)) == rs <==> forall r :: r in rs ==> NormalRule(r)
    decreases rs
  {
    hide DecodedRule, EmbedRule, NormalRule;
    if rs == [] {
    } else {
      EmbedRuleRound(rs[0]);
      EmbedRulesRound(rs[1..]);
      assert EmbedRules(rs)[1..] == EmbedRules(rs[1..]);
      assert rs == [rs[0]] + rs[1..];
    }
  }

  /** Writing a draft back and decoding it again gives the same draft exactly when it is normal. */
  lemma {:induction false} EmbedRound(d: ConfigDraft)
    ensures Decoded(Embed(d)) == d <==> Normal(d)
  {
    hide DecodedGroup, EmbedGroup, NormalGroup;
    var back := Decoded(Embed(d));
    forall k | 0 <= k < |d.groups| ensures back.groups[k] == d.groups[k] <==> NormalGroup(d.groups[k]) {
      EmbedGroupRound(d.groups[k]);
    }
    EmbedRulesRound(d.rules);
    forall k | 0 <= k < |d.providers| ensures back.providers[k] == d.providers[k] <==> NormalProvider(d.providers[k]) {
      EmbedProviderRound(d.providers[k]);
    }
    Pointwise(back.groups, d.groups);
    Pointwise(back.providers, d.providers);
    assert (forall g :: g in d.groups ==> NormalGroup(g))
      <==> forall k :: 0 <= k < |d.groups| ==> NormalGroup(d.groups[k]);
    assert (forall p :: p in d.providers ==> NormalProvider(p))
      <==> forall k :: 0 <= k < |d.providers| ==> NormalProvider(d.providers[k]);
  }

  lemma {:induction false} EmbedProviderRound(p: Provider)
    ensures DecodedProvider(p) == p <==> NormalProvider(p)
  {
  }

  lemma {:induction false} Pointwise<T>(a: seq<T>, b: seq<T>)
    requires |a| == |b|
    ensures a == b <==> forall k :: 0 <= k < |a| ==> a[k] == b[k]
  {
  }

  /** Hence decoding is idempotent on whatever came over the wire. */
  lemma {:induction false} DecodingTwiceIsDecodingOnce(dto: ConfigDTO)
    ensures Decoded(Embed(Decoded(dto))) == Decoded(dto)
  {
    DecodedIsNormal(dto);
    EmbedRound(Decoded(dto));
  }

  /** A decoded reference is malformed only through an unknown kind or a missing id. */
  lemma {:induction false} DecodedRefFaults(d: RefDTO)
    ensures var m := DecodeRef(d);
            m.Validate().Some? <==> !KnownPolicy(m.kind)
                                    || (m.kind == POLICY_INBOUND && d.inboundID.None?)
                                    || (m.kind == POLICY_GROUP && d.groupIdx.None?)
  {
  }
}
