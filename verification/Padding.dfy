/**
 What decoding does to the wire shape, said without computing it: a draft and a wire config belong
 together when every trimmed field of the draft stands in the wire field with nothing but white
 space around it, and every reference keeps the id of its kind and no other.
 */
module Padding {
  import opened Wrappers
  import opened Drafts
  import opened Decode

  ghost predicate Spaces(s: string) { forall k :: 0 <= k < |s| ==> IsSpace(s[k]) }

  /** The white space of Unicode, character by character. */
  lemma {:induction false} SpacesAre(c: char)
    ensures IsSpace(c) <==>
            || c in "\t\n\U{0B}\U{0C}\r \U{85}\U{A0}\U{1680}\U{2028}\U{2029}\U{202F}\U{205F}\U{3000}"
            || '\U{2000}' <= c <= '\U{200A}'
  {
  }

  // ----- strings

  /** v has no white space at its ends, and wire is v with white space around it. */
  ghost predicate Pads(v: string, wire: string) {
    && (v != "" ==> !IsSpace(v[0]) && !IsSpace(v[|v| - 1]))
    && exists a, b :: 0 <= a <= b <= |wire| && wire[a..b] == v && Spaces(wire[..a]) && Spaces(wire[b..])
  }

  lemma {:induction false} TrimPadded(left: string, v: string, right: string)
    requires Spaces(left) && Spaces(right) && Trimmed(v)
    ensures TrimSpace(left + v + right) == v
    decreases |left| + |right|
  {
    hide IsSpace;
    var s := left + v + right;
    if left != "" {
      assert s[0] == left[0] && s[1..] == left[1..] + v + right;
      TrimPadded(left[1..], v, right);
    } else if v == "" {
      assert s == right;
      if right != "" {
        assert s[1..] == "" + v + right[1..];
        TrimPadded("", v, right[1..]);
      }
    } else if right != "" {
      assert s[0] == v[0] && s[|s| - 1] == right[|right| - 1];
      assert s[..|s| - 1] == left + v + right[..|right| - 1];
      TrimPadded(left, v, right[..|right| - 1]);
    } else {
      assert s == v;
    }
  }

  lemma {:induction false} TrimIffPads(v: string, wire: string)
    ensures TrimSpace(wire) == v <==> Pads(v, wire)
  {
    hide IsSpace, TrimSpace, Pads;
    if Pads(v, wire) {
      TrimOfPads(v, wire);
    }
    if TrimSpace(wire) == v {
      PadsTrimmed(wire);
    }
  }

  lemma {:induction false} TrimOfPads(v: string, wire: string)
    requires Pads(v, wire)
    ensures TrimSpace(wire) == v
  {
    hide IsSpace, TrimSpace, Spaces;
    var a, b :| 0 <= a <= b <= |wire| && wire[a..b] == v && Spaces(wire[..a]) && Spaces(wire[b..]);
    assert wire == wire[..a] + v + wire[b..];
    TrimPadded(wire[..a], v, wire[b..]);
  }

  lemma {:induction false} PadsTrimmed(wire: string)
    ensures Pads(TrimSpace(wire), wire)
  {
    hide IsSpace, TrimSpace;
    var a, b := TrimTakesOnlySpace(wire);
    assert Spaces(wire[..a]) && Spaces(wire[b..]);
    assert Trimmed(TrimSpace(wire));
  }

  /** A value is absent when the wire has none or only white space. */
  ghost predicate ValuePads(v: Option<string>, wire: Option<string>) {
    match v
    case None => wire.None? || Spaces(wire.value)
    case Some(text) => text != "" && wire.Some? && Pads(text, wire.value)
  }

  lemma {:induction false} ValueIffPads(v: Option<string>, wire: Option<string>)
    ensures TrimOption(wire) == v <==> ValuePads(v, wire)
  {
    hide IsSpace, TrimSpace, Pads;
    if wire.Some? {
      TrimIffPads(TrimSpace(wire.value), wire.value);
      TrimIffPads("", wire.value);
      EmptyPads(wire.value);
      if v.Some? {
        TrimIffPads(v.value, wire.value);
      }
    }
  }

  lemma {:induction false} EmptyPads(wire: string)
    ensures Pads("", wire) <==> Spaces(wire)
  {
    hide IsSpace;
    if Spaces(wire) {
      assert wire[0..0] == "" && Spaces(wire[..0]) && Spaces(wire[0..]);
    }
    if Pads("", wire) {
      var a, b :| 0 <= a <= b <= |wire| && wire[a..b] == "" && Spaces(wire[..a]) && Spaces(wire[b..]);
      assert wire == wire[..a] + wire[b..];
    }
  }

  // ----- configs

  /** The id of the reference's own kind is kept, whatever else the wire reference carries. */
  ghost predicate RefPads(m: RefDraft, wire: RefDTO) {
    && Pads(m.kind, wire.kind)
    && m.inboundID == (if m.kind == "inbound" then wire.inboundID else None)
    && m.groupIdx == (if m.kind == "group" then wire.groupIdx else None)
  }

  ghost predicate GroupPads(g: GroupDraft, wire: GroupDTO) {
    && Pads(g.name, wire.name) && Pads(g.typ, wire.typ) && Pads(g.url, wire.url)
    && g.interval == wire.interval && g.tolerance == wire.tolerance && g.lazy == wire.lazy
    && |g.members| == |wire.members|
    && forall k :: 0 <= k < |g.members| ==> RefPads(g.members[k], wire.members[k])
  }

  ghost predicate RulePads(r: RuleDraft, wire: RuleDTO)
    decreases r
  {
    && Pads(r.typ, wire.typ) && ValuePads(r.value, wire.value)
    && r.providerIdx == wire.providerIdx && r.noResolve == wire.noResolve
    && r.target.Some? == wire.target.Some? && (r.target.Some? ==> RefPads(r.target.value, wire.target.value))
    && |r.children| == |wire.children|
    && forall k :: 0 <= k < |r.children| ==> RulePads(r.children[k], wire.children[k])
  }

  ghost predicate ProviderPads(p: Provider, wire: Provider) {
    && Pads(p.name, wire.name) && Pads(p.url, wire.url)
    && p.behavior == wire.behavior && p.format == wire.format && p.interval == wire.interval
    && p.mirror == wire.mirror && p.mirrorInterval == wire.mirrorInterval
  }

  ghost predicate ConfigPads(d: ConfigDraft, wire: ConfigDTO) {
    && |d.groups| == |wire.groups| && (forall k :: 0 <= k < |d.groups| ==> GroupPads(d.groups[k], wire.groups[k]))
    && |d.rules| == |wire.rules| && (forall k :: 0 <= k < |d.rules| ==> RulePads(d.rules[k], wire.rules[k]))
    && |d.providers| == |wire.providers|
    && (forall k :: 0 <= k < |d.providers| ==> ProviderPads(d.providers[k], wire.providers[k]))
    && d.baseYAML == wire.baseYAML
    && Pads(d.profile.title, wire.profileTitle) && Pads(d.profile.filename, wire.filename)
    && d.profile.updateInterval == wire.profileUpdateInterval
  }

  lemma {:induction false} RefIffPads(m: RefDraft, wire: RefDTO)
    ensures DecodeRef(wire) == m <==> RefPads(m, wire)
  {
    hide TrimSpace, Pads;
    TrimIffPads(m.kind, wire.kind);
  }

  lemma {:induction false} GroupIffPads(g: GroupDraft, wire: GroupDTO)
    ensures DecodedGroup(wire) == g <==> GroupPads(g, wire)
  {
    hide TrimSpace, Pads, DecodeRef, RefPads;
    TrimIffPads(g.name, wire.name);
    TrimIffPads(g.typ, wire.typ);
    TrimIffPads(g.url, wire.url);
    forall k | 0 <= k < |g.members| && k < |wire.members|
      ensures DecodeRef(wire.members[k]) == g.members[k] <==> RefPads(g.members[k], wire.members[k])
    {
      RefIffPads(g.members[k], wire.members[k]);
    }
    if |g.members| == |wire.members| {
      Pointwise(DecodedRefs(wire.members), g.members);
    }
  }

  lemma {:induction false} RuleIffPads(r: RuleDraft, wire: RuleDTO)
    ensures DecodedRule(wire) == r <==> RulePads(r, wire)
    decreases r
  {
    hide TrimSpace, TrimOption, Pads, ValuePads, DecodeRef, RefPads;
    TrimIffPads(r.typ, wire.typ);
    ValueIffPads(r.value, wire.value);
    if r.target.Some? && wire.target.Some? {
      RefIffPads(r.target.value, wire.target.value);
    }
    forall k | 0 <= k < |r.children| && k < |wire.children|
      ensures DecodedRule(wire.children[k]) == r.children[k] <==> RulePads(r.children[k], wire.children[k])
    {
      RuleIffPads(r.children[k], wire.children[k]);
    }
    if |r.children| == |wire.children| {
      Pointwise(DecodedRules(wire.children), r.children);
    }
  }

  lemma {:induction false} ProviderIffPads(p: Provider, wire: Provider)
    ensures DecodedProvider(wire) == p <==> ProviderPads(p, wire)
  {
    hide TrimSpace, Pads;
    TrimIffPads(p.name, wire.name);
    TrimIffPads(p.url, wire.url);
  }

  /**
   Decoding gives the one draft that belongs to the wire config: padding and stray ids change
   nothing, and nothing else is lost.
   */
  lemma {:induction false} DecodedIffPads(d: ConfigDraft, wire: ConfigDTO)
    ensures Decoded(wire) == d <==> ConfigPads(d, wire)
  {
    hide TrimSpace, Pads, DecodedGroup, GroupPads, DecodedRule, RulePads, DecodedProvider, ProviderPads;
    var decoded := Decoded(wire);
    TrimIffPads(d.profile.title, wire.profileTitle);
    TrimIffPads(d.profile.filename, wire.filename);
    if |d.groups| == |wire.groups| {
      forall k | 0 <= k < |d.groups|
        ensures decoded.groups[k] == d.groups[k] <==> GroupPads(d.groups[k], wire.groups[k])
      {
        GroupIffPads(d.groups[k], wire.groups[k]);
      }
      Pointwise(decoded.groups, d.groups);
    }
    if |d.rules| == |wire.rules| {
      forall k | 0 <= k < |d.rules| ensures decoded.rules[k] == d.rules[k] <==> RulePads(d.rules[k], wire.rules[k]) {
        RuleIffPads(d.rules[k], wire.rules[k]);
      }
      Pointwise(decoded.rules, d.rules);
    }
    if |d.providers| == |wire.providers| {
      forall k | 0 <= k < |d.providers|
        ensures decoded.providers[k] == d.providers[k] <==> ProviderPads(d.providers[k], wire.providers[k])
      {
        ProviderIffPads(d.providers[k], wire.providers[k]);
      }
      Pointwise(decoded.providers, d.providers);
    }
  }

  /** A padded value of a rule is kept without its padding. */
  lemma {:induction false} PaddedValueIsKept(rule: RuleDTO, left: string, v: string, right: string)
    requires Spaces(left) && Spaces(right) && v != "" && !IsSpace(v[0]) && !IsSpace(v[|v| - 1])
    ensures DecodedRule(rule.(value := Some(left + v + right))) == DecodedRule(rule).(value := Some(v))
  {
    hide IsSpace, TrimSpace;
    TrimPadded(left, v, right);
  }

  /** A stray id takes nothing from the id that belongs to the kind. */
  lemma {:induction false} StrayIDsAreDropped(inboundID: Option<int>, groupIdx: Option<int>)
    ensures DecodeRef(RefDTO("inbound", inboundID, groupIdx)) == RefDraft("inbound", inboundID, None)
    ensures DecodeRef(RefDTO("group", inboundID, groupIdx)) == RefDraft("group", None, groupIdx)
  {
    assert Trimmed("inbound") && Trimmed("group");
  }
}
