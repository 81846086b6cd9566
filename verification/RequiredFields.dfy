/**
 The generated object decoders: a bit is set for every required field that is seen, and the
 missing ones are read off the residue, lowest bit first, as many times as the residue has bits.
 */
module RequiredFields {

  function Bit(i: nat): bv8
    requires i < 8
  {
    if i == 0 then 1 else if i == 1 then 2 else if i == 2 then 4 else if i == 3 then 8
    else if i == 4 then 16 else if i == 5 then 32 else if i == 6 then 64 else 128
  }

  predicate Has(x: bv8, i: nat)
    requires i < 8
  {
    x & Bit(i) != 0
  }

  /** The bits of the mask that were not seen. */
  function Unseen(seen: bv8, mask: bv8): bv8 { (seen & mask) ^ mask }

  function Reset(x: bv8, i: nat): bv8
    requires i < 8
  {
    x & !Bit(i)
  }

  /** The number of set bits among the lowest n. */
  function CountUpTo(x: bv8, n: nat): (c: nat)
    requires n <= 8
    ensures c <= n
  {
    if n == 0 then 0 else CountUpTo(x, n - 1) + if Has(x, n - 1) then 1 else 0
  }

  function OnesCount(x: bv8): nat { CountUpTo(x, 8) }

  function TrailingZerosFrom(x: bv8, i: nat): (t: nat)
    requires i <= 8
    ensures i <= t <= 8
    ensures t < 8 ==> Has(x, t)
    ensures forall k :: i <= k < t ==> !Has(x, k)
    decreases 8 - i
  {
    if i == 8 || Has(x, i) then i else TrailingZerosFrom(x, i + 1)
  }

  function TrailingZeros(x: bv8): nat { TrailingZerosFrom(x, 0) }

  /** The fields of an object in the decoder's order; the mask says which are required. */
  datatype Shape = Shape(fields: seq<string>, mask: bv8)

  ghost predicate ValidShape(s: Shape) {
    && |s.fields| <= 8
    && (forall i, j :: 0 <= i < j < |s.fields| ==> s.fields[i] != s.fields[j])
    && (forall i :: |s.fields| <= i < 8 ==> !Has(s.mask, i))
  }

  const CONFIG_SAVE_REQ := Shape(
    ["groups", "rules", "providers", "baseYAML", "profileTitle", "filename", "profileUpdateInterval", "userId"], 0x7F)

  const NODE_SAVE_REQ := Shape(
    ["id", "name", "vpnHost", "panelBaseURL", "panelBasePath", "token", "inbounds"], 0x5E)

  /** The required fields that never occur among the keys, in field order. */
  function Missing(s: Shape, keys: seq<string>, from: nat): seq<string>
    requires from <= |s.fields| <= 8
    decreases |s.fields| - from
  {
    if from == |s.fields| then []
    else (if Has(s.mask, from) && s.fields[from] !in keys then [s.fields[from]] else []) + Missing(s, keys, from + 1)
  }

  // ----- bits

  lemma {:induction false} SetBit(x: bv8, i: nat, k: nat)
    requires i < 8 && k < 8
    ensures Has(x | Bit(i), k) <==> k == i || Has(x, k)
  {
  }

  lemma {:induction false} ClearBit(x: bv8, i: nat, k: nat)
    requires i < 8 && k < 8
    ensures Has(Reset(x, i), k) <==> k != i && Has(x, k)
  {
  }

  lemma {:induction false} Residue(seen: bv8, mask: bv8, k: nat)
    requires k < 8
    ensures Has(Unseen(seen, mask), k) <==> Has(mask, k) && !Has(seen, k)
  {
  }

  lemma {:induction false} NoBits(x: bv8)
    requires forall k :: 0 <= k < 8 ==> !Has(x, k)
    ensures x == 0
  {
    assert !Has(x, 0) && !Has(x, 1) && !Has(x, 2) && !Has(x, 3) && !Has(x, 4) && !Has(x, 5) && !Has(x, 6) && !Has(x, 7);
  }

  lemma {:induction false} CountBounds(x: bv8, n: nat)
    requires n <= 8
    ensures CountUpTo(x, n) == 0 <==> forall k :: 0 <= k < n ==> !Has(x, k)
  {
    hide Has;
    if n == 0 {
    } else {
      CountBounds(x, n - 1);
    }
  }

  lemma {:induction false} CountCleared(x: bv8, i: nat, n: nat)
    requires i < 8 && n <= 8 && Has(x, i)
    ensures CountUpTo(x, n) == CountUpTo(Reset(x, i), n) + if i < n then 1 else 0
  {
    hide Has;
    if n == 0 {
    } else {
      CountCleared(x, i, n - 1);
      ClearBit(x, i, n - 1);
    }
  }

  // ----- names

  /** The names of the set bits, lowest first. */
  function Names(s: Shape, x: bv8, from: nat): seq<string>
    requires from <= |s.fields| <= 8
    decreases |s.fields| - from
  {
    if from == |s.fields| then []
    else (if Has(x, from) then [s.fields[from]] else []) + Names(s, x, from + 1)
  }

  lemma {:induction false} TakeLowest(s: Shape, x: bv8, t: nat, from: nat)
    requires from <= |s.fields| <= 8 && t < |s.fields| && Has(x, t) && forall k :: 0 <= k < t ==> !Has(x, k)
    ensures Names(s, x, from) == (if from <= t then [s.fields[t]] else []) + Names(s, Reset(x, t), from)
    decreases |s.fields| - from
  {
    hide Has, Reset;
    if from == |s.fields| {
    } else {
      TakeLowest(s, x, t, from + 1);
      ClearBit(x, t, from);
    }
  }

  lemma {:induction false} NamesAreMissing(s: Shape, keys: seq<string>, x: bv8, from: nat)
    requires from <= |s.fields| <= 8
    requires forall k :: 0 <= k < |s.fields| ==> (Has(x, k) <==> Has(s.mask, k) && s.fields[k] !in keys)
    ensures Names(s, x, from) == Missing(s, keys, from)
    decreases |s.fields| - from
  {
    hide Has;
    if from == |s.fields| {
    } else {
      NamesAreMissing(s, keys, x, from + 1);
    }
  }

  /** Where a key stands among the fields; |fields| for an unknown key. */
  function FieldIndex(fields: seq<string>, key: string, from: nat): (i: nat)
    requires from <= |fields|
    ensures i <= |fields|
    ensures i < |fields| ==> fields[i] == key
    ensures forall k :: from <= k < |fields| && fields[k] == key ==> i <= k
    decreases |fields| - from
  {
    if from == |fields| || fields[from] == key then from else FieldIndex(fields, key, from + 1)
  }

  /** A bit is set for each required field among the keys. */
  ghost predicate Tracks(s: Shape, keys: seq<string>, seen: bv8)
    requires ValidShape(s)
  {
    forall i :: 0 <= i < |s.fields| ==> (Has(seen, i) <==> Has(s.mask, i) && s.fields[i] in keys)
  }

  lemma {:induction false} NothingSeen(s: Shape, seen: bv8)
    requires ValidShape(s) && seen == 0
    ensures Tracks(s, [], seen)
  {
    hide Has;
    forall i | 0 <= i < |s.fields| ensures Has(seen, i) <==> Has(s.mask, i) && s.fields[i] in [] {
      NoneOfZero(seen, i);
    }
  }

  /** One more key, known or not. */
  lemma {:induction false} SeeKey(s: Shape, keys: seq<string>, key: string, seen: bv8, after: bv8)
    requires ValidShape(s) && Tracks(s, keys, seen)
    requires var at := FieldIndex(s.fields, key, 0);
             after == if at < |s.fields| && Has(s.mask, at) then seen | Bit(at) else seen
    ensures Tracks(s, keys + [key], after)
  {
    hide Has, Bit;
    var at := FieldIndex(s.fields, key, 0);
    forall i | 0 <= i < |s.fields| ensures Has(after, i) <==> Has(s.mask, i) && s.fields[i] in keys + [key] {
      assert s.fields[i] == key ==> i == at;
      if at < |s.fields| && Has(s.mask, at) {
        SetBit(seen, at, i);
      }
    }
  }

  /** The callback over the keys: any order, repetitions and unknown keys are allowed. */
  method SeenBits(s: Shape, keys: seq<string>) returns (seen: bv8)
    requires ValidShape(s)
    ensures Tracks(s, keys, seen)
  {
    hide Has, Tracks;
    seen := 0;
    NothingSeen(s, seen);
    assert keys[..0] == [];
    for k := 0 to |keys|
      invariant Tracks(s, keys[..k], seen)
    {
      ghost var before := seen;
      var at := FieldIndex(s.fields, keys[k], 0);
      if at < |s.fields| && Has(s.mask, at) {
        seen := seen | Bit(at);
      }
      SeeKey(s, keys[..k], keys[k], before, seen);
      assert keys[..k + 1] == keys[..k] + [keys[k]];
    }
    assert keys[..|keys|] == keys;
  }

  lemma {:induction false} NoneOfZero(x: bv8, i: nat)
    requires x == 0 && i < 8
    ensures !Has(x, i)
  {
  }

  /** Only bits of fields are set. */
  ghost predicate Fits(s: Shape, x: bv8)
    requires |s.fields| <= 8
  {
    forall k :: |s.fields| <= k < 8 ==> !Has(x, k)
  }

  /** What one round of the loop takes from the residue. */
  lemma {:induction false} LowestBit(s: Shape, x: bv8)
    requires |s.fields| <= 8 && CountUpTo(x, 8) > 0 && Fits(s, x)
    ensures TrailingZeros(x) < |s.fields|
    ensures var rest := Reset(x, TrailingZeros(x));
            && CountUpTo(rest, 8) == CountUpTo(x, 8) - 1
            && Names(s, x, 0) == [s.fields[TrailingZeros(x)]] + Names(s, rest, 0)
            && Fits(s, rest)
  {
    hide Has, Bit, Names;
    var t := TrailingZeros(x);
    CountBounds(x, 8);
    TakeLowest(s, x, t, 0);
    CountCleared(x, t, 8);
    var rest := Reset(x, t);
    forall k | 0 <= k < 8 ensures Has(rest, k) <==> k != t && Has(x, k) { ClearBit(x, t, k); }
  }

  /** The residue at the start of the loop: one bit for each required field that was not seen. */
  lemma {:induction false} StartOfLoop(s: Shape, keys: seq<string>, seen: bv8, start: bv8)
    requires ValidShape(s) && Tracks(s, keys, seen) && start == Unseen(seen, s.mask)
    ensures Fits(s, start) && Names(s, start, 0) == Missing(s, keys, 0)
  {
    hide Has, Names, Missing;
    forall k | 0 <= k < |s.fields| ensures Has(start, k) <==> Has(s.mask, k) && s.fields[k] !in keys {
      Residue(seen, s.mask, k);
    }
    forall k | |s.fields| <= k < 8 ensures !Has(start, k) {
      Residue(seen, s.mask, k);
    }
    NamesAreMissing(s, keys, start, 0);
  }

  lemma {:induction false} EndOfLoop(s: Shape, x: bv8)
    requires |s.fields| <= 8 && CountUpTo(x, 8) == 0
    ensures x == 0 && Names(s, x, 0) == []
  {
    hide Has, Names, CountUpTo;
    CountBounds(x, 8);
    NoBits(x);
    TakeNone(s, x, 0);
  }

  /** Exactly the required fields that were never seen, in field order; the residue is used up. */
  method Decode(s: Shape, keys: seq<string>) returns (failures: seq<string>, residue: bv8)
    requires ValidShape(s)
    ensures failures == Missing(s, keys, 0)
    ensures residue == 0
  {
    FieldsDiffer(s);
    hide Has, Bit, Names, CountUpTo, TrailingZeros, Missing, Tracks, Fits, ValidShape, Unseen, Reset;
    var seen := SeenBits(s, keys);
    residue := Unseen(seen, s.mask);
    StartOfLoop(s, keys, seen, residue);
    failures := [];
    var missed := OnesCount(residue);
    for bitN := 0 to missed
      invariant CountUpTo(residue, 8) == missed - bitN
      invariant Fits(s, residue)
      invariant failures + Names(s, residue, 0) == Missing(s, keys, 0)
    {
      LowestBit(s, residue);
      ghost var before := failures;
      var bitIdx := TrailingZeros(residue);
      failures := failures + [s.fields[bitIdx]];
      residue := Reset(residue, bitIdx);
      assert failures + Names(s, residue, 0) == before + ([s.fields[bitIdx]] + Names(s, residue, 0));
    }
    EndOfLoop(s, residue);
  }

  lemma {:induction false} TakeNone(s: Shape, x: bv8, from: nat)
    requires from <= |s.fields| <= 8 && forall k :: 0 <= k < 8 ==> !Has(x, k)
    ensures Names(s, x, from) == []
    decreases |s.fields| - from
  {
    hide Has;
    if from == |s.fields| {
    } else {
      TakeNone(s, x, from + 1);
    }
  }

  /** Both decoders have such a shape: the first requires all but the last field, the second leaves out two. */
  lemma {:induction false} ShapesAreValid()
    ensures ValidShape(CONFIG_SAVE_REQ) && ValidShape(NODE_SAVE_REQ)
    ensures forall i :: 0 <= i < 8 ==> (Has(CONFIG_SAVE_REQ.mask, i) <==> i != 7)
    ensures forall i :: 0 <= i < 8 ==> (Has(NODE_SAVE_REQ.mask, i) <==> i in {1, 2, 3, 4, 6})
  {
  }

  /** f is a required field from place from on that is not among the keys. */
  ghost predicate Lacks(s: Shape, keys: seq<string>, from: nat, f: string)
    requires |s.fields| <= 8
  {
    exists i :: from <= i < |s.fields| && s.fields[i] == f && Has(s.mask, i) && f !in keys
  }

  lemma {:induction false} MissingHolds(s: Shape, keys: seq<string>, from: nat)
    requires from <= |s.fields| <= 8
    ensures forall f :: f in Missing(s, keys, from) <==> Lacks(s, keys, from, f)
    decreases |s.fields| - from
  {
    hide Has;
    if from == |s.fields| {
      assert Missing(s, keys, from) == [];
    } else {
      MissingHolds(s, keys, from + 1);
      forall f
        ensures Lacks(s, keys, from, f)
           <==> Lacks(s, keys, from + 1, f) || (s.fields[from] == f && Has(s.mask, from) && f !in keys)
      {
      }
    }
  }

  lemma {:induction false} MissingAscends(s: Shape, keys: seq<string>, from: nat)
    requires ValidShape(s) && from <= |s.fields|
    ensures forall b :: 0 <= b < |Missing(s, keys, from)| ==> from <= FieldIndex(s.fields, Missing(s, keys, from)[b], 0)
    ensures forall a, b :: 0 <= a < b < |Missing(s, keys, from)| ==>
              FieldIndex(s.fields, Missing(s, keys, from)[a], 0) < FieldIndex(s.fields, Missing(s, keys, from)[b], 0)
    decreases |s.fields| - from
  {
    FieldsDiffer(s);
    hide Has, FieldIndex, ValidShape;
    if from == |s.fields| {
      assert Missing(s, keys, from) == [];
    } else {
      MissingAscends(s, keys, from + 1);
      FieldFound(s.fields, from);
    }
  }

  /** The names that occur nowhere among the keys. */
  function Absent(names: seq<string>, keys: seq<string>): seq<string> {
    if names == [] then [] else (if names[0] in keys then [] else [names[0]]) + Absent(names[1..], keys)
  }

  function Required(s: Shape, from: nat): seq<string>
    requires from <= |s.fields| <= 8
    decreases |s.fields| - from
  {
    if from == |s.fields| then [] else (if Has(s.mask, from) then [s.fields[from]] else []) + Required(s, from + 1)
  }

  lemma {:induction false} MissingIsAbsent(s: Shape, keys: seq<string>, from: nat)
    requires from <= |s.fields| <= 8
    ensures Missing(s, keys, from) == Absent(Required(s, from), keys)
    decreases |s.fields| - from
  {
    hide Has;
    if from == |s.fields| {
      assert Required(s, from) == [];
    } else {
      MissingIsAbsent(s, keys, from + 1);
      if Has(s.mask, from) {
        assert Required(s, from)[1..] == Required(s, from + 1);
      } else {
        assert Required(s, from) == Required(s, from + 1);
      }
    }
  }

  /** The save decoder asks for these names, in this order; the user's id may be absent. */
  lemma {:induction false} ConfigSaveAsks(keys: seq<string>)
    ensures Missing(CONFIG_SAVE_REQ, keys, 0) ==
            Absent(["groups", "rules", "providers", "baseYAML", "profileTitle", "filename", "profileUpdateInterval"],
                   keys)
  {
    hide Has, Absent, Missing;
    ShapesAreValid();
    var s := CONFIG_SAVE_REQ;
    MissingIsAbsent(s, keys, 0);
    assert Required(s, 8) == [];
    assert Required(s, 7) == [];
    assert Required(s, 6) == ["profileUpdateInterval"];
    assert Required(s, 5) == ["filename", "profileUpdateInterval"];
    assert Required(s, 4) == ["profileTitle", "filename", "profileUpdateInterval"];
    assert Required(s, 3) == ["baseYAML", "profileTitle", "filename", "profileUpdateInterval"];
    assert Required(s, 2) == ["providers", "baseYAML", "profileTitle", "filename", "profileUpdateInterval"];
    assert Required(s, 1) == ["rules", "providers", "baseYAML", "profileTitle", "filename", "profileUpdateInterval"];
    assert Required(s, 0) ==
           ["groups", "rules", "providers", "baseYAML", "profileTitle", "filename", "profileUpdateInterval"];
  }

  /** The node decoder asks for these; the id and the token may be absent. */
  lemma {:induction false} NodeSaveAsks(keys: seq<string>)
    ensures Missing(NODE_SAVE_REQ, keys, 0) ==
            Absent(["name", "vpnHost", "panelBaseURL", "panelBasePath", "inbounds"], keys)
  {
    hide Has, Absent, Missing;
    ShapesAreValid();
    var s := NODE_SAVE_REQ;
    MissingIsAbsent(s, keys, 0);
    assert Required(s, 7) == [];
    assert Required(s, 6) == ["inbounds"];
    assert Required(s, 5) == ["inbounds"];
    assert Required(s, 4) == ["panelBasePath", "inbounds"];
    assert Required(s, 3) == ["panelBaseURL", "panelBasePath", "inbounds"];
    assert Required(s, 2) == ["vpnHost", "panelBaseURL", "panelBasePath", "inbounds"];
    assert Required(s, 1) == ["name", "vpnHost", "panelBaseURL", "panelBasePath", "inbounds"];
    assert Required(s, 0) == ["name", "vpnHost", "panelBaseURL", "panelBasePath", "inbounds"];
  }

  lemma {:induction false} FieldsDiffer(s: Shape)
    requires ValidShape(s)
    ensures |s.fields| <= 8 && forall i, j :: 0 <= i < j < |s.fields| ==> s.fields[i] != s.fields[j]
  {
  }

  /** What the list of missing fields says, without its recursion. */
  lemma {:induction false} MissingMeans(s: Shape, keys: seq<string>, from: nat)
    requires ValidShape(s) && from <= |s.fields|
    ensures forall f :: f in Missing(s, keys, from) <==>
              exists i :: from <= i < |s.fields| && s.fields[i] == f && Has(s.mask, i) && f !in keys
    ensures forall a, b :: 0 <= a < b < |Missing(s, keys, from)| ==>
              FieldIndex(s.fields, Missing(s, keys, from)[a], 0) < FieldIndex(s.fields, Missing(s, keys, from)[b], 0)
  {
    hide Has, FieldIndex, Missing;
    MissingHolds(s, keys, from);
    MissingAscends(s, keys, from);
    assert forall f :: f in Missing(s, keys, from) <==> Lacks(s, keys, from, f);
  }

  lemma {:induction false} FieldFound(fields: seq<string>, i: nat)
    requires i < |fields| && forall a, b :: 0 <= a < b < |fields| ==> fields[a] != fields[b]
    ensures FieldIndex(fields, fields[i], 0) == i
  {
  }
}
