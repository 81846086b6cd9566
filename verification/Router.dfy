/**
 The generated router. The unrolled switches are one prefix trie: a node cuts its prefix off the
 rest of the path and goes on with the child that begins with the next character. A node in front
 of a parameter route remembers the rest of the path to go back to. The specification is a flat
 table of path patterns in which literal paths take precedence.
 */
module Router {
  import opened Wrappers

  datatype Op =
    | AdminShell | AdminShellView | LoginPage | Healthz | Rules | Sub
    | ConfigGet | ConfigSave | ConfigSchema | ConfigCustoms | CustomCreate | CustomDelete | ProviderCheck
    | Login | Logout | NodesGet | NodeSave | NodeDelete
    | UsersGet | UserCreate | UserDelete | UserEdit | UserRecreate

  // ----- the specification: patterns and a table

  /** An exact path, or a literal part, a parameter up to the next slash, and a pattern for the rest. */
  datatype Pattern = Exact(lit: string) | Param(lit: string, nonEmpty: bool, rest: Pattern)

  /** An operation and the only method it answers to. */
  datatype Endpoint = On(verb: string, op: Op)

  datatype Route = Route(pattern: Pattern, op: Endpoint)

  datatype Hit = Hit(op: Endpoint, args: seq<string>)

  predicate HasPrefix(s: string, p: string) { p <= s }

  /** The place of the first slash, or the length. */
  function SlashIndex(s: string): (i: nat)
    ensures i <= |s| && (i < |s| ==> s[i] == '/') && forall k :: 0 <= k < i ==> s[k] != '/'
  {
    if s == "" || s[0] == '/' then 0 else 1 + SlashIndex(s[1..])
  }

  /** The parameter values with which a path matches a pattern. */
  function Match(p: Pattern, path: string): Option<seq<string>>
    decreases p
  {
    match p
    case Exact(lit) => if path == lit then Some([]) else None
    case Param(lit, nonEmpty, rest) =>
      if !HasPrefix(path, lit) then None
      else
        var tail := path[|lit|..];
        var i := SlashIndex(tail);
        if nonEmpty && i == 0 then None
        else match Match(rest, tail[i..])
             case None => None
             case Some(args) => Some([tail[..i]] + args)
  }

  /** The first route of a table that matches, among the exact ones or among the others. */
  function Find(table: seq<Route>, path: string, exact: bool): Option<Hit> {
    if table == [] then None
    else if table[0].pattern.Exact? == exact && Match(table[0].pattern, path).Some? then
      Some(Hit(table[0].op, Match(table[0].pattern, path).value))
    else Find(table[1..], path, exact)
  }

  function Lookup(table: seq<Route>, path: string): Option<Hit> {
    var literal := Find(table, path, true);
    if literal.Some? then literal else Find(table, path, false)
  }

  const LEAF := Exact("")

  const TABLE: seq<Route> := [
    Route(Exact("/admin"), On("GET", AdminShell)),
    Route(Exact("/admin/api/config/mihomo"), On("GET", ConfigGet)),
    Route(Exact("/admin/api/config/mihomo/custom/create"), On("POST", CustomCreate)),
    Route(Exact("/admin/api/config/mihomo/custom/delete"), On("POST", CustomDelete)),
    Route(Exact("/admin/api/config/mihomo/customs"), On("GET", ConfigCustoms)),
    Route(Exact("/admin/api/config/mihomo/provider/check"), On("POST", ProviderCheck)),
    Route(Exact("/admin/api/config/mihomo/save"), On("POST", ConfigSave)),
    Route(Exact("/admin/api/config/mihomo/schema"), On("GET", ConfigSchema)),
    Route(Exact("/admin/api/login"), On("POST", Login)),
    Route(Exact("/admin/api/logout"), On("POST", Logout)),
    Route(Exact("/admin/api/nodes"), On("GET", NodesGet)),
    Route(Exact("/admin/api/nodes/delete"), On("POST", NodeDelete)),
    Route(Exact("/admin/api/nodes/save"), On("POST", NodeSave)),
    Route(Exact("/admin/api/users"), On("GET", UsersGet)),
    Route(Exact("/admin/api/users/create"), On("POST", UserCreate)),
    Route(Exact("/admin/api/users/delete"), On("POST", UserDelete)),
    Route(Exact("/admin/api/users/edit"), On("POST", UserEdit)),
    Route(Exact("/admin/api/users/recreate"), On("POST", UserRecreate)),
    Route(Exact("/admin/login"), On("GET", LoginPage)),
    Route(Param("/admin/", true, LEAF), On("GET", AdminShellView)),
    Route(Exact("/healthz"), On("GET", Healthz)),
    Route(Param("/rules/", false, LEAF), On("GET", Rules)),
    Route(Param("/sub/", false, Param("/", false, LEAF)), On("GET", Sub))
  ]

  // ----- the trie

  /**
   Static: a literal piece, perhaps with an operation, and children; saves says that the rest of
   the path is kept to go back to. Fallback: a literal piece whose children are tried before a
   leaf parameter. Leaf: a literal piece and a leaf parameter. Segment: a literal piece, a
   parameter up to the next slash, and one child.
   */
  datatype Trie =
    | Static(prefix: string, saves: bool, op: Option<Endpoint>, children: seq<Trie>)
    | Fallback(prefix: string, children: seq<Trie>, view: Endpoint)
    | Leaf(prefix: string, file: Endpoint)
    | Segment(prefix: string, next: Trie)

  /** Served, or fallen out of the switch with what elem then holds. */
  datatype Outcome = Served(op: Endpoint, args: seq<string>) | Fell(elem: string)

  function LeafParam(op: Endpoint, elem: string, args: seq<string>): Outcome {
    if SlashIndex(elem) < |elem| then Fell(elem) else Served(op, args + [elem])
  }

  /** What the code of one case does. */
  function Walk(t: Trie, elem: string, args: seq<string>): Outcome
    decreases t, 1
  {
    if !HasPrefix(elem, t.prefix) then Fell(elem)
    else
      var rest := elem[|t.prefix|..];
      match t
      case Leaf(_, file) => LeafParam(file, rest, args)
      case Segment(_, next) =>
        var i := SlashIndex(rest);
        if i == |rest| then Fell("")
        else if HasPrefix(next.prefix, [rest[i]]) then Walk(next, rest[i..], args + [rest[..i]])
        else Fell(rest[i..])
      case Fallback(_, children, view) =>
        if rest == "" then Fell("")
        else (match WalkAll(children, rest, args)
              case Served(op, a) => Served(op, a)
              case Fell(e) => LeafParam(view, e, args))
      case Static(_, saves, op, children) =>
        if rest == "" then (if op.Some? then Served(op.value, args) else Fell(""))
        else (match WalkAll(children, rest, args)
              case Served(o, a) => Served(o, a)
              case Fell(e) => Fell(if saves then elem else e))
  }

  /** The switch over the next character. */
  function WalkAll(ts: seq<Trie>, elem: string, args: seq<string>): Outcome
    requires elem != ""
    decreases ts, 0
  {
    if ts == [] then Fell(elem)
    else if HasPrefix(ts[0].prefix, [elem[0]]) then Walk(ts[0], elem, args)
    else WalkAll(ts[1..], elem, args)
  }

  /** The same case in the form of the generated code: elem is reassigned, origElem saved and restored. */
  method Search(t: Trie, path: string, args: seq<string>) returns (r: Outcome)
    ensures r == Walk(t, path, args)
    decreases t, 1
  {
    var elem := path;
    var origElem := elem;
    if !HasPrefix(elem, t.prefix) {
      return Fell(elem);
    }
    elem := elem[|t.prefix|..];
    match t {
      case Leaf(_, file) =>
        r := LeafParam(file, elem, args);
      case Segment(_, next) =>
        var idx := SlashIndex(elem);
        var args' := args + [elem[..idx]];
        elem := elem[idx..];
        if elem == "" {
          return Fell(elem);
        }
        if HasPrefix(next.prefix, [elem[0]]) {
          r := Search(next, elem, args');
        } else {
          r := Fell(elem);
        }
      case Fallback(_, children, view) =>
        if elem == "" {
          return Fell(elem);
        }
        r := SearchAll(children, elem, args);
        if r.Fell? {
          elem := r.elem;
          r := LeafParam(view, elem, args);
        }
      case Static(_, saves, op, children) =>
        if elem == "" {
          return if op.Some? then Served(op.value, args) else Fell(elem);
        }
        r := SearchAll(children, elem, args);
        if r.Fell? {
          elem := r.elem;
          if saves {
            elem := origElem;
          }
          r := Fell(elem);
        }
    }
  }

  method SearchAll(ts: seq<Trie>, elem: string, args: seq<string>) returns (r: Outcome)
    requires elem != ""
    ensures r == WalkAll(ts, elem, args)
    decreases ts, 0
  {
    if ts == [] {
      return Fell(elem);
    }
    if HasPrefix(ts[0].prefix, [elem[0]]) {
      r := Search(ts[0], elem, args);
    } else {
      r := SearchAll(ts[1..], elem, args);
    }
  }

  // ----- the routes of a trie

  function Prepend(p: string, pattern: Pattern): Pattern {
    match pattern
    case Exact(lit) => Exact(p + lit)
    case Param(lit, nonEmpty, rest) => Param(p + lit, nonEmpty, rest)
  }

  function Shift(p: string, table: seq<Route>): (shifted: seq<Route>)
    ensures |shifted| == |table|
  {
    seq(|table|, k requires 0 <= k < |table| => Route(Prepend(p, table[k].pattern), table[k].op))
  }

  /** The routes below a node, in trie order. */
  function Routes(t: Trie): seq<Route>
    decreases t, 1
  {
    match t
    case Leaf(prefix, file) => [Route(Param(prefix, false, LEAF), file)]
    case Segment(prefix, next) =>
      (match next
       case Leaf(slash, file) => [Route(Param(prefix, false, Param(slash, false, LEAF)), file)]
       case _ => [])
    case Fallback(prefix, children, view) =>
      Shift(prefix, RoutesAll(children)) + [Route(Param(prefix, true, LEAF), view)]
    case Static(prefix, _, op, children) =>
      (if op.Some? then [Route(Exact(prefix), op.value)] else []) + Shift(prefix, RoutesAll(children))
  }

  function RoutesAll(ts: seq<Trie>): seq<Route>
    decreases ts, 0
  {
    if ts == [] then [] else Routes(ts[0]) + RoutesAll(ts[1..])
  }

  predicate Literal(table: seq<Route>) {
    forall k :: 0 <= k < |table| ==> table[k].pattern.Exact?
  }

  /** What the generator guarantees of its tries. */
  ghost predicate WellFormed(t: Trie)
    decreases t, 1
  {
    && t.prefix != ""
    && match t
       case Leaf(_, _) => true
       case Segment(_, next) => next.Leaf? && next.prefix != "" && next.prefix[0] == '/'
       case Fallback(_, children, _) =>
         WellFormedAll(children) && Literal(RoutesAll(children)) && forall c :: c in children ==> c.Static? && c.saves
       case Static(_, _, _, children) => WellFormedAll(children)
  }

  /** Siblings begin with different characters. */
  ghost predicate WellFormedAll(ts: seq<Trie>)
    decreases ts, 0
  {
    ts == [] ||
    (WellFormed(ts[0]) && WellFormedAll(ts[1..])
     && forall k :: 0 < k < |ts| ==> ts[k].prefix != "" && ts[k].prefix[0] != ts[0].prefix[0])
  }

  /**
   Where the generated code strays: right below a fallback, a path that ends with the prefix of a
   child without an operation leaves the switch by a break, past the assignment that restores elem.
   */
  ghost predicate Strays(t: Trie, elem: string)
    decreases t, 1
  {
    && HasPrefix(elem, t.prefix) && elem != t.prefix
    && match t
       case Static(prefix, _, _, children) => StraysBelow(children, elem[|prefix|..])
       case Fallback(prefix, children, _) =>
         exists c :: c in children && c.Static? && c.op.None? && elem == prefix + c.prefix
       case Leaf(_, _) => false
       case Segment(_, _) => false
  }

  ghost predicate StraysBelow(ts: seq<Trie>, elem: string)
    decreases ts, 0
  {
    ts != [] && (Strays(ts[0], elem) || StraysBelow(ts[1..], elem))
  }

  // ----- lookups in composed tables

  lemma {:induction false} FindConcat(a: seq<Route>, b: seq<Route>, path: string, exact: bool)
    ensures Find(a + b, path, exact) ==
            if Find(a, path, exact).Some? then Find(a, path, exact) else Find(b, path, exact)
  {
    if a == [] {
      assert a + b == b;
    } else {
      FindConcat(a[1..], b, path, exact);
      assert (a + b)[1..] == a[1..] + b;
    }
  }

  lemma {:induction false} PrependMatches(p: string, pattern: Pattern, path: string)
    ensures Match(Prepend(p, pattern), path) == if HasPrefix(path, p) then Match(pattern, path[|p|..]) else None
  {
    if HasPrefix(path, p) {
      var rest := path[|p|..];
      assert path == p + rest;
      match pattern {
        case Exact(lit) =>
          assert path == p + lit <==> rest == lit by {
            if path == p + lit { assert rest == (p + lit)[|p|..] == lit; }
          }
        case Param(lit, nonEmpty, tail) =>
          assert HasPrefix(path, p + lit) <==> HasPrefix(rest, lit) by {
            if HasPrefix(path, p + lit) { assert rest[..|lit|] == (p + lit)[|p|..] == lit; }
            if HasPrefix(rest, lit) { assert path[..|p + lit|] == p + lit; }
          }
          if HasPrefix(rest, lit) {
            assert path[|p + lit|..] == rest[|lit|..];
          }
      }
    } else {
      match pattern {
        case Exact(lit) => assert HasPrefix(p + lit, p);
        case Param(lit, _, _) => assert HasPrefix(p + lit, p);
      }
    }
  }

  lemma {:induction false} ShiftFinds(p: string, table: seq<Route>, path: string, exact: bool)
    ensures Find(Shift(p, table), path, exact) == if HasPrefix(path, p) then Find(table, path[|p|..], exact) else None
  {
    hide Match;
    if table == [] {
    } else {
      PrependMatches(p, table[0].pattern, path);
      ShiftFinds(p, table[1..], path, exact);
      assert Shift(p, table)[1..] == Shift(p, table[1..]);
    }
  }

  /** A node's routes all begin with its prefix. */
  lemma {:induction false} OnlyBehindPrefix(t: Trie, path: string, exact: bool)
    requires !HasPrefix(path, t.prefix)
    ensures Find(Routes(t), path, exact) == None
  {
    match t {
      case Leaf(prefix, file) =>
      case Segment(prefix, next) =>
      case Fallback(prefix, children, view) =>
        ShiftFinds(prefix, RoutesAll(children), path, exact);
        FindConcat(Shift(prefix, RoutesAll(children)), [Route(Param(prefix, true, LEAF), view)], path, exact);
        FindOne(Route(Param(prefix, true, LEAF), view), path, exact);
      case Static(prefix, _, op, children) =>
        ShiftFinds(prefix, RoutesAll(children), path, exact);
        if op.Some? {
          FindOne(Route(Exact(prefix), op.value), path, exact);
          FindConcat([Route(Exact(prefix), op.value)], Shift(prefix, RoutesAll(children)), path, exact);
        } else {
          assert Routes(t) == Shift(prefix, RoutesAll(children));
        }
    }
  }

  lemma {:induction false} FindOne(route: Route, path: string, exact: bool)
    ensures Find([route], path, exact) ==
            if route.pattern.Exact? == exact && Match(route.pattern, path).Some?
            then Some(Hit(route.op, Match(route.pattern, path).value))
            else None
  {
    hide Match;
    assert [route][1..] == [];
  }

  lemma {:induction false} NothingBehind(ts: seq<Trie>, path: string, exact: bool)
    requires forall t :: t in ts ==> !HasPrefix(path, t.prefix)
    ensures Find(RoutesAll(ts), path, exact) == None
  {
    hide Routes, Match;
    if ts == [] {
    } else {
      OnlyBehindPrefix(ts[0], path, exact);
      NothingBehind(ts[1..], path, exact);
      FindConcat(Routes(ts[0]), RoutesAll(ts[1..]), path, exact);
    }
  }

  // ----- the walk is the lookup

  /** What a walk shows of a lookup. */
  ghost predicate Shows(r: Outcome, hit: Option<Hit>, args: seq<string>) {
    match hit
    case Some(h) => r == Served(h.op, args + h.args)
    case None => r.Fell?
  }

  lemma {:induction false} LookupConcat(a: seq<Route>, b: seq<Route>, path: string)
    requires Lookup(a, path) == None || Lookup(b, path) == None
    ensures Lookup(a + b, path) == if Lookup(a, path).Some? then Lookup(a, path) else Lookup(b, path)
  {
    hide Find;
    FindConcat(a, b, path, true);
    FindConcat(a, b, path, false);
  }

  lemma {:induction false} LookupShift(p: string, table: seq<Route>, path: string)
    ensures Lookup(Shift(p, table), path) == if HasPrefix(path, p) then Lookup(table, path[|p|..]) else None
  {
    hide Find;
    ShiftFinds(p, table, path, true);
    ShiftFinds(p, table, path, false);
  }

  lemma {:induction false} LookupOne(route: Route, path: string)
    ensures Lookup([route], path) ==
            match Match(route.pattern, path) case Some(a) => Some(Hit(route.op, a)) case None => None
  {
    hide Match, Find;
    FindOne(route, path, true);
    FindOne(route, path, false);
  }

  lemma {:induction false} LeafWalk(t: Trie, elem: string, args: seq<string>)
    requires WellFormed(t) && t.Leaf?
    ensures Shows(Walk(t, elem, args), Lookup(Routes(t), elem), args)
  {
    hide Lookup;
    LookupOne(Route(Param(t.prefix, false, LEAF), t.file), elem);
    if HasPrefix(elem, t.prefix) {
      var rest := elem[|t.prefix|..];
      assert rest[..|rest|] == rest;
    }
  }

  /** A literal piece and a parameter that takes the whole rest, which must hold no slash. */
  lemma {:induction false} LeafMatch(lit: string, path: string)
    ensures Match(Param(lit, false, LEAF), path) ==
            if HasPrefix(path, lit) && SlashIndex(path[|lit|..]) == |path| - |lit| then Some([path[|lit|..]]) else None
  {
    if HasPrefix(path, lit) {
      var rest := path[|lit|..];
      var i := SlashIndex(rest);
      assert Match(LEAF, rest[i..]) == if i == |rest| then Some([]) else None;
      assert rest[..|rest|] == rest && [rest] + [] == [rest];
    }
  }

  lemma {:induction false} SegmentWalk(t: Trie, elem: string, args: seq<string>)
    requires WellFormed(t) && t.Segment?
    ensures Shows(Walk(t, elem, args), Lookup(Routes(t), elem), args)
  {
    hide Lookup, SlashIndex;
    var inner := Param(t.next.prefix, false, LEAF);
    LookupOne(Route(Param(t.prefix, false, inner), t.next.file), elem);
    if HasPrefix(elem, t.prefix) {
      var rest := elem[|t.prefix|..];
      var i := SlashIndex(rest);
      LeafMatch(t.next.prefix, rest[i..]);
      if i < |rest| && HasPrefix(rest[i..], t.next.prefix) {
        var token := rest[i..][|t.next.prefix|..];
        assert args + [rest[..i]] + [token] == args + ([rest[..i]] + [token]);
      }
    }
  }

  lemma {:induction false} StaticWalk(t: Trie, elem: string, args: seq<string>)
    requires WellFormed(t) && t.Static?
    ensures Shows(Walk(t, elem, args), Lookup(Routes(t), elem), args)
       <==> (HasPrefix(elem, t.prefix) && elem != t.prefix ==>
               var rest := elem[|t.prefix|..];
               rest != "" && Shows(WalkAll(t.children, rest, args), Lookup(RoutesAll(t.children), rest), args))
  {
    hide Lookup, WalkAll, RoutesAll, Strays;
    var below := Shift(t.prefix, RoutesAll(t.children));
    LookupShift(t.prefix, RoutesAll(t.children), elem);
    if elem == t.prefix {
      assert elem[|t.prefix|..] == "";
      NothingAtEnd(t.children);
    }
    if t.op.Some? {
      LookupOne(Route(Exact(t.prefix), t.op.value), elem);
      LookupConcat([Route(Exact(t.prefix), t.op.value)], below, elem);
      assert args + [] == args;
    } else {
      assert Routes(t) == below;
    }
  }

  /** No pattern of a well-formed list of tries matches the empty path. */
  lemma {:induction false} NothingAtEnd(ts: seq<Trie>)
    requires WellFormedAll(ts)
    ensures Lookup(RoutesAll(ts), "") == None
  {
    PrefixesNonEmpty(ts);
    NothingBehind(ts, "", true);
    NothingBehind(ts, "", false);
  }

  lemma {:induction false} PrefixesNonEmpty(ts: seq<Trie>)
    requires WellFormedAll(ts)
    ensures forall t :: t in ts ==> t.prefix != "" && WellFormed(t)
  {
    if ts == [] {
    } else {
      PrefixesNonEmpty(ts[1..]);
      assert ts == [ts[0]] + ts[1..];
    }
  }

  lemma {:induction false} LiteralFindsExact(table: seq<Route>, path: string)
    requires Literal(table)
    ensures Find(table, path, false) == None && Lookup(table, path) == Find(table, path, true)
  {
    hide Match;
    if table == [] {
    } else {
      LiteralFindsExact(table[1..], path);
    }
  }

  /** When all children save the path, falling out of their switch leaves it as it was, but for one break. */
  lemma {:induction false} SavedPath(ts: seq<Trie>, elem: string, args: seq<string>)
    requires elem != "" && forall c :: c in ts ==> c.Static? && c.saves && !(c.op.None? && elem == c.prefix)
    ensures WalkAll(ts, elem, args).Fell? ==> WalkAll(ts, elem, args) == Fell(elem)
  {
    if ts == [] {
    } else {
      assert ts[0] in ts;
      SavedPath(ts[1..], elem, args);
      if HasPrefix(elem, ts[0].prefix) && elem[|ts[0].prefix|..] == "" {
        assert elem == ts[0].prefix;
      }
    }
  }

  lemma {:induction false} FallbackWalk(t: Trie, elem: string, args: seq<string>)
    requires WellFormed(t) && t.Fallback? && !Strays(t, elem)
    requires HasPrefix(elem, t.prefix) && elem != t.prefix ==>
               Shows(WalkAll(t.children, elem[|t.prefix|..], args), Lookup(RoutesAll(t.children), elem[|t.prefix|..]),
                     args)
    ensures Shows(Walk(t, elem, args), Lookup(Routes(t), elem), args)
  {
    hide WalkAll, RoutesAll, Find;
    var below, view := Shift(t.prefix, RoutesAll(t.children)), Route(Param(t.prefix, true, LEAF), t.view);
    FindConcat(below, [view], elem, true);
    FindConcat(below, [view], elem, false);
    ShiftFinds(t.prefix, RoutesAll(t.children), elem, true);
    ShiftFinds(t.prefix, RoutesAll(t.children), elem, false);
    FindOne(view, elem, true);
    FindOne(view, elem, false);
    if HasPrefix(elem, t.prefix) {
      var rest := elem[|t.prefix|..];
      assert elem == t.prefix + rest;
      LiteralFindsExact(RoutesAll(t.children), rest);
      if rest == "" {
        NothingAtEnd(t.children);
      } else {
        SavedPath(t.children, rest, args);
        assert rest[..|rest|] == rest;
      }
    }
  }

  /** On a stray path the view is served with an empty argument; the table knows no such argument. */
  lemma {:induction false} FallbackStrays(t: Trie, elem: string, args: seq<string>)
    requires WellFormed(t) && t.Fallback? && Strays(t, elem)
    ensures !Shows(Walk(t, elem, args), Lookup(Routes(t), elem), args)
  {
    hide Lookup, Routes, WalkAll;
    var c :| c in t.children && c.op.None? && elem == t.prefix + c.prefix;
    assert elem[|t.prefix|..] == c.prefix;
    PrefixesNonEmpty(t.children);
    LeavesEarly(t.children, c, args);
    assert Walk(t, elem, args) == Served(t.view, args + [""]);
    FallbackArgs(t, elem);
    var hit := Lookup(Routes(t), elem);
    if hit.Some? {
      var found := hit.value.args;
      assert (args + [""])[|args|..] == [""] && (args + found)[|args|..] == found;
    }
  }

  /** The break after the prefix of a child without an operation, among its siblings. */
  lemma {:induction false} LeavesEarly(ts: seq<Trie>, c: Trie, args: seq<string>)
    requires WellFormedAll(ts) && c in ts && c.Static? && c.op.None? && c.prefix != ""
    ensures WalkAll(ts, c.prefix, args) == Fell("")
  {
    if c == ts[0] {
      assert c.prefix[|c.prefix|..] == "";
    } else {
      var k :| 0 <= k < |ts| && ts[k] == c;
      assert c.prefix[0] != ts[0].prefix[0];
      assert ts[1..][k - 1] == c;
      LeavesEarly(ts[1..], c, args);
    }
  }

  /** A fallback has routes without arguments and one with a non-empty argument. */
  lemma {:induction false} FallbackArgs(t: Trie, elem: string)
    requires WellFormed(t) && t.Fallback?
    ensures Lookup(Routes(t), elem).Some? ==> Lookup(Routes(t), elem).value.args != [""]
  {
    hide RoutesAll, Find;
    var below, view := Shift(t.prefix, RoutesAll(t.children)), Route(Param(t.prefix, true, LEAF), t.view);
    ExactArgs(Routes(t), elem);
    FindConcat(below, [view], elem, false);
    ShiftFinds(t.prefix, RoutesAll(t.children), elem, false);
    if HasPrefix(elem, t.prefix) {
      LiteralFindsExact(RoutesAll(t.children), elem[|t.prefix|..]);
    }
    FindOne(view, elem, false);
    if Match(view.pattern, elem).Some? {
      assert Match(view.pattern, elem).value[0] != "";
    }
  }

  lemma {:induction false} ExactArgs(table: seq<Route>, path: string)
    ensures Find(table, path, true).Some? ==> Find(table, path, true).value.args == []
  {
    if table == [] {
    } else {
      ExactArgs(table[1..], path);
    }
  }

  lemma {:induction false} FallbackIsNotLiteral(t: Trie)
    requires t.Fallback?
    ensures !Literal(Routes(t))
  {
    var routes := Routes(t);
    assert !routes[|routes| - 1].pattern.Exact?;
  }

  lemma {:induction false} LiteralNeverStrays(t: Trie, elem: string)
    requires WellFormed(t) && Literal(Routes(t))
    ensures !Strays(t, elem)
    decreases t, 1
  {
    match t {
      case Static(prefix, _, op, children) =>
        ShiftLiteral(prefix, RoutesAll(children), if op.Some? then [Route(Exact(prefix), op.value)] else []);
        if HasPrefix(elem, prefix) {
          LiteralNeverStraysBelow(children, elem[|prefix|..]);
        }
      case Fallback(prefix, children, view) =>
        FallbackIsNotLiteral(t);
      case Leaf(_, _) =>
      case Segment(_, _) =>
    }
  }

  lemma {:induction false} LiteralNeverStraysBelow(ts: seq<Trie>, elem: string)
    requires WellFormedAll(ts) && Literal(RoutesAll(ts))
    ensures !StraysBelow(ts, elem)
    decreases ts, 0
  {
    if ts == [] {
    } else {
      var a, b := Routes(ts[0]), RoutesAll(ts[1..]);
      assert forall k :: 0 <= k < |a| ==> (a + b)[k] == a[k];
      assert forall k :: 0 <= k < |b| ==> (a + b)[|a| + k] == b[k];
      LiteralNeverStrays(ts[0], elem);
      LiteralNeverStraysBelow(ts[1..], elem);
    }
  }

  lemma {:induction false} ShiftLiteral(p: string, table: seq<Route>, before: seq<Route>)
    requires Literal(before + Shift(p, table))
    ensures Literal(table)
    decreases |table|
  {
    if table == [] {
    } else {
      var shifted := before + Shift(p, table);
      assert shifted[|before|] == Route(Prepend(p, table[0].pattern), table[0].op);
      assert before + Shift(p, table) == (before + [Shift(p, table)[0]]) + Shift(p, table[1..]);
      ShiftLiteral(p, table[1..], before + [Shift(p, table)[0]]);
    }
  }

  /**
   Walking a well-formed trie is looking its routes up, literal paths first, exactly off the
   stray paths.
   */
  lemma {:induction false} WalkIsLookup(t: Trie, elem: string, args: seq<string>)
    requires WellFormed(t)
    ensures Shows(Walk(t, elem, args), Lookup(Routes(t), elem), args) <==> !Strays(t, elem)
    decreases t, 1
  {
    hide Lookup, Walk, WalkAll, Routes, RoutesAll;
    match t {
      case Leaf(_, _) => LeafWalk(t, elem, args);
      case Segment(_, _) => SegmentWalk(t, elem, args);
      case Fallback(prefix, children, _) =>
        if Strays(t, elem) {
          FallbackStrays(t, elem, args);
        } else {
          if HasPrefix(elem, prefix) && elem != prefix {
            var rest := elem[|prefix|..];
            assert elem == prefix + rest;
            LiteralNeverStraysBelow(children, rest);
            WalkAllIsLookup(children, rest, args);
          }
          FallbackWalk(t, elem, args);
        }
      case Static(prefix, _, _, children) =>
        if HasPrefix(elem, prefix) && elem != prefix {
          var rest := elem[|prefix|..];
          assert elem == prefix + rest;
          WalkAllIsLookup(children, rest, args);
        }
        StaticWalk(t, elem, args);
    }
  }

  lemma {:induction false} WalkAllIsLookup(ts: seq<Trie>, elem: string, args: seq<string>)
    requires WellFormedAll(ts) && elem != ""
    ensures Shows(WalkAll(ts, elem, args), Lookup(RoutesAll(ts), elem), args) <==> !StraysBelow(ts, elem)
    decreases ts, 0
  {
    hide Lookup, Walk, Routes, Find, Strays;
    if ts == [] {
      NothingInEmpty(elem);
    } else {
      var a, b := Routes(ts[0]), RoutesAll(ts[1..]);
      PrefixesNonEmpty(ts);
      assert ts[0] in ts;
      if HasPrefix(ts[0].prefix, [elem[0]]) {
        WalkIsLookup(ts[0], elem, args);
        OthersSilent(ts, elem);
        StraysBehindPrefix(ts[1..], elem);
        LookupConcat(a, b, elem);
      } else {
        NotBehind(ts[0], elem);
        assert !Strays(ts[0], elem) by { OnlyStraysBehindPrefix(ts[0], elem); }
        WalkAllIsLookup(ts[1..], elem, args);
        LookupConcat(a, b, elem);
      }
    }
  }

  lemma {:induction false} NothingInEmpty(path: string)
    ensures Lookup(RoutesAll([]), path) == None
  {
  }

  lemma {:induction false} NotBehind(t: Trie, elem: string)
    requires t.prefix != "" && elem != "" && !HasPrefix(t.prefix, [elem[0]])
    ensures Lookup(Routes(t), elem) == None
  {
    assert !HasPrefix(elem, t.prefix);
    OnlyBehindPrefix(t, elem, true);
    OnlyBehindPrefix(t, elem, false);
  }

  lemma {:induction false} OnlyStraysBehindPrefix(t: Trie, elem: string)
    ensures Strays(t, elem) ==> HasPrefix(elem, t.prefix)
  {
  }

  lemma {:induction false} StraysBehindPrefix(ts: seq<Trie>, elem: string)
    requires forall t :: t in ts ==> !HasPrefix(elem, t.prefix)
    ensures !StraysBelow(ts, elem)
  {
    hide Strays;
    if ts == [] {
    } else {
      OnlyStraysBehindPrefix(ts[0], elem);
      StraysBehindPrefix(ts[1..], elem);
    }
  }

  lemma {:induction false} OthersSilent(ts: seq<Trie>, elem: string)
    requires WellFormedAll(ts) && ts != [] && elem != "" && HasPrefix(ts[0].prefix, [elem[0]])
    ensures Lookup(RoutesAll(ts[1..]), elem) == None
    ensures forall t :: t in ts[1..] ==> !HasPrefix(elem, t.prefix)
  {
    hide Find, RoutesAll;
    forall t | t in ts[1..] ensures !HasPrefix(elem, t.prefix) {
      var k :| 0 <= k < |ts[1..]| && ts[1..][k] == t;
      assert ts[k + 1] == t;
    }
    NothingBehind(ts[1..], elem, true);
    NothingBehind(ts[1..], elem, false);
  }

  // ----- the generated trie

  function End(prefix: string, op: Endpoint): Trie { Static(prefix, false, Some(op), []) }

  const CUSTOM := Static("custom", false, None, [
    Static("/", false, None, [End("create", On("POST", CustomCreate)), End("delete", On("POST", CustomDelete))]),
    End("s", On("GET", ConfigCustoms))])

  const CONFIG := Static("config/mihomo", false, Some(On("GET", ConfigGet)), [
    Static("/", false, None, [
      CUSTOM,
      End("provider/check", On("POST", ProviderCheck)),
      Static("s", false, None, [End("ave", On("POST", ConfigSave)), End("chema", On("GET", ConfigSchema))])])])

  const LOG := Static("log", false, None, [End("in", On("POST", Login)), End("out", On("POST", Logout))])

  const NODES := Static("nodes", false, Some(On("GET", NodesGet)), [
    Static("/", false, None, [End("delete", On("POST", NodeDelete)), End("save", On("POST", NodeSave))])])

  const USERS := Static("users", false, Some(On("GET", UsersGet)), [
    Static("/", false, None, [
      End("create", On("POST", UserCreate)), End("delete", On("POST", UserDelete)),
      End("edit", On("POST", UserEdit)), End("recreate", On("POST", UserRecreate))])])

  const API := Static("api/", true, None, [CONFIG, LOG, NODES, USERS])

  const ADMIN := Static("admin", false, Some(On("GET", AdminShell)), [
    Fallback("/", [API, Static("login", true, Some(On("GET", LoginPage)), [])], On("GET", AdminShellView))])

  const ROOT := Static("/", false, None, [
    ADMIN, End("healthz", On("GET", Healthz)), Leaf("rules/", On("GET", Rules)),
    Segment("sub/", Leaf("/", On("GET", Sub)))])

  lemma {:induction false} EndRoutes(prefix: string, op: Endpoint)
    ensures Routes(End(prefix, op)) == [Route(Exact(prefix), op)]
  {
  }

  lemma {:induction false} RoutesOfOne(a: Trie)
    ensures RoutesAll([a]) == Routes(a)
  {
    assert [a][1..] == [];
  }

  lemma {:induction false} RoutesOfTwo(a: Trie, b: Trie)
    ensures RoutesAll([a, b]) == Routes(a) + Routes(b)
  {
    RoutesOfOne(b);
    assert [a, b][1..] == [b];
  }

  lemma {:induction false} RoutesOfThree(a: Trie, b: Trie, c: Trie)
    ensures RoutesAll([a, b, c]) == Routes(a) + Routes(b) + Routes(c)
  {
    RoutesOfTwo(b, c);
    assert [a, b, c][1..] == [b, c];
  }

  lemma {:induction false} RoutesOfFour(a: Trie, b: Trie, c: Trie, d: Trie)
    ensures RoutesAll([a, b, c, d]) == Routes(a) + Routes(b) + Routes(c) + Routes(d)
  {
    RoutesOfThree(b, c, d);
    assert [a, b, c, d][1..] == [b, c, d];
  }

  lemma {:induction false} StaticRoutes(t: Trie)
    requires t.Static?
    ensures Routes(t) ==
            (if t.op.Some? then [Route(Exact(t.prefix), t.op.value)] else []) + Shift(t.prefix, RoutesAll(t.children))
  {
  }

  lemma {:induction false} CustomRoutes()
    ensures Routes(CUSTOM) == [
      Route(Exact("custom/create"), On("POST", CustomCreate)), Route(Exact("custom/delete"), On("POST", CustomDelete)),
      Route(Exact("customs"), On("GET", ConfigCustoms))]
  {
    hide Routes, RoutesAll;
    EndRoutes("create", On("POST", CustomCreate));
    EndRoutes("delete", On("POST", CustomDelete));
    EndRoutes("s", On("GET", ConfigCustoms));
    RoutesOfTwo(End("create", On("POST", CustomCreate)), End("delete", On("POST", CustomDelete)));
    StaticRoutes(CUSTOM.children[0]);
    RoutesOfTwo(CUSTOM.children[0], End("s", On("GET", ConfigCustoms)));
    StaticRoutes(CUSTOM);
    assert "/" + "create" == "/create";
    assert "/" + "delete" == "/delete";
    assert "custom" + "/create" == "custom/create";
    assert "custom" + "/delete" == "custom/delete";
    assert "custom" + "s" == "customs";
  }

  lemma {:induction false} SaveRoutes()
    ensures Routes(CONFIG.children[0].children[2]) ==
            [Route(Exact("save"), On("POST", ConfigSave)), Route(Exact("schema"), On("GET", ConfigSchema))]
  {
    hide Routes, RoutesAll;
    EndRoutes("ave", On("POST", ConfigSave));
    EndRoutes("chema", On("GET", ConfigSchema));
    RoutesOfTwo(End("ave", On("POST", ConfigSave)), End("chema", On("GET", ConfigSchema)));
    StaticRoutes(CONFIG.children[0].children[2]);
    assert "s" + "ave" == "save";
    assert "s" + "chema" == "schema";
  }

  lemma {:induction false} ConfigBelowRoutes()
    ensures RoutesAll(CONFIG.children[0].children) == [
      Route(Exact("custom/create"), On("POST", CustomCreate)),
      Route(Exact("custom/delete"), On("POST", CustomDelete)),
      Route(Exact("customs"), On("GET", ConfigCustoms)),
      Route(Exact("provider/check"), On("POST", ProviderCheck)),
      Route(Exact("save"), On("POST", ConfigSave)),
      Route(Exact("schema"), On("GET", ConfigSchema))]
  {
    hide Routes, RoutesAll;
    CustomRoutes();
    SaveRoutes();
    EndRoutes("provider/check", On("POST", ProviderCheck));
    RoutesOfThree(CUSTOM, End("provider/check", On("POST", ProviderCheck)), CONFIG.children[0].children[2]);
  }

  lemma {:induction false} LogRoutes()
    ensures Routes(LOG) == [Route(Exact("login"), On("POST", Login)), Route(Exact("logout"), On("POST", Logout))]
  {
    hide Routes, RoutesAll;
    EndRoutes("in", On("POST", Login));
    EndRoutes("out", On("POST", Logout));
    RoutesOfTwo(End("in", On("POST", Login)), End("out", On("POST", Logout)));
    StaticRoutes(LOG);
    assert "log" + "in" == "login";
    assert "log" + "out" == "logout";
  }

  lemma {:induction false} NodesRoutes()
    ensures Routes(NODES) == [
      Route(Exact("nodes"), On("GET", NodesGet)), Route(Exact("nodes/delete"), On("POST", NodeDelete)),
      Route(Exact("nodes/save"), On("POST", NodeSave))]
  {
    hide Routes, RoutesAll;
    EndRoutes("delete", On("POST", NodeDelete));
    EndRoutes("save", On("POST", NodeSave));
    RoutesOfTwo(End("delete", On("POST", NodeDelete)), End("save", On("POST", NodeSave)));
    StaticRoutes(NODES.children[0]);
    RoutesOfOne(NODES.children[0]);
    StaticRoutes(NODES);
    assert "/" + "delete" == "/delete";
    assert "/" + "save" == "/save";
    assert "nodes" + "/delete" == "nodes/delete";
    assert "nodes" + "/save" == "nodes/save";
  }

  lemma {:induction false} UsersRoutes()
    ensures Routes(USERS) == [
      Route(Exact("users"), On("GET", UsersGet)), Route(Exact("users/create"), On("POST", UserCreate)),
      Route(Exact("users/delete"), On("POST", UserDelete)), Route(Exact("users/edit"), On("POST", UserEdit)),
      Route(Exact("users/recreate"), On("POST", UserRecreate))]
  {
    hide Routes, RoutesAll;
    EndRoutes("create", On("POST", UserCreate));
    EndRoutes("delete", On("POST", UserDelete));
    EndRoutes("edit", On("POST", UserEdit));
    EndRoutes("recreate", On("POST", UserRecreate));
    RoutesOfFour(End("create", On("POST", UserCreate)), End("delete", On("POST", UserDelete)),
                 End("edit", On("POST", UserEdit)), End("recreate", On("POST", UserRecreate)));
    StaticRoutes(USERS.children[0]);
    RoutesOfOne(USERS.children[0]);
    StaticRoutes(USERS);
    assert "/" + "create" == "/create";
    assert "/" + "delete" == "/delete";
    assert "/" + "edit" == "/edit";
    assert "/" + "recreate" == "/recreate";
    assert "users" + "/create" == "users/create";
    assert "users" + "/delete" == "users/delete";
    assert "users" + "/edit" == "users/edit";
    assert "users" + "/recreate" == "users/recreate";
  }

  lemma {:induction false} ShiftTwice(p: string, q: string, table: seq<Route>)
    ensures Shift(p, Shift(q, table)) == Shift(p + q, table)
  {
    forall k | 0 <= k < |table| ensures Prepend(p, Prepend(q, table[k].pattern)) == Prepend(p + q, table[k].pattern) {
      match table[k].pattern {
        case Exact(lit) => assert p + (q + lit) == p + q + lit;
        case Param(lit, _, _) => assert p + (q + lit) == p + q + lit;
      }
    }
  }

  lemma {:induction false} ShiftConcat(p: string, a: seq<Route>, b: seq<Route>)
    ensures Shift(p, a + b) == Shift(p, a) + Shift(p, b)
  {
  }

  lemma {:induction false} ConfigTable()
    ensures Shift("/admin/api/", Routes(CONFIG)) == TABLE[1..8]
  {
    hide Routes, RoutesAll, Shift;
    var slash := CONFIG.children[0];
    var own, below := [Route(Exact("config/mihomo"), On("GET", ConfigGet))], RoutesAll(slash.children);
    StaticRoutes(CONFIG);
    RoutesOfOne(slash);
    StaticRoutes(slash);
    assert CONFIG.children == [slash] && Routes(slash) == Shift("/", below);
    ShiftConcat("/admin/api/", own, Shift("config/mihomo", Shift("/", below)));
    ShiftTwice("config/mihomo", "/", below);
    ShiftTwice("/admin/api/", "config/mihomo" + "/", below);
    assert "/admin/api/" + ("config/mihomo" + "/") == "/admin/api/config/mihomo/";
    ConfigOwn(own);
    ConfigBelowTable();
    assert TABLE[1..8] == [TABLE[1]] + TABLE[2..8];
  }

  lemma {:induction false} ConfigOwn(own: seq<Route>)
    requires own == [Route(Exact("config/mihomo"), On("GET", ConfigGet))]
    ensures Shift("/admin/api/", own) == [TABLE[1]]
  {
    assert "/admin/api/" + "config/mihomo" == "/admin/api/config/mihomo";
  }

  lemma {:induction false} SpellCustom()
    ensures "/admin/api/config/mihomo/" + "custom/create" == "/admin/api/config/mihomo/custom/create"
    ensures "/admin/api/config/mihomo/" + "custom/delete" == "/admin/api/config/mihomo/custom/delete"
    ensures "/admin/api/config/mihomo/" + "customs" == "/admin/api/config/mihomo/customs"
  {
  }

  lemma {:induction false} SpellConfig()
    ensures "/admin/api/config/mihomo/" + "provider/check" == "/admin/api/config/mihomo/provider/check"
    ensures "/admin/api/config/mihomo/" + "save" == "/admin/api/config/mihomo/save"
    ensures "/admin/api/config/mihomo/" + "schema" == "/admin/api/config/mihomo/schema"
  {
  }

  lemma {:induction false} ConfigBelowTable()
    ensures Shift("/admin/api/config/mihomo/", RoutesAll(CONFIG.children[0].children)) == TABLE[2..8]
  {
    hide RoutesAll;
    ConfigBelowRoutes();
    SpellCustom();
    SpellConfig();
  }

  lemma {:induction false} LogTable()
    ensures Shift("/admin/api/", Routes(LOG)) == TABLE[8..10]
  {
    hide Routes;
    LogRoutes();
    assert "/admin/api/" + "login" == "/admin/api/login";
    assert "/admin/api/" + "logout" == "/admin/api/logout";
  }

  lemma {:induction false} NodesTable()
    ensures Shift("/admin/api/", Routes(NODES)) == TABLE[10..13]
  {
    hide Routes;
    NodesRoutes();
    assert "/admin/api/" + "nodes" == "/admin/api/nodes";
    assert "/admin/api/" + "nodes/delete" == "/admin/api/nodes/delete";
    assert "/admin/api/" + "nodes/save" == "/admin/api/nodes/save";
  }

  lemma {:induction false} UsersTable()
    ensures Shift("/admin/api/", Routes(USERS)) == TABLE[13..18]
  {
    hide Routes;
    UsersRoutes();
    assert "/admin/api/" + "users" == "/admin/api/users";
    assert "/admin/api/" + "users/create" == "/admin/api/users/create";
    assert "/admin/api/" + "users/delete" == "/admin/api/users/delete";
    assert "/admin/api/" + "users/edit" == "/admin/api/users/edit";
    assert "/admin/api/" + "users/recreate" == "/admin/api/users/recreate";
  }

  /** The routes of the generated trie are the table. */
  lemma {:induction false} RootRoutes()
    ensures Routes(ROOT) == TABLE
  {
    hide Routes, RoutesAll, Shift;
    AdminTable();
    RestTable();
    RoutesOfFour(ADMIN, End("healthz", On("GET", Healthz)), ROOT.children[2], ROOT.children[3]);
    StaticRoutes(ROOT);
    ShiftConcat("/", Routes(ADMIN) + Routes(End("healthz", On("GET", Healthz))) + Routes(ROOT.children[2]),
                Routes(ROOT.children[3]));
    ShiftConcat("/", Routes(ADMIN) + Routes(End("healthz", On("GET", Healthz))), Routes(ROOT.children[2]));
    ShiftConcat("/", Routes(ADMIN), Routes(End("healthz", On("GET", Healthz))));
    assert TABLE == TABLE[..20] + [TABLE[20]] + [TABLE[21]] + [TABLE[22]];
  }

  lemma {:induction false} RestTable()
    ensures Shift("/", Routes(End("healthz", On("GET", Healthz)))) == [TABLE[20]]
    ensures Shift("/", Routes(ROOT.children[2])) == [TABLE[21]]
    ensures Shift("/", Routes(ROOT.children[3])) == [TABLE[22]]
  {
    assert "/" + "healthz" == "/healthz" && "/" + "rules/" == "/rules/" && "/" + "sub/" == "/sub/";
  }

  lemma {:induction false} ApiTable()
    ensures Shift("/admin/", Routes(API)) == TABLE[1..18]
  {
    hide Routes, RoutesAll, Shift;
    ConfigTable();
    LogTable();
    NodesTable();
    UsersTable();
    RoutesOfFour(CONFIG, LOG, NODES, USERS);
    StaticRoutes(API);
    assert Routes(API) == Shift("api/", RoutesAll(API.children));
    ShiftTwice("/admin/", "api/", RoutesAll(API.children));
    assert "/admin/" + "api/" == "/admin/api/";
    ShiftConcat("/admin/api/", Routes(CONFIG) + Routes(LOG) + Routes(NODES), Routes(USERS));
    ShiftConcat("/admin/api/", Routes(CONFIG) + Routes(LOG), Routes(NODES));
    ShiftConcat("/admin/api/", Routes(CONFIG), Routes(LOG));
    assert TABLE[1..18] == TABLE[1..8] + TABLE[8..10] + TABLE[10..13] + TABLE[13..18];
  }

  lemma {:induction false} AdminTable()
    ensures Shift("/", Routes(ADMIN)) == TABLE[..20]
  {
    hide Routes, RoutesAll;
    var login := Static("login", true, Some(On("GET", LoginPage)), []);
    var slash := ADMIN.children[0];
    var below := RoutesAll([API, login]);
    ApiTable();
    RoutesOfTwo(API, login);
    LoginRoutes(login);
    FallbackRoutes(slash);
    RoutesOfOne(slash);
    StaticRoutes(ADMIN);
    AdminShift(below);
    ShiftConcat("/admin/", Routes(API), Routes(login));
    assert "/admin/" + "login" == "/admin/login";
    assert TABLE[..20] == [TABLE[0]] + TABLE[1..18] + [TABLE[18]] + [TABLE[19]];
  }

  lemma {:induction false} LoginRoutes(t: Trie)
    requires t == Static("login", true, Some(On("GET", LoginPage)), [])
    ensures Routes(t) == [Route(Exact("login"), On("GET", LoginPage))]
  {
  }

  lemma {:induction false} FallbackRoutes(t: Trie)
    requires t.Fallback?
    ensures Routes(t) == Shift(t.prefix, RoutesAll(t.children)) + [Route(Param(t.prefix, true, LEAF), t.view)]
  {
  }

  lemma {:induction false} AdminShift(below: seq<Route>)
    ensures var own := [Route(Exact("admin"), On("GET", AdminShell))];
            var view := [Route(Param("/", true, LEAF), On("GET", AdminShellView))];
            Shift("/", own + Shift("admin", Shift("/", below) + view))
            == [TABLE[0]] + Shift("/admin/", below) + [TABLE[19]]
  {
    hide Shift;
    var view := [Route(Param("/", true, LEAF), On("GET", AdminShellView))];
    ShiftConcat("/", [Route(Exact("admin"), On("GET", AdminShell))], Shift("admin", Shift("/", below) + view));
    ShiftConcat("admin", Shift("/", below), view);
    ShiftConcat("/", Shift("admin", Shift("/", below)), Shift("admin", view));
    ShiftTwice("admin", "/", below);
    ShiftTwice("/", "admin" + "/", below);
    assert "/" + ("admin" + "/") == "/admin/";
    AdminEnds();
  }

  lemma {:induction false} AdminEnds()
    ensures Shift("/", [Route(Exact("admin"), On("GET", AdminShell))]) == [TABLE[0]]
    ensures Shift("/", Shift("admin", [Route(Param("/", true, LEAF), On("GET", AdminShellView))])) == [TABLE[19]]
  {
    assert "/" + "admin" == "/admin" && "/" + ("admin" + "/") == "/admin/";
  }

  // ----- serving

  lemma {:induction false} WellFormedEnd(prefix: string, op: Endpoint)
    requires prefix != ""
    ensures WellFormed(End(prefix, op))
  {
  }

  lemma {:induction false} WellFormedOne(a: Trie)
    requires WellFormed(a)
    ensures WellFormedAll([a])
  {
    assert [a][1..] == [];
  }

  lemma {:induction false} WellFormedTwo(a: Trie, b: Trie)
    requires WellFormed(a) && WellFormed(b) && a.prefix[0] != b.prefix[0]
    ensures WellFormedAll([a, b])
  {
    WellFormedOne(b);
    assert [a, b][1..] == [b];
  }

  lemma {:induction false} WellFormedThree(a: Trie, b: Trie, c: Trie)
    requires WellFormed(a) && WellFormed(b) && WellFormed(c)
    requires a.prefix[0] != b.prefix[0] && a.prefix[0] != c.prefix[0] && b.prefix[0] != c.prefix[0]
    ensures WellFormedAll([a, b, c])
  {
    WellFormedTwo(b, c);
    assert [a, b, c][1..] == [b, c];
  }

  lemma {:induction false} WellFormedFour(a: Trie, b: Trie, c: Trie, d: Trie)
    requires WellFormed(a) && WellFormed(b) && WellFormed(c) && WellFormed(d)
    requires a.prefix[0] != b.prefix[0] && a.prefix[0] != c.prefix[0] && a.prefix[0] != d.prefix[0]
    requires b.prefix[0] != c.prefix[0] && b.prefix[0] != d.prefix[0] && c.prefix[0] != d.prefix[0]
    ensures WellFormedAll([a, b, c, d])
  {
    WellFormedThree(b, c, d);
    assert [a, b, c, d][1..] == [b, c, d];
  }

  lemma {:induction false} WellFormedStatic(t: Trie)
    requires t.Static? && t.prefix != "" && WellFormedAll(t.children)
    ensures WellFormed(t)
  {
  }

  lemma {:induction false} ConfigWellFormed()
    ensures WellFormed(CONFIG)
  {
    hide WellFormed, WellFormedAll;
    WellFormedEnd("create", On("POST", CustomCreate));
    WellFormedEnd("delete", On("POST", CustomDelete));
    WellFormedEnd("s", On("GET", ConfigCustoms));
    WellFormedTwo(End("create", On("POST", CustomCreate)), End("delete", On("POST", CustomDelete)));
    WellFormedStatic(CUSTOM.children[0]);
    WellFormedTwo(CUSTOM.children[0], End("s", On("GET", ConfigCustoms)));
    WellFormedStatic(CUSTOM);
    WellFormedEnd("provider/check", On("POST", ProviderCheck));
    WellFormedEnd("ave", On("POST", ConfigSave));
    WellFormedEnd("chema", On("GET", ConfigSchema));
    WellFormedTwo(End("ave", On("POST", ConfigSave)), End("chema", On("GET", ConfigSchema)));
    var slash := CONFIG.children[0];
    WellFormedStatic(slash.children[2]);
    WellFormedThree(CUSTOM, End("provider/check", On("POST", ProviderCheck)), slash.children[2]);
    WellFormedStatic(slash);
    WellFormedOne(slash);
    assert CONFIG.children == [slash];
    WellFormedStatic(CONFIG);
  }

  lemma {:induction false} NodesUsersWellFormed()
    ensures WellFormed(LOG) && WellFormed(NODES) && WellFormed(USERS)
  {
    hide WellFormed, WellFormedAll;
    WellFormedEnd("in", On("POST", Login));
    WellFormedEnd("out", On("POST", Logout));
    WellFormedTwo(End("in", On("POST", Login)), End("out", On("POST", Logout)));
    WellFormedStatic(LOG);
    WellFormedEnd("delete", On("POST", NodeDelete));
    WellFormedEnd("save", On("POST", NodeSave));
    WellFormedTwo(End("delete", On("POST", NodeDelete)), End("save", On("POST", NodeSave)));
    WellFormedStatic(NODES.children[0]);
    WellFormedOne(NODES.children[0]);
    assert NODES.children == [NODES.children[0]];
    WellFormedStatic(NODES);
    WellFormedEnd("create", On("POST", UserCreate));
    WellFormedEnd("delete", On("POST", UserDelete));
    WellFormedEnd("edit", On("POST", UserEdit));
    WellFormedEnd("recreate", On("POST", UserRecreate));
    WellFormedFour(End("create", On("POST", UserCreate)), End("delete", On("POST", UserDelete)),
                   End("edit", On("POST", UserEdit)), End("recreate", On("POST", UserRecreate)));
    WellFormedStatic(USERS.children[0]);
    WellFormedOne(USERS.children[0]);
    assert USERS.children == [USERS.children[0]];
    WellFormedStatic(USERS);
  }

  lemma {:induction false} BelowAdminIsLiteral()
    ensures Literal(RoutesAll(ADMIN.children[0].children))
  {
    hide Routes, RoutesAll;
    var login := Static("login", true, Some(On("GET", LoginPage)), []);
    RoutesOfTwo(API, login);
    LoginRoutes(login);
    ApiTable();
    var routes := Routes(API);
    forall k | 0 <= k < |routes| ensures routes[k].pattern.Exact? {
      assert Shift("/admin/", routes)[k] == TABLE[k + 1];
      TableLiterals(k + 1);
    }
  }

  lemma {:induction false} TableLiterals(k: nat)
    requires 1 <= k < 18
    ensures TABLE[k].pattern.Exact?
  {
  }

  lemma {:induction false} RootWellFormed()
    ensures WellFormed(ROOT)
  {
    hide WellFormed, WellFormedAll;
    var login := Static("login", true, Some(On("GET", LoginPage)), []);
    ConfigWellFormed();
    NodesUsersWellFormed();
    WellFormedFour(CONFIG, LOG, NODES, USERS);
    WellFormedStatic(API);
    WellFormedNone();
    WellFormedStatic(login);
    WellFormedTwo(API, login);
    BelowAdminIsLiteral();
    AdminWellFormed();
    WellFormedEnd("healthz", On("GET", Healthz));
    WellFormedParams();
    WellFormedFour(ADMIN, End("healthz", On("GET", Healthz)), ROOT.children[2], ROOT.children[3]);
    WellFormedStatic(ROOT);
  }

  lemma {:induction false} WellFormedNone()
    ensures WellFormedAll([])
  {
  }

  lemma {:induction false} WellFormedParams()
    ensures WellFormed(ROOT.children[2]) && WellFormed(ROOT.children[3])
  {
  }

  lemma {:induction false} AdminWellFormed()
    requires WellFormedAll(ADMIN.children[0].children) && Literal(RoutesAll(ADMIN.children[0].children))
    ensures WellFormed(ADMIN)
  {
    hide WellFormedAll, RoutesAll;
    var slash := ADMIN.children[0];
    assert forall c :: c in slash.children ==> c.Static? && c.saves;
    assert WellFormed(slash);
    WellFormedOne(slash);
    assert ADMIN.children == [slash];
  }

  lemma {:induction false} StraysInOne(ts: seq<Trie>, elem: string)
    ensures StraysBelow(ts, elem) ==> exists t :: t in ts && Strays(t, elem)
  {
    hide Strays;
    if ts == [] {
    } else {
      StraysInOne(ts[1..], elem);
      assert ts[0] in ts;
      assert forall t :: t in ts[1..] ==> t in ts;
    }
  }

  /** There is exactly one stray path. */
  lemma {:induction false} OneStrayPath(path: string)
    ensures Strays(ROOT, path) <==> path == "/admin/api/"
  {
    if path == "/admin/api/" {
      AdminApiStrays();
    }
    if Strays(ROOT, path) {
      var rest := path[1..];
      assert path == "/" + rest;
      StraysInOne(ROOT.children, rest);
      EndNeverStrays("healthz", On("GET", Healthz), rest);
      assert Strays(ADMIN, rest);
      StrayAdmin(rest);
    }
  }

  lemma {:induction false} AdminApiStrays()
    ensures Strays(ROOT, "/admin/api/")
  {
    var slash := ADMIN.children[0];
    assert "/api/"[1..] == "api/" && "admin/api/"[5..] == "/api/" && "/admin/api/"[1..] == "admin/api/";
    assert API in slash.children && "/api/" == slash.prefix + API.prefix;
    assert Strays(slash, "/api/");
    assert StraysBelow(ADMIN.children, "/api/");
    assert Strays(ADMIN, "admin/api/");
    assert StraysBelow(ROOT.children, "admin/api/");
  }

  lemma {:induction false} EndNeverStrays(prefix: string, op: Endpoint, elem: string)
    ensures !Strays(End(prefix, op), elem)
  {
  }

  lemma {:induction false} StrayAdmin(elem: string)
    requires Strays(ADMIN, elem)
    ensures "/" + elem == "/admin/api/"
  {
    var slash := ADMIN.children[0];
    var below := elem[|"admin"|..];
    assert elem == "admin" + below;
    StraysInOne(ADMIN.children, below);
    assert Strays(slash, below);
    assert below == "/" + "api/";
  }

  datatype Found = Found(op: Op, args: seq<string>)

  datatype Response = Handle(op: Op, args: seq<string>) | NotAllowed(allowed: string) | NotFound

  /** What the table leads to, with its one exception. */
  function Reached(path: string): Option<Hit> {
    if path == "/admin/api/" then Some(Hit(On("GET", AdminShellView), [""])) else Lookup(TABLE, path)
  }

  /** Handled, refused for the method, or not found. */
  function Prescribed(verb: string, path: string): Response {
    match Reached(path)
    case None => NotFound
    case Some(h) => if verb == h.op.verb then Handle(h.op.op, h.args) else NotAllowed(h.op.verb)
  }

  lemma {:induction false} StrayWalk()
    ensures Walk(ROOT, "/admin/api/", []) == Served(On("GET", AdminShellView), [""])
  {
    var slash := ADMIN.children[0];
    assert "api/"[4..] == "" && "/api/"[1..] == "api/";
    assert "admin/api/"[5..] == "/api/" && "/admin/api/"[1..] == "admin/api/";
    assert Walk(API, "api/", []) == Fell("");
    assert WalkAll(slash.children, "api/", []) == Fell("");
    assert Walk(slash, "/api/", []) == Served(On("GET", AdminShellView), [""]);
    assert WalkAll(ADMIN.children, "/api/", []) == Served(On("GET", AdminShellView), [""]);
    assert Walk(ADMIN, "admin/api/", []) == Served(On("GET", AdminShellView), [""]);
    assert WalkAll(ROOT.children, "admin/api/", []) == Served(On("GET", AdminShellView), [""]);
  }

  lemma {:induction false} RootWalk(path: string)
    ensures match Reached(path)
            case Some(h) => Walk(ROOT, path, []) == Served(h.op, h.args)
            case None => Walk(ROOT, path, []).Fell?
  {
    hide Lookup, Walk, Routes, Strays, WellFormed;
    if path == "/admin/api/" {
      StrayWalk();
    } else {
      OneStrayPath(path);
      RootWellFormed();
      RootRoutes();
      WalkIsLookup(ROOT, path, []);
      assert forall a: seq<string> :: [] + a == a;
    }
  }

  /** The router and its table part on exactly one path, which the table does not know. */
  lemma {:induction false} WhereTheyPart(path: string)
    ensures Shows(Walk(ROOT, path, []), Lookup(TABLE, path), []) <==> path != "/admin/api/"
    ensures Lookup(TABLE, "/admin/api/") == None
  {
    hide Lookup, Walk, Routes, Strays, WellFormed;
    RootWellFormed();
    RootRoutes();
    OneStrayPath(path);
    WalkIsLookup(ROOT, path, []);
    NotInTable();
  }

  lemma {:induction false} NotInTable()
    ensures Lookup(TABLE, "/admin/api/") == None
  {
    hide Find;
    var path := "/admin/api/";
    forall k | 0 <= k < |TABLE| ensures Match(TABLE[k].pattern, path).None? {
      if TABLE[k].pattern.Exact? {
        assert |TABLE[k].pattern.lit| != |path|;
      } else if k == 19 {
        assert path[7..] == "api/" && SlashIndex("api/") == 3;
        assert TABLE[k].pattern == Param("/admin/", true, LEAF) && Match(LEAF, "api/"[3..]).None?;
      } else {
        assert k == 21 || k == 22;
        assert path[1] == 'a';
      }
    }
    NoMatch(TABLE, path, true);
    NoMatch(TABLE, path, false);
  }

  lemma {:induction false} NoMatch(table: seq<Route>, path: string, exact: bool)
    requires forall k :: 0 <= k < |table| ==> Match(table[k].pattern, path).None?
    ensures Find(table, path, exact) == None
  {
    hide Match;
    if table == [] {
    } else {
      NoMatch(table[1..], path, exact);
    }
  }

  /** Every path and method is dispatched, refused or not found as the table prescribes. */
  method ServeHTTP(verb: string, path: string) returns (r: Response)
    ensures r == Prescribed(verb, path)
  {
    hide Reached, Walk;
    RootWalk(path);
    if path == "" {
      EmptyPath();
      return NotFound;
    }
    var out := Search(ROOT, path, []);
    match out {
      case Fell(_) => r := NotFound;
      case Served(op, args) => r := if verb == op.verb then Handle(op.op, args) else NotAllowed(op.verb);
    }
  }

  /** The route finder walks on its own; it finds exactly what the server handles, with the same arguments. */
  method FindPath(verb: string, path: string) returns (r: Option<Found>)
    ensures r == match Prescribed(verb, path) case Handle(op, args) => Some(Found(op, args)) case _ => None
  {
    hide Reached, Walk;
    RootWalk(path);
    var out := Search(ROOT, path, []);
    r := match out
      case Fell(_) => None
      case Served(op, args) => if verb == op.verb then Some(Found(op.op, args)) else None;
  }

  lemma {:induction false} EmptyPath()
    ensures Reached("") == None
  {
    RootWalk("");
  }

  // ----- what a match means

  function NumParams(p: Pattern): nat {
    match p
    case Exact(_) => 0
    case Param(_, _, rest) => 1 + NumParams(rest)
  }

  /** The path that a pattern and its arguments spell. */
  function Fill(p: Pattern, args: seq<string>): string
    requires |args| == NumParams(p)
  {
    match p
    case Exact(lit) => lit
    case Param(lit, _, rest) => lit + args[0] + Fill(rest, args[1..])
  }

  predicate NoSlash(s: string) { forall k :: 0 <= k < |s| ==> s[k] != '/' }

  /** Arguments hold no slash, and where a pattern says so they are not empty. */
  predicate Fits(p: Pattern, args: seq<string>)
    requires |args| == NumParams(p)
  {
    match p
    case Exact(_) => true
    case Param(_, nonEmpty, rest) => NoSlash(args[0]) && (nonEmpty ==> args[0] != "") && Fits(rest, args[1..])
  }

  /** After a parameter comes the end of the path or a slash. */
  predicate Delimited(p: Pattern) {
    match p
    case Exact(_) => true
    case Param(_, _, rest) => (rest == LEAF || (rest.lit != "" && rest.lit[0] == '/')) && Delimited(rest)
  }

  lemma {:induction false} MatchSpells(p: Pattern, path: string)
    ensures Match(p, path).Some? ==>
              var args := Match(p, path).value;
              |args| == NumParams(p) && Fits(p, args) && path == Fill(p, args)
    decreases p
  {
    hide SlashIndex, NoSlash;
    if p.Param? && HasPrefix(path, p.lit) {
      var tail := path[|p.lit|..];
      var i := SlashIndex(tail);
      MatchSpells(p.rest, tail[i..]);
      UpToSlash(p.lit, path);
      var below := Match(p.rest, tail[i..]);
      if below.Some? {
        var args := [tail[..i]] + below.value;
        assert args[0] == tail[..i] && args[1..] == below.value;
      }
    }
  }

  lemma {:induction false} UpToSlash(lit: string, path: string)
    requires HasPrefix(path, lit)
    ensures var tail := path[|lit|..];
            var i := SlashIndex(tail);
            path == lit + tail[..i] + tail[i..] && NoSlash(tail[..i]) && (i > 0 ==> tail[..i] != "")
  {
  }

  lemma {:induction false} FillMatches(p: Pattern, args: seq<string>)
    requires Delimited(p) && |args| == NumParams(p) && Fits(p, args)
    ensures Match(p, Fill(p, args)) == Some(args)
    decreases p
  {
    if p.Param? {
      var others := Fill(p.rest, args[1..]);
      var path := Fill(p, args);
      assert path == p.lit + (args[0] + others);
      var tail := path[|p.lit|..];
      assert tail == args[0] + others;
      FillMatches(p.rest, args[1..]);
      StartsWithSlash(p.rest, args[1..]);
      FirstSlash(args[0], others);
      assert args == [args[0]] + args[1..];
    }
  }

  lemma {:induction false} StartsWithSlash(rest: Pattern, args: seq<string>)
    requires |args| == NumParams(rest) && (rest == LEAF || (rest.lit != "" && rest.lit[0] == '/'))
    ensures Fill(rest, args) == "" || Fill(rest, args)[0] == '/'
  {
  }

  lemma {:induction false} FirstSlash(first: string, others: string)
    requires NoSlash(first) && (others == "" || others[0] == '/')
    ensures SlashIndex(first + others) == |first|
    ensures (first + others)[..|first|] == first && (first + others)[|first|..] == others
  {
    var tail := first + others;
    assert forall k :: 0 <= k < |first| ==> tail[k] == first[k];
    assert others != "" ==> tail[|first|] == others[0];
  }

  /** Matching is the inverse of spelling out: each path has at most the one reading, and every fitting one is found. */
  lemma {:induction false} MatchIffFill(p: Pattern, path: string, args: seq<string>)
    requires Delimited(p)
    ensures Match(p, path) == Some(args) <==> |args| == NumParams(p) && Fits(p, args) && path == Fill(p, args)
  {
    hide Match, Fill, Fits, Delimited;
    MatchSpells(p, path);
    if |args| == NumParams(p) && Fits(p, args) && path == Fill(p, args) {
      FillMatches(p, args);
    }
  }

  /** Every pattern of the table is read that way. */
  lemma {:induction false} TableIsDelimited(k: nat)
    requires k < |TABLE|
    ensures Delimited(TABLE[k].pattern)
  {
    assert Delimited(Param("/", false, LEAF)) && Delimited(LEAF);
  }

  // ----- what the rows prescribe

  /** What only reads is a GET, what changes something is a POST. */
  lemma {:induction false} TableVerbs(k: nat)
    requires k < |TABLE|
    ensures TABLE[k].op.verb == "GET" <==>
            TABLE[k].op.op in {AdminShell, AdminShellView, LoginPage, Healthz, Rules, Sub, ConfigGet, ConfigSchema,
                               ConfigCustoms, NodesGet, UsersGet}
    ensures TABLE[k].op.verb == "POST" <==>
            TABLE[k].op.op in {ConfigSave, CustomCreate, CustomDelete, ProviderCheck, Login, Logout, NodeSave,
                               NodeDelete, UserCreate, UserDelete, UserEdit, UserRecreate}
  {
  }

  /** No path has two exact rows. */
  lemma {:induction false} TableDistinct(j: nat, k: nat)
    requires j < k < |TABLE| && TABLE[j].pattern.Exact? && TABLE[k].pattern.Exact?
    ensures TABLE[j].pattern.lit != TABLE[k].pattern.lit
  {
    var a, b := TABLE[j].pattern.lit, TABLE[k].pattern.lit;
    if |a| == |b| {
      assert a[11] != b[11] || (|a| == 23 && a[17] != b[17]) || (|a| == 38 && a[32] != b[32]);
    }
  }

  /** No path has two rows with parameters. */
  lemma {:induction false} TableApart(j: nat, k: nat, path: string)
    requires j < k < |TABLE| && TABLE[j].pattern.Param? && TABLE[k].pattern.Param?
    ensures Match(TABLE[j].pattern, path).None? || Match(TABLE[k].pattern, path).None?
  {
    assert (j == 19 && (k == 21 || k == 22)) || (j == 21 && k == 22);
    var second := if |path| > 1 then path[1] else ' ';
    assert HasPrefix(path, TABLE[j].pattern.lit) ==> second == TABLE[j].pattern.lit[1];
    assert HasPrefix(path, TABLE[k].pattern.lit) ==> second == TABLE[k].pattern.lit[1];
  }

  lemma {:induction false} FindOnly(table: seq<Route>, path: string, exact: bool, k: nat)
    requires k < |table| && table[k].pattern.Exact? == exact && Match(table[k].pattern, path).Some?
    requires forall j :: 0 <= j < k && table[j].pattern.Exact? == exact ==> Match(table[j].pattern, path).None?
    ensures Find(table, path, exact) == Some(Hit(table[k].op, Match(table[k].pattern, path).value))
  {
    hide Match;
    if k == 0 {
    } else {
      FindOnly(table[1..], path, exact, k - 1);
    }
  }

  lemma {:induction false} FindNone(table: seq<Route>, path: string, exact: bool)
    requires forall j :: 0 <= j < |table| && table[j].pattern.Exact? == exact ==> Match(table[j].pattern, path).None?
    ensures Find(table, path, exact) == None
  {
    hide Match;
    if table == [] {
    } else {
      FindNone(table[1..], path, exact);
    }
  }

  ghost predicate NoExactRow(path: string) {
    forall j :: 0 <= j < |TABLE| && TABLE[j].pattern.Exact? ==> TABLE[j].pattern.lit != path
  }

  /** A row and arguments for which it spells the path; a row with parameters gives way to an exact one. */
  ghost predicate Spells(k: nat, args: seq<string>, path: string) {
    && k < |TABLE| && |args| == NumParams(TABLE[k].pattern)
    && Fits(TABLE[k].pattern, args) && path == Fill(TABLE[k].pattern, args)
    && (TABLE[k].pattern.Exact? || NoExactRow(path))
  }

  /** The row that spells a path decides: its operation with these arguments for its method, and 405 for any other. */
  lemma {:induction false} RowDecides(verb: string, path: string, k: nat, args: seq<string>)
    requires Spells(k, args, path)
    ensures Prescribed(verb, path) ==
            if verb == TABLE[k].op.verb then Handle(TABLE[k].op.op, args) else NotAllowed(TABLE[k].op.verb)
  {
    hide Match, Find, Fill, Fits, TABLE;
    var exact := TABLE[k].pattern.Exact?;
    TableIsDelimited(k);
    MatchIffFill(TABLE[k].pattern, path, args);
    forall j | 0 <= j < k && TABLE[j].pattern.Exact? == exact ensures Match(TABLE[j].pattern, path).None? {
      if exact {
        TableDistinct(j, k);
        ExactMatch(TABLE[j].pattern, path);
        ExactMatch(TABLE[k].pattern, path);
      } else {
        TableApart(j, k, path);
      }
    }
    FindOnly(TABLE, path, exact, k);
    if !exact {
      forall j | 0 <= j < |TABLE| && TABLE[j].pattern.Exact? ensures Match(TABLE[j].pattern, path).None? {
        ExactMatch(TABLE[j].pattern, path);
      }
      FindNone(TABLE, path, true);
    }
    NotInTable();
  }

  lemma {:induction false} ExactMatch(p: Pattern, path: string)
    requires p.Exact?
    ensures Match(p, path).Some? <==> path == p.lit
  {
  }

  lemma {:induction false} MatchedSpells(k: nat, path: string)
    requires k < |TABLE| && Match(TABLE[k].pattern, path).Some?
    requires TABLE[k].pattern.Exact? || NoExactRow(path)
    ensures Spells(k, Match(TABLE[k].pattern, path).value, path)
  {
    hide Match, Fill, Fits;
    MatchSpells(TABLE[k].pattern, path);
  }

  /** A path that no row spells is not found, but for the one exception. */
  lemma {:induction false} NoRowNotFound(verb: string, path: string)
    requires path != "/admin/api/" && forall k, args :: !Spells(k, args, path)
    ensures Prescribed(verb, path) == NotFound
  {
    hide Match, Find, Fill, Fits, TABLE;
    forall j | 0 <= j < |TABLE| && TABLE[j].pattern.Exact?
      ensures Match(TABLE[j].pattern, path).None? && TABLE[j].pattern.lit != path
    {
      if Match(TABLE[j].pattern, path).Some? {
        MatchedSpells(j, path);
      }
      ExactMatch(TABLE[j].pattern, path);
    }
    forall j | 0 <= j < |TABLE| && !TABLE[j].pattern.Exact? ensures Match(TABLE[j].pattern, path).None? {
      if Match(TABLE[j].pattern, path).Some? {
        MatchedSpells(j, path);
      }
    }
    FindNone(TABLE, path, true);
    FindNone(TABLE, path, false);
  }

  /** And the exception is the view with an empty argument. */
  lemma {:induction false} ExceptionIsView(verb: string)
    ensures Prescribed(verb, "/admin/api/") == if verb == "GET" then Handle(AdminShellView, [""]) else NotAllowed("GET")
  {
  }
}
