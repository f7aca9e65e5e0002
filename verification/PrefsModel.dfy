/** Preferences as values: paths, settings, and the element events a tree is written as and read from. */
module PrefsModel {

  /** A preference's type and value: the type is the constructor. */
  datatype Value = NoValue | Bool(b: bool) | Int(i: int) | Str(s: string) | StrList(l: seq<string>)

  function Kind(v: Value): nat {
    match v
    case NoValue => 0
    case Bool(_) => 1
    case Int(_) => 2
    case Str(_) => 3
    case StrList(_) => 4
  }

  /** A canonical path, by its components from the root down. */
  type Path = seq<string>

  // --------------------------------------------------------------------- names and paths

  predicate IsComponent(c: string) {
    c != "" && '/' !in c
  }

  predicate Canonical(p: Path) {
    forall i :: 0 <= i < |p| ==> IsComponent(p[i])
  }

  /** The name that is a canonical path: every component with a slash before it. */
  function Full(p: Path): string {
    if p == [] then "" else Full(p[..|p| - 1]) + "/" + p[|p| - 1]
  }

  /** strrchr(s, '/'), or -1. */
  function LastSlash(s: string): (i: int)
    ensures -1 <= i < |s|
    ensures i >= 0 ==> s[i] == '/'
    ensures forall k :: i < k < |s| ==> s[k] != '/'
  {
    if s == [] then -1 else if s[|s| - 1] == '/' then |s| - 1 else LastSlash(s[..|s| - 1])
  }

  /** get_path_dirname */
  function Dirname(name: string): string {
    var i := LastSlash(name);
    if i < 0 then "." else if i == 0 then "/" else name[..i]
  }

  /** get_path_basename */
  function Basename(name: string): string {
    name[LastSlash(name) + 1..]
  }

  lemma {:induction false} LastSlashAt(s: string, c: string)
    requires '/' !in c
    ensures LastSlash(s + "/" + c) == |s|
    decreases |c|
  {
    var t := s + "/" + c;
    if c == "" {
      assert t == s + "/" && t[|t| - 1] == '/';
    } else {
      LastSlashAt(s, c[..|c| - 1]);
      assert t[..|t| - 1] == s + "/" + c[..|c| - 1] && t[|t| - 1] == c[|c| - 1];
    }
  }

  lemma {:induction false} FullStarts(p: Path)
    ensures p != [] ==> Full(p) != "" && Full(p)[0] == '/'
    ensures p != [] && Canonical(p) ==> |Full(p)| >= 2
  {
    if |p| > 1 { FullStarts(p[..|p| - 1]); }
  }

  /** A canonical name splits into the name of its parent and its last component. */
  lemma SplitFull(p: Path)
    requires p != [] && Canonical(p)
    ensures Dirname(Full(p)) == (if |p| == 1 then "/" else Full(p[..|p| - 1]))
    ensures Basename(Full(p)) == p[|p| - 1]
  {
    var q, c := p[..|p| - 1], p[|p| - 1];
    LastSlashAt(Full(q), c);
    FullStarts(q);
    assert (Full(q) + "/" + c)[..|Full(q)|] == Full(q);
  }

  /** Different canonical paths have different names. */
  lemma {:induction false} FullInjective(p: Path, q: Path)
    requires Canonical(p) && Canonical(q) && Full(p) == Full(q)
    ensures p == q
  {
    FullStarts(p);
    FullStarts(q);
    if p != [] && q != [] {
      SplitFull(p);
      SplitFull(q);
      if |p| == 1 || |q| == 1 {
        FullStarts(p[..|p| - 1]);
        FullStarts(q[..|q| - 1]);
      } else {
        FullInjective(p[..|p| - 1], q[..|q| - 1]);
      }
      assert p == p[..|p| - 1] + [p[|p| - 1]] && q == q[..|q| - 1] + [q[|q| - 1]];
    }
  }

  // ------------------------------------------------------------------------- the store

  /** The settings of a tree by their paths. */
  type Settings = map<Path, Value>

  /** What a typed setter does: it sets a preference of its type, and adds one that is not there
      if its parent is. */
  function SetAt(m: Settings, p: Path, v: Value): Settings
    requires p != []
  {
    if p in m then (if Kind(m[p]) == Kind(v) then m[p := v] else m)
    else if p[..|p| - 1] in m then m[p := v] else m
  }

  /** a and b are of one type. */
  predicate SameType(a: Value, b: Value) {
    (a.NoValue? && b.NoValue?) || (a.Bool? && b.Bool?) || (a.Int? && b.Int?) || (a.Str? && b.Str?)
      || (a.StrList? && b.StrList?)
  }

  lemma KindIs(a: Value, b: Value)
    ensures Kind(a) == Kind(b) <==> SameType(a, b)
  {
  }

  /** A value of its type takes the place of the old one, one of another type does nothing, and a preference that is
      missing is added exactly if there is one above it. */
  lemma SetAtIs(m: Settings, p: Path, v: Value)
    requires p != []
    ensures p in m && SameType(m[p], v) ==> SetAt(m, p, v) == m[p := v]
    ensures p in m && !SameType(m[p], v) ==> SetAt(m, p, v) == m
    ensures p !in m && p[..|p| - 1] in m ==> SetAt(m, p, v) == m[p := v]
    ensures p !in m && p[..|p| - 1] !in m ==> SetAt(m, p, v) == m
  {
    if p in m { KindIs(m[p], v); }
  }

  // ------------------------------------------------------------------- element events

  /** What the markup parser reports: a pref element begins, with its name, type and value; an item
      element inside it; a pref element ends. */
  datatype Event = StartPref(name: string, value: Value) | Item(text: string) | EndPref

  /** The settings, and prefs_stack. */
  datatype Loader = Loader(m: Settings, stack: seq<string>)

  function Reverse(s: seq<string>): (r: seq<string>)
    ensures |r| == |s|
  {
    if s == [] then [] else Reverse(s[1..]) + [s[0]]
  }

  function Started(l: Loader, name: string, v: Value): Loader {
    if name == "/" then l
    else
      var p := Reverse(l.stack) + [name];
      var m := match v
        case NoValue => l.m
        case StrList(_) => SetAt(l.m, p, StrList([]))
        case _ => SetAt(l.m, p, v);
      Loader(m, [name] + l.stack)
  }

  function ItemRead(l: Loader, text: string): Loader {
    var p := Reverse(l.stack);
    if p != [] && p in l.m && l.m[p].StrList? then l.(m := l.m[p := StrList(l.m[p].l + [text])]) else l
  }

  function Ended(l: Loader): Loader {
    if l.stack == [] then l else l.(stack := l.stack[1..])
  }

  function Handle(l: Loader, e: Event): Loader {
    match e
    case StartPref(name, v) => Started(l, name, v)
    case Item(text) => ItemRead(l, text)
    case EndPref => Ended(l)
  }

  function Replay(l: Loader, es: seq<Event>): Loader
    decreases es
  {
    if es == [] then l else Replay(Handle(l, es[0]), es[1..])
  }

  lemma {:induction false} ReplayAppend(l: Loader, a: seq<Event>, b: seq<Event>)
    ensures Replay(l, a + b) == Replay(Replay(l, a), b)
    decreases a
  {
    if a == [] {
      assert a + b == b;
    } else {
      ReplayAppend(Handle(l, a[0]), a[1..], b);
      assert (a + b)[1..] == a[1..] + b;
    }
  }

  // ------------------------------------------------------------------------- writing

  datatype Tree = Tree(name: string, value: Value, kids: seq<Tree>)

  function Items(l: seq<string>): seq<Event> {
    if l == [] then [] else [Item(l[0])] + Items(l[1..])
  }

  /** gaim_prefs_write, as the events its output is read back as. */
  function Emit(t: Tree): seq<Event> {
    [StartPref(t.name, t.value)] + EmitAll(t.kids) + (if t.value.StrList? then Items(t.value.l) else []) + [EndPref]
  }

  function EmitAll(ts: seq<Tree>): seq<Event> {
    if ts == [] then [] else Emit(ts[0]) + EmitAll(ts[1..])
  }

  /** m has the preferences of t under the path p, with their types. */
  ghost predicate Shaped(m: Settings, p: Path, t: Tree)
    decreases t, 1
  {
    var q := p + [t.name];
    t.name != "/" && q in m && Kind(m[q]) == Kind(t.value) && ShapedAll(m, q, t.kids)
  }

  ghost predicate ShapedAll(m: Settings, p: Path, ts: seq<Tree>)
    decreases ts, 0
  {
    ts == [] || (Shaped(m, p, ts[0]) && ShapedAll(m, p, ts[1..]))
  }

  /** m with the values of t under the path p. */
  ghost function Overlaid(m: Settings, p: Path, t: Tree): Settings
    decreases t, 1
  {
    var q := p + [t.name];
    OverlaidAll(m[q := t.value], q, t.kids)
  }

  ghost function OverlaidAll(m: Settings, p: Path, ts: seq<Tree>): Settings
    decreases ts, 0
  {
    if ts == [] then m else OverlaidAll(Overlaid(m, p, ts[0]), p, ts[1..])
  }

  /** m and n have the same preferences, with the same types. */
  ghost predicate SameShape(m: Settings, n: Settings) {
    m.Keys == n.Keys && forall q :: q in m ==> Kind(m[q]) == Kind(n[q])
  }

  lemma {:induction false} ShapedStays(m: Settings, n: Settings, p: Path, t: Tree)
    requires Shaped(m, p, t) && SameShape(m, n)
    ensures Shaped(n, p, t)
    decreases t, 1
  {
    ShapedAllStays(m, n, p + [t.name], t.kids);
  }

  lemma {:induction false} ShapedAllStays(m: Settings, n: Settings, p: Path, ts: seq<Tree>)
    requires ShapedAll(m, p, ts) && SameShape(m, n)
    ensures ShapedAll(n, p, ts)
    decreases ts, 0
  {
    if ts != [] {
      ShapedStays(m, n, p, ts[0]);
      ShapedAllStays(m, n, p, ts[1..]);
    }
  }

  lemma {:induction false} OverlaidShape(m: Settings, p: Path, t: Tree)
    requires Shaped(m, p, t)
    ensures SameShape(m, Overlaid(m, p, t))
    decreases t, 1
  {
    var q := p + [t.name];
    ShapedAllStays(m, m[q := t.value], q, t.kids);
    OverlaidAllShape(m[q := t.value], q, t.kids);
  }

  lemma {:induction false} OverlaidAllShape(m: Settings, p: Path, ts: seq<Tree>)
    requires ShapedAll(m, p, ts)
    ensures SameShape(m, OverlaidAll(m, p, ts))
    decreases ts, 0
  {
    if ts != [] {
      OverlaidShape(m, p, ts[0]);
      ShapedAllStays(m, Overlaid(m, p, ts[0]), p, ts[1..]);
      OverlaidAllShape(Overlaid(m, p, ts[0]), p, ts[1..]);
    }
  }

  // ---------------------------------------------------------------- written and read back

  /** x is the path q or one below it. */
  ghost predicate Under(x: Path, q: Path) {
    |q| <= |x| && x[..|q|] == q
  }

  lemma {:induction false} Commutes(m: Settings, p: Path, t: Tree, x: Path, v: Value)
    requires |x| <= |p|
    ensures Overlaid(m[x := v], p, t) == Overlaid(m, p, t)[x := v]
    decreases t, 1
  {
    var q := p + [t.name];
    assert m[x := v][q := t.value] == m[q := t.value][x := v];
    CommutesAll(m[q := t.value], q, t.kids, x, v);
  }

  lemma {:induction false} CommutesAll(m: Settings, p: Path, ts: seq<Tree>, x: Path, v: Value)
    requires |x| <= |p|
    ensures OverlaidAll(m[x := v], p, ts) == OverlaidAll(m, p, ts)[x := v]
    decreases ts, 0
  {
    if ts != [] {
      Commutes(m, p, ts[0], x, v);
      CommutesAll(Overlaid(m, p, ts[0]), p, ts[1..], x, v);
    }
  }

  lemma {:induction false} ItemsReplay(m: Settings, stack: seq<string>, done: seq<string>, l: seq<string>)
    requires stack != [] && Reverse(stack) in m && m[Reverse(stack)] == StrList(done)
    ensures Replay(Loader(m, stack), Items(l)) == Loader(m[Reverse(stack) := StrList(done + l)], stack)
    decreases l
  {
    var q := Reverse(stack);
    if l == [] {
      assert done + l == done && m[q := StrList(done)] == m;
    } else {
      ItemsReplay(m[q := StrList(done + [l[0]])], stack, done + [l[0]], l[1..]);
      assert done + [l[0]] + l[1..] == done + l;
    }
  }

  /** A tree that is written and read back into a store that has its preferences, with their types,
      gives them their values, and leaves prefs_stack naming the path it named before. */
  lemma {:induction false} EmitReplay(m: Settings, stack: seq<string>, t: Tree)
    requires Shaped(m, Reverse(stack), t)
    ensures Replay(Loader(m, stack), Emit(t)) == Loader(Overlaid(m, Reverse(stack), t), stack)
    decreases t, 1
  {
    var p, s := Reverse(stack), [t.name] + stack;
    var q := p + [t.name];
    assert Reverse(s) == q;
    var l := Started(Loader(m, stack), t.name, t.value);
    var m1 := m[q := if t.value.StrList? then StrList([]) else t.value];
    assert l == Loader(m1, s);
    ShapedAllStays(m, m1, q, t.kids);
    EmitAllReplay(m1, s, t.kids);
    var items := if t.value.StrList? then Items(t.value.l) else [];
    CommutesAll(m1, q, t.kids, q, t.value);
    CommutesAll(m1, q, t.kids, q, m1[q]);
    assert m1[q := m1[q]] == m1 && m1[q := t.value] == m[q := t.value];
    var m2 := OverlaidAll(m1, q, t.kids);
    if t.value.StrList? {
      ItemsReplay(m2, s, [], t.value.l);
      assert [] + t.value.l == t.value.l;
    }
    ReplayFour(Loader(m, stack), StartPref(t.name, t.value), EmitAll(t.kids), items, EndPref);
    assert s[1..] == stack;
  }

  lemma ReplayFour(l: Loader, a: Event, b: seq<Event>, c: seq<Event>, d: Event)
    ensures Replay(l, [a] + b + c + [d]) == Handle(Replay(Replay(Handle(l, a), b), c), d)
  {
    var l1 := Handle(l, a);
    ReplayAppend(l, [a] + b + c, [d]);
    ReplayAppend(l, [a] + b, c);
    ReplayAppend(l, [a], b);
    assert Replay(l, [a]) == l1;
  }

  lemma {:induction false} EmitAllReplay(m: Settings, stack: seq<string>, ts: seq<Tree>)
    requires ShapedAll(m, Reverse(stack), ts)
    ensures Replay(Loader(m, stack), EmitAll(ts)) == Loader(OverlaidAll(m, Reverse(stack), ts), stack)
    decreases ts, 0
  {
    if ts != [] {
      var p := Reverse(stack);
      EmitReplay(m, stack, ts[0]);
      OverlaidShape(m, p, ts[0]);
      var n := Overlaid(m, p, ts[0]);
      ShapedAllStays(m, n, p, ts[1..]);
      EmitAllReplay(n, stack, ts[1..]);
      ReplayAppend(Loader(m, stack), Emit(ts[0]), EmitAll(ts[1..]));
    }
  }

  // ------------------------------------------------------------- every value is restored

  /** Siblings have different names, all the way down. */
  ghost predicate DistinctNames(t: Tree) {
    DistinctAll(t.kids)
  }

  ghost predicate DistinctAll(ts: seq<Tree>) {
    ts == [] || (DistinctNames(ts[0]) && (forall i :: 1 <= i < |ts| ==> ts[i].name != ts[0].name)
        && DistinctAll(ts[1..]))
  }

  /** Every preference of t, under p, has its value in m. */
  ghost predicate Holds(m: Settings, p: Path, t: Tree)
    decreases t, 1
  {
    var q := p + [t.name];
    q in m && m[q] == t.value && HoldsAll(m, q, t.kids)
  }

  ghost predicate HoldsAll(m: Settings, p: Path, ts: seq<Tree>)
    decreases ts, 0
  {
    ts == [] || (Holds(m, p, ts[0]) && HoldsAll(m, p, ts[1..]))
  }

  ghost predicate AgreeAt(m: Settings, n: Settings, x: Path) {
    (x in m <==> x in n) && (x in m ==> m[x] == n[x])
  }

  lemma {:induction false} Untouched(m: Settings, p: Path, t: Tree, x: Path)
    requires !Under(x, p + [t.name])
    ensures AgreeAt(m, Overlaid(m, p, t), x)
    decreases t, 1
  {
    var q := p + [t.name];
    UntouchedAll(m[q := t.value], q, t.kids, x);
  }

  lemma {:induction false} UntouchedAll(m: Settings, p: Path, ts: seq<Tree>, x: Path)
    requires forall i :: 0 <= i < |ts| ==> !Under(x, p + [ts[i].name])
    ensures AgreeAt(m, OverlaidAll(m, p, ts), x)
    decreases ts, 0
  {
    if ts != [] {
      Untouched(m, p, ts[0], x);
      UntouchedAll(Overlaid(m, p, ts[0]), p, ts[1..], x);
    }
  }

  lemma {:induction false} HoldsStays(m: Settings, n: Settings, p: Path, t: Tree)
    requires Holds(m, p, t) && forall x: Path :: Under(x, p + [t.name]) ==> AgreeAt(m, n, x)
    ensures Holds(n, p, t)
    decreases t, 1
  {
    var q := p + [t.name];
    assert Under(q, q);
    HoldsAllStays(m, n, q, t.kids);
  }

  lemma {:induction false} HoldsAllStays(m: Settings, n: Settings, p: Path, ts: seq<Tree>)
    requires HoldsAll(m, p, ts) && forall x: Path :: Under(x, p) ==> AgreeAt(m, n, x)
    ensures HoldsAll(n, p, ts)
    decreases ts, 0
  {
    if ts != [] {
      var q := p + [ts[0].name];
      forall x: Path | Under(x, q) ensures AgreeAt(m, n, x) { Above(x, p, ts[0].name); }
      HoldsStays(m, n, p, ts[0]);
      HoldsAllStays(m, n, p, ts[1..]);
    }
  }

  lemma Above(x: Path, p: Path, c: string)
    requires Under(x, p + [c])
    ensures Under(x, p) && x[|p|] == c
  {
    var q := p + [c];
    assert x[..|p|] == q[..|p|] == p;
    assert x[|p|] == q[|p|];
  }

  lemma {:induction false} OverlaidHolds(m: Settings, p: Path, t: Tree)
    requires DistinctNames(t)
    ensures Holds(Overlaid(m, p, t), p, t)
    decreases t, 1
  {
    var q := p + [t.name];
    var n := m[q := t.value];
    OverlaidAllHolds(n, q, t.kids);
    CommutesAll(n, q, t.kids, q, t.value);
    assert n[q := t.value] == n;
  }

  lemma {:induction false} OverlaidAllHolds(m: Settings, p: Path, ts: seq<Tree>)
    requires DistinctAll(ts)
    ensures HoldsAll(OverlaidAll(m, p, ts), p, ts)
    decreases ts, 0
  {
    if ts != [] {
      var n := Overlaid(m, p, ts[0]);
      var r := OverlaidAll(n, p, ts[1..]);
      OverlaidHolds(m, p, ts[0]);
      OverlaidAllHolds(n, p, ts[1..]);
      forall x: Path | Under(x, p + [ts[0].name]) ensures AgreeAt(n, r, x) { OthersUntouched(n, p, ts, x); }
      HoldsStays(n, r, p, ts[0]);
    }
  }

  lemma OthersUntouched(n: Settings, p: Path, ts: seq<Tree>, x: Path)
    requires ts != [] && DistinctAll(ts) && Under(x, p + [ts[0].name])
    ensures AgreeAt(n, OverlaidAll(n, p, ts[1..]), x)
  {
    Above(x, p, ts[0].name);
    var u := ts[1..];
    forall i | 0 <= i < |u| ensures !Under(x, p + [u[i].name]) {
      assert u[i] == ts[i + 1];
      assert (p + [u[i].name])[|p|] == u[i].name;
    }
    UntouchedAll(n, p, u, x);
  }

  /** What is written is read back: into a store that has the preferences of the tree with their types,
      whatever their values, every value is restored, no other setting changes, and prefs_stack is left empty. */
  lemma WrittenAndRead(m: Settings, kids: seq<Tree>)
    requires ShapedAll(m, [], kids) && DistinctAll(kids)
    ensures var l := Replay(Loader(m, []), Emit(Tree("/", NoValue, kids)));
      l.stack == [] && HoldsAll(l.m, [], kids) && SameShape(m, l.m)
    ensures var l := Replay(Loader(m, []), Emit(Tree("/", NoValue, kids)));
      forall x: Path :: (forall i :: 0 <= i < |kids| ==> !Under(x, [kids[i].name])) ==> AgreeAt(m, l.m, x)
  {
    ReplayFour(Loader(m, []), StartPref("/", NoValue), EmitAll(kids), [], EndPref);
    EmitAllReplay(m, [], kids);
    OverlaidAllHolds(m, [], kids);
    OverlaidAllShape(m, [], kids);
    forall x: Path | forall i :: 0 <= i < |kids| ==> !Under(x, [kids[i].name])
      ensures AgreeAt(m, OverlaidAll(m, [], kids), x)
    {
      forall i | 0 <= i < |kids|
        ensures !Under(x, [] + [kids[i].name])
      {
        assert [] + [kids[i].name] == [kids[i].name];
      }
      UntouchedAll(m, [], kids, x);
    }
  }

  // ------------------------------------------------------- preferences that are not there yet

  /** The element of a preference that is missing adds it with its value, if it has one and there is one above it. */
  lemma MissingAdded(m: Settings, stack: seq<string>, name: string, v: Value)
    requires name != "/" && Reverse(stack) + [name] !in m
    ensures Replay(Loader(m, stack), Emit(Tree(name, v, []))) ==
      Loader(if Reverse(stack) in m && v != NoValue then m[Reverse(stack) + [name] := v] else m, stack)
  {
    var p := Reverse(stack) + [name];
    var l := Started(Loader(m, stack), name, v);
    var items := if v.StrList? then Items(v.l) else [];
    assert p[..|p| - 1] == Reverse(stack);
    assert Reverse([name] + stack) == p by { assert ([name] + stack)[1..] == stack; }
    assert Emit(Tree(name, v, [])) == [StartPref(name, v)] + items + [EndPref];
    ReplayThree(Loader(m, stack), StartPref(name, v), items, EndPref);
    if v.StrList? {
      if Reverse(stack) in m {
        ItemsReplay(m[p := StrList([])], [name] + stack, [], v.l);
        assert [] + v.l == v.l;
      } else {
        ItemsNowhere(m, [name] + stack, v.l);
      }
    }
    assert ([name] + stack)[1..] == stack;
  }

  lemma ReplayThree(l: Loader, a: Event, b: seq<Event>, c: Event)
    ensures Replay(l, [a] + b + [c]) == Handle(Replay(Handle(l, a), b), c)
  {
    assert [a] + b + [c] == [a] + (b + [c]);
    ReplayAppend(Handle(l, a), b, [c]);
    assert ([a] + (b + [c]))[1..] == b + [c];
    assert [c][1..] == [];
  }

  lemma {:induction false} ItemsNowhere(m: Settings, stack: seq<string>, l: seq<string>)
    requires Reverse(stack) !in m
    ensures Replay(Loader(m, stack), Items(l)) == Loader(m, stack)
    decreases l
  {
    if l != [] {
      ItemsNowhere(m, stack, l[1..]);
      assert Items(l)[1..] == Items(l[1..]);
    }
  }

  /** What is written of a list with a child: the child, then the items, between start and end. */
  lemma EmitSample()
    ensures Emit(Tree("a", StrList(["x", "y"]), [Tree("b", Int(3), [])])) ==
      [StartPref("a", StrList(["x", "y"])), StartPref("b", Int(3)), EndPref, Item("x"), Item("y"), EndPref]
  {
    var b := Tree("b", Int(3), []);
    assert Emit(b) == [StartPref("b", Int(3)), EndPref];
    assert EmitAll([b]) == Emit(b);
    assert ["x", "y"][1..] == ["y"] && ["y"][1..] == [];
    assert Items(["x", "y"]) == [Item("x"), Item("y")];
  }
}
