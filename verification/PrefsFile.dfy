/** Writing the preferences of a store as element events, and reading such events back into a store. */
module PrefsFile {
  import opened PrefsModel
  import opened Prefs

  // ------------------------------------------------------------------- the tree of a store

  /** The paths from q on down. */
  ghost function Below(at: Places, q: Path): set<Path> {
    set r | r in at && Under(r, q)
  }

  lemma BelowChild(at: Places, q: Path, c: string)
    requires q in at
    ensures Below(at, q + [c]) < Below(at, q)
  {
    assert Under(q, q) && !Under(q, q + [c]);
    forall r | r in Below(at, q + [c]) ensures r in Below(at, q) {
      Above(r, q, c);
    }
    assert q in Below(at, q) && q !in Below(at, q + [c]);
  }

  ghost predicate Laid(kids: Kids, at: Places, root: Pref, m: Settings) {
    TreeOK(kids, at, root) && m.Keys == at.Keys
  }

  /** The preference at q with all below it, in the order of the sibling lists; the root is written as "/". */
  ghost function TreeAt(kids: Kids, at: Places, root: Pref, m: Settings, q: Path): Tree
    requires Laid(kids, at, root, m) && q in at
    decreases Below(at, q), 1, 0
  {
    Tree(if q == [] then "/" else Name(q), m[q], TreesFrom(kids, at, root, m, q, 0))
  }

  /** The children of the preference at q from the i-th on. */
  ghost function TreesFrom(kids: Kids, at: Places, root: Pref, m: Settings, q: Path, i: nat): seq<Tree>
    requires Laid(kids, at, root, m) && q in at && i <= |kids[at[q]]|
    decreases Below(at, q), 0, |kids[at[q]]| - i
  {
    var s := kids[at[q]];
    if i == |s| then []
    else
      assert s[i] in s;
      BelowChild(at, q, s[i].name);
      [TreeAt(kids, at, root, m, q + [s[i].name])] + TreesFrom(kids, at, root, m, q, i + 1)
  }

  // ------------------------------------------------------------------------------- writing

  method WriteItems(l: seq<string>) returns (es: seq<Event>)
    ensures es == Items(l)
  {
    es := [];
    var i := 0;
    assert l[0..] == l;
    while i < |l|
      invariant i <= |l| && es + Items(l[i..]) == Items(l)
    {
      assert l[i..][1..] == l[i + 1..];
      es := es + [Item(l[i])];
      i := i + 1;
    }
  }

  ghost predicate Stored(s: Store, q: Path)
    reads s, s.kids.Keys
  {
    s.Valid() && q in s.at
  }

  ghost function TreeOf(s: Store, q: Path): Tree
    requires Stored(s, q)
    reads s, s.kids.Keys
  {
    TreeAt(s.kids, s.at, s.root, s.Settings(), q)
  }

  ghost function Children(s: Store, q: Path): seq<Pref>
    requires Stored(s, q)
    reads s, s.kids.Keys
  {
    s.kids[s.at[q]]
  }

  ghost function TreesOf(s: Store, q: Path, i: nat): seq<Tree>
    requires Stored(s, q) && i <= |Children(s, q)|
    reads s, s.kids.Keys
  {
    TreesFrom(s.kids, s.at, s.root, s.Settings(), q, i)
  }

  /** gaim_prefs_write */
  method WritePref(s: Store, p: Pref, ghost q: Path) returns (es: seq<Event>)
    requires Stored(s, q) && s.at[q] == p
    ensures es == Emit(TreeOf(s, q))
    decreases Below(s.at, q), 1
  {
    hide Stored, Children, TreesOf, TreeOf, Below;
    WriteReady(s, q);
    var head := [StartPref(if p == s.root then "/" else p.name, p.value)];
    var body := WriteKids(s, p, q);
    var items: seq<Event> := [];
    if p.value.StrList? { items := WriteItems(p.value.l); }
    es := head + body + items + [EndPref];
  }

  /** Its loop over the children. */
  method WriteKids(s: Store, p: Pref, ghost q: Path) returns (body: seq<Event>)
    requires Stored(s, q) && s.at[q] == p
    ensures body == EmitAll(TreesOf(s, q, 0))
    decreases Below(s.at, q), 0
  {
    hide Stored, Children, TreesOf, TreeOf, Below, Emit, EmitAll, Under;
    EmitNone();
    ghost var c, i := Children(s, q), 0;
    FirstChild(s, q);
    body := [];
    var tmp := p.firstChild;
    while tmp != null
      invariant 0 <= i <= |c| && tmp == (if i == |c| then null else c[i])
      invariant body + EmitAll(TreesOf(s, q, i)) == EmitAll(TreesOf(s, q, 0))
      decreases |c| - i
    {
      ghost var was := body;
      NextChild(s, q, i);
      var more := WritePref(s, tmp, q + [tmp.name]);
      body := body + more;
      i := i + 1;
      tmp := tmp.sibling;
      EmitNext(was, TreeOf(s, q + [c[i - 1].name]), TreesOf(s, q, i));
    }
    LastChild(s, q);
  }

  lemma EmitNone()
    ensures EmitAll([]) == []
  {
  }

  lemma EmitNext(done: seq<Event>, t: Tree, ts: seq<Tree>)
    ensures done + EmitAll([t] + ts) == done + Emit(t) + EmitAll(ts)
  {
    hide Emit;
    assert ([t] + ts)[1..] == ts;
  }

  lemma WriteReady(s: Store, q: Path)
    requires Stored(s, q)
    ensures var p := s.at[q];
      TreeOf(s, q) == Tree(if p == s.root then "/" else p.name, p.value, TreesOf(s, q, 0))
  {
  }

  lemma FirstChild(s: Store, q: Path)
    requires Stored(s, q)
    ensures var c := Children(s, q); s.at[q].firstChild == if c == [] then null else c[0]
  {
  }

  lemma LastChild(s: Store, q: Path)
    requires Stored(s, q)
    ensures TreesOf(s, q, |Children(s, q)|) == []
  {
  }

  lemma NextChild(s: Store, q: Path, i: nat)
    requires Stored(s, q) && i < |Children(s, q)|
    ensures var c := Children(s, q)[i]; var r := q + [c.name];
      && Stored(s, r) && s.at[r] == c && Below(s.at, r) < Below(s.at, q)
      && c.sibling == (if i + 1 == |Children(s, q)| then null else Children(s, q)[i + 1])
      && TreesOf(s, q, i) == [TreeOf(s, r)] + TreesOf(s, q, i + 1)
  {
    hide IndexOK, OneEach, Reached, KidsDistinct, Canonical;
    var c := s.kids[s.at[q]][i];
    assert c in s.kids[s.at[q]];
    BelowChild(s.at, q, c.name);
  }

  // ------------------------------------------------------------------- what the tree is like

  lemma ChildPath(kids: Kids, at: Places, root: Pref, q: Path, i: nat)
    requires TreeOK(kids, at, root) && q in at && i < |kids[at[q]]|
    ensures var r := q + [kids[at[q]][i].name]; r in at && at[r] == kids[at[q]][i] && IsComponent(Name(r))
  {
    var c := kids[at[q]][i];
    assert c in kids[at[q]];
    var r := q + [c.name];
    assert Canonical(r) && r[|q|] == c.name;
  }

  /** A store of the same shape has the preferences of the tree, with their types. */
  lemma {:induction false} TreesShaped(kids: Kids, at: Places, root: Pref, m: Settings, n: Settings, q: Path, i: nat)
    requires Laid(kids, at, root, m) && SameShape(m, n) && q in at && i <= |kids[at[q]]|
    ensures ShapedAll(n, q, TreesFrom(kids, at, root, m, q, i)) && NamedAll(TreesFrom(kids, at, root, m, q, i))
    decreases Below(at, q), |kids[at[q]]| - i
  {
    hide KidsPlaced, OneEach, Reached, KidsDistinct;
    var s := kids[at[q]];
    if i < |s| {
      var r := q + [s[i].name];
      ChildPath(kids, at, root, q, i);
      BelowChild(at, q, s[i].name);
      TreesShaped(kids, at, root, m, n, r, 0);
      TreesShaped(kids, at, root, m, n, q, i + 1);
      assert Name(r) == s[i].name;
    }
  }

  /** The names of a tree are components of paths. */
  ghost predicate Named(t: Tree)
    decreases t, 1
  {
    IsComponent(t.name) && NamedAll(t.kids)
  }

  ghost predicate NamedAll(ts: seq<Tree>)
    decreases ts, 0
  {
    ts == [] || (Named(ts[0]) && NamedAll(ts[1..]))
  }

  lemma {:induction false} TreesAt(kids: Kids, at: Places, root: Pref, m: Settings, q: Path, i: nat, j: nat)
    requires Laid(kids, at, root, m) && q in at && i <= j < |kids[at[q]]|
    ensures var ts := TreesFrom(kids, at, root, m, q, i); var r := q + [kids[at[q]][j].name];
      |ts| == |kids[at[q]]| - i && r in at && ts[j - i] == TreeAt(kids, at, root, m, r)
    decreases j - i
  {
    hide Laid, TreeOK, TreeAt, TreesFrom;
    LaidAt(kids, at, root, m, q);
    ChildPath(kids, at, root, q, j);
    TreesLength(kids, at, root, m, q, i);
    TreesStep(kids, at, root, m, q, i);
    if i < j { TreesAt(kids, at, root, m, q, i + 1, j); }
  }

  lemma LaidAt(kids: Kids, at: Places, root: Pref, m: Settings, q: Path)
    requires Laid(kids, at, root, m) && q in at
    ensures TreeOK(kids, at, root) && m.Keys == at.Keys && at[q] in kids
  {
  }

  lemma TreesStep(kids: Kids, at: Places, root: Pref, m: Settings, q: Path, i: nat)
    requires Laid(kids, at, root, m) && q in at && i < |kids[at[q]]|
    ensures q + [kids[at[q]][i].name] in at
    ensures TreesFrom(kids, at, root, m, q, i) ==
            [TreeAt(kids, at, root, m, q + [kids[at[q]][i].name])] + TreesFrom(kids, at, root, m, q, i + 1)
  {
    ChildPath(kids, at, root, q, i);
  }

  lemma {:induction false} TreesLength(kids: Kids, at: Places, root: Pref, m: Settings, q: Path, i: nat)
    requires Laid(kids, at, root, m) && q in at && i <= |kids[at[q]]|
    ensures |TreesFrom(kids, at, root, m, q, i)| == |kids[at[q]]| - i
    decreases |kids[at[q]]| - i
  {
    if i < |kids[at[q]]| { TreesLength(kids, at, root, m, q, i + 1); }
  }

  /** Siblings in the tree have different names. */
  lemma {:induction false} TreesDistinct(kids: Kids, at: Places, root: Pref, m: Settings, q: Path, i: nat)
    requires Laid(kids, at, root, m) && q in at && i <= |kids[at[q]]|
    ensures DistinctAll(TreesFrom(kids, at, root, m, q, i))
    decreases Below(at, q), |kids[at[q]]| - i
  {
    hide KidsPlaced, OneEach, Reached, KidsDistinct;
    var s, ts := kids[at[q]], TreesFrom(kids, at, root, m, q, i);
    if i < |s| {
      var r := q + [s[i].name];
      ChildPath(kids, at, root, q, i);
      BelowChild(at, q, s[i].name);
      TreesDistinct(kids, at, root, m, r, 0);
      TreesDistinct(kids, at, root, m, q, i + 1);
      NamesDiffer(kids, at, root, q);
      TreesLength(kids, at, root, m, q, i);
      forall k | 1 <= k < |ts| ensures ts[k].name != ts[0].name {
        TreesAt(kids, at, root, m, q, i, i + k);
        TreesAt(kids, at, root, m, q, i, i);
      }
    }
  }

  // ------------------------------------------------------------------------------- reading

  /** The handlers can take the event: the names are components, and items are in preferences that are lists. */
  ghost predicate Takes(l: Loader, e: Event) {
    match e
    case StartPref(name, _) => name == "/" || IsComponent(name)
    case Item(_) => Reverse(l.stack) != [] && Reverse(l.stack) in l.m ==> l.m[Reverse(l.stack)].StrList?
    case EndPref => true
  }

  ghost predicate Readable(l: Loader, es: seq<Event>)
    decreases es
  {
    es == [] || (Takes(l, es[0]) && Readable(Handle(l, es[0]), es[1..]))
  }

  lemma StateThere(s: Store)
    requires s.Valid()
    ensures forall q :: q in s.at ==> s.at[q] in s.kids
  {
  }

  ghost function StateOf(s: Store): Loader
    requires s.Valid()
    reads s, s.kids.Keys
  {
    s.State()
  }

  /** One event, taken by its handler. */
  method TakeEvent(s: Store, e: Event)
    requires s.Valid() && Takes(StateOf(s), e)
    modifies s, s.kids.Keys
    ensures s.Valid() && StateOf(s) == Handle(old(StateOf(s)), e) && fresh(s.kids.Keys - old(s.kids.Keys))
  {
    hide TreeOK, IndexOK, Store.LinksOK, Canonical;
    StateThere(s);
    match e
    case StartPref(name, v) => s.StartElement(name, v);
    case Item(text) => s.StartItem(text);
    case EndPref => s.EndElement();
  }

  /** What the parser reports, event by event. */
  method Load(s: Store, es: seq<Event>)
    requires s.Valid() && Readable(StateOf(s), es)
    modifies s, s.kids.Keys
    ensures s.Valid() && StateOf(s) == Replay(old(StateOf(s)), es)
  {
    hide Store.Valid, StateOf, Handle, Takes;
    var i := 0;
    assert es[0..] == es;
    while i < |es|
      invariant i <= |es| && s.Valid() && Readable(StateOf(s), es[i..]) && fresh(s.kids.Keys - old(s.kids.Keys))
      invariant Replay(StateOf(s), es[i..]) == Replay(old(StateOf(s)), es)
    {
      assert es[i..][1..] == es[i + 1..];
      TakeEvent(s, es[i]);
      i := i + 1;
    }
  }

  // ----------------------------------------------------------- what is written can be read back

  lemma {:induction false} ReadableAppend(l: Loader, a: seq<Event>, b: seq<Event>)
    requires Readable(l, a) && Readable(Replay(l, a), b)
    ensures Readable(l, a + b)
    decreases a
  {
    if a == [] {
      assert a + b == b;
    } else {
      ReadableAppend(Handle(l, a[0]), a[1..], b);
      assert (a + b)[1..] == a[1..] + b;
    }
  }

  lemma {:induction false} ItemsReadable(m: Settings, stack: seq<string>, l: seq<string>)
    requires stack != [] && Reverse(stack) in m && m[Reverse(stack)].StrList?
    ensures Readable(Loader(m, stack), Items(l))
    decreases l
  {
    if l != [] {
      var q := Reverse(stack);
      ItemsReadable(m[q := StrList(m[q].l + [l[0]])], stack, l[1..]);
    }
  }

  lemma {:induction false} EmitReadable(m: Settings, stack: seq<string>, t: Tree)
    requires Shaped(m, Reverse(stack), t) && Named(t)
    ensures Readable(Loader(m, stack), Emit(t))
    decreases t, 1
  {
    var p, s := Reverse(stack), [t.name] + stack;
    var q := p + [t.name];
    assert Reverse(s) == q;
    var m1 := m[q := if t.value.StrList? then StrList([]) else t.value];
    assert Started(Loader(m, stack), t.name, t.value) == Loader(m1, s);
    ShapedAllStays(m, m1, q, t.kids);
    EmitAllReadable(m1, s, t.kids);
    EmitAllReplay(m1, s, t.kids);
    var m2 := OverlaidAll(m1, q, t.kids);
    CommutesAll(m1, q, t.kids, q, m1[q]);
    assert m1[q := m1[q]] == m1;
    var items := if t.value.StrList? then Items(t.value.l) else [];
    if t.value.StrList? { ItemsReadable(m2, s, t.value.l); }
    ReadableFour(Loader(m, stack), StartPref(t.name, t.value), EmitAll(t.kids), items, EndPref);
  }

  lemma ReadableFour(l: Loader, a: Event, b: seq<Event>, c: seq<Event>, d: Event)
    requires Takes(l, a) && Readable(Handle(l, a), b) && Readable(Replay(Handle(l, a), b), c) && d.EndPref?
    ensures Readable(l, [a] + b + c + [d])
  {
    var l1 := Handle(l, a);
    assert Readable(l, [a]) && Replay(l, [a]) == l1;
    ReadableAppend(l, [a], b);
    ReplayAppend(l, [a], b);
    ReadableAppend(l, [a] + b, c);
    ReadableAppend(l, [a] + b + c, [d]);
  }

  lemma {:induction false} EmitAllReadable(m: Settings, stack: seq<string>, ts: seq<Tree>)
    requires ShapedAll(m, Reverse(stack), ts) && NamedAll(ts)
    ensures Readable(Loader(m, stack), EmitAll(ts))
    decreases ts, 0
  {
    if ts != [] {
      var p := Reverse(stack);
      EmitReadable(m, stack, ts[0]);
      EmitReplay(m, stack, ts[0]);
      OverlaidShape(m, p, ts[0]);
      ShapedAllStays(m, Overlaid(m, p, ts[0]), p, ts[1..]);
      EmitAllReadable(Overlaid(m, p, ts[0]), stack, ts[1..]);
      ReadableAppend(Loader(m, stack), Emit(ts[0]), EmitAll(ts[1..]));
    }
  }

  // --------------------------------------------------------------- every setting is restored

  lemma {:induction false} PathAbove(kids: Kids, at: Places, root: Pref, x: Path, k: nat)
    requires PlacesOK(kids, at, root) && x in at && k <= |x|
    ensures x[..k] in at
    decreases |x|
  {
    if k < |x| {
      PathAbove(kids, at, root, Parent(x), k);
      assert Parent(x)[..k] == x[..k];
    } else {
      assert x[..k] == x;
    }
  }

  /** A path below q goes through a child of the preference at q. */
  lemma StepDown(kids: Kids, at: Places, root: Pref, q: Path, x: Path) returns (j: nat)
    requires TreeOK(kids, at, root) && q in at && x in at && Under(x, q) && x != q
    ensures j < |kids[at[q]]| && x[..|q| + 1] == q + [kids[at[q]][j].name] && x[..|q| + 1] in at
  {
    var r := x[..|q| + 1];
    PathAbove(kids, at, root, x, |q| + 1);
    assert Parent(r) == q;
    assert at[r] in kids[at[q]];
    j :| 0 <= j < |kids[at[q]]| && kids[at[q]][j] == at[r];
    assert r == Parent(r) + [Name(r)];
  }

  lemma {:induction false} HoldsAllAt(n: Settings, p: Path, ts: seq<Tree>, i: nat)
    requires HoldsAll(n, p, ts) && i < |ts|
    ensures Holds(n, p, ts[i])
    decreases ts
  {
    if i > 0 { HoldsAllAt(n, p, ts[1..], i - 1); }
  }

  /** Where a tree is held, all the settings it was made of are. */
  lemma {:induction false} TreesHeld(kids: Kids, at: Places, root: Pref, m: Settings, n: Settings, q: Path, x: Path)
    requires Laid(kids, at, root, m) && q in at && x in at && Under(x, q) && x != q
    requires HoldsAll(n, q, TreesFrom(kids, at, root, m, q, 0))
    ensures x in n && n[x] == m[x]
    decreases |x| - |q|
  {
    hide KidsPlaced, OneEach, Reached, KidsDistinct;
    var j := StepDown(kids, at, root, q, x);
    var r := q + [kids[at[q]][j].name];
    TreesAt(kids, at, root, m, q, 0, j);
    HoldsAllAt(n, q, TreesFrom(kids, at, root, m, q, 0), j);
    if x != r { TreesHeld(kids, at, root, m, n, r, x); }
  }

  /** What is written of one store and read into another that has the same preferences, with the same types, gives
      the other one every setting of the first, and leaves prefs_stack empty. */
  lemma Restored(kids: Kids, at: Places, root: Pref, m: Settings, n: Settings)
    requires Laid(kids, at, root, m) && SameShape(m, n) && m[[]] == NoValue
    ensures var es := Emit(TreeAt(kids, at, root, m, []));
      Readable(Loader(n, []), es) && Replay(Loader(n, []), es) == Loader(m, [])
  {
    var ts := TreesFrom(kids, at, root, m, [], 0);
    TreesShaped(kids, at, root, m, n, [], 0);
    TreesDistinct(kids, at, root, m, [], 0);
    EmitAllReadable(n, [], ts);
    ReadableFour(Loader(n, []), StartPref("/", NoValue), EmitAll(ts), [], EndPref);
    ReplayFour(Loader(n, []), StartPref("/", NoValue), EmitAll(ts), [], EndPref);
    EmitAllReplay(n, [], ts);
    WrittenAndRead(n, ts);
    NothingUnder(ts);
    AllHeld(kids, at, root, m, n, OverlaidAll(n, [], ts));
  }

  lemma AllHeld(kids: Kids, at: Places, root: Pref, m: Settings, n: Settings, k: Settings)
    requires Laid(kids, at, root, m) && SameShape(m, n) && SameShape(n, k) && m[[]] == NoValue
    requires HoldsAll(k, [], TreesFrom(kids, at, root, m, [], 0)) && AgreeAt(n, k, [])
    ensures k == m
  {
    hide Laid, TreeOK, TreesFrom, HoldsAll, Kind;
    RootLaid(kids, at, root, m);
    assert k.Keys == m.Keys;
    forall x | x in m ensures k[x] == m[x] {
      if x == [] {
        NoneOnly(n, m);
      } else {
        assert Under(x, []);
        TreesHeld(kids, at, root, m, k, [], x);
      }
    }
  }

  lemma RootLaid(kids: Kids, at: Places, root: Pref, m: Settings)
    requires Laid(kids, at, root, m)
    ensures m.Keys == at.Keys && [] in at
  {
  }

  lemma NoneOnly(n: Settings, m: Settings)
    requires SameShape(m, n) && [] in m && m[[]] == NoValue
    ensures n[[]] == NoValue
  {
  }

  lemma NothingUnder(ts: seq<Tree>)
    ensures forall i :: 0 <= i < |ts| ==> !Under([], [ts[i].name])
  {
  }

  /** gaim_prefs_write on one store, and the loading of what it has written into another. */
  method SaveAndLoad(a: Store, b: Store)
    requires a.Valid() && b.Valid() && b.stack == [] && SameShape(StateOf(a).m, StateOf(b).m)
    modifies b, b.kids.Keys
    ensures b.Valid() && StateOf(b) == Loader(old(StateOf(a).m), [])
  {
    hide Store.Valid, Laid, Readable, Emit, SameShape;
    RootThere(a);
    var es := WritePref(a, a.root, []);
    RestoredBy(a, b);
    Load(b, es);
  }

  lemma RestoredBy(a: Store, b: Store)
    requires a.Valid() && b.Valid() && b.stack == [] && SameShape(StateOf(a).m, StateOf(b).m)
    ensures Stored(a, [])
    ensures Readable(StateOf(b), Emit(TreeOf(a, [])))
    ensures Replay(StateOf(b), Emit(TreeOf(a, []))) == Loader(StateOf(a).m, [])
  {
    RootThere(a);
    StateThere(a);
    StateThere(b);
    hide Store.Valid, Laid, Readable, Emit, SameShape, Replay;
    Restored(a.kids, a.at, a.root, a.Settings(), b.Settings());
  }

  lemma RootThere(s: Store)
    requires s.Valid()
    ensures Stored(s, []) && s.at[[]] == s.root && Laid(s.kids, s.at, s.root, s.Settings())
    ensures s.Settings()[[]] == NoValue
  {
  }
}
