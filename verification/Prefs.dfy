/** The preferences in memory: a tree of nodes linked by parent, first child and sibling, the hash that
    finds a node by its path, and the handlers that read a tree back. */
module Prefs {
  import opened PrefsModel

  class Pref {
    const name: string
    var value: Value
    var parent: Pref?
    var sibling: Pref?
    var firstChild: Pref?

    constructor (name: string, value: Value)
      ensures this.name == name && this.value == value && parent == null && sibling == null && firstChild == null
    {
      this.name, this.value, parent, sibling, firstChild := name, value, null, null, null;
    }
  }

  /** s is the list of the children of owner, as the sibling pointers link it. */
  ghost predicate Chain(s: seq<Pref>, head: Pref?, owner: Pref)
    reads s`sibling, s`parent
  {
    && head == (if s == [] then null else s[0])
    && (forall i {:trigger s[i].sibling} :: 0 <= i < |s| ==> s[i].sibling == if i + 1 == |s| then null else s[i + 1])
    && (forall i {:trigger s[i].parent} :: 0 <= i < |s| ==> s[i].parent == owner)
  }

  function Parent(q: Path): Path
    requires q != []
  {
    q[..|q| - 1]
  }

  function Name(q: Path): string
    requires q != []
  {
    q[|q| - 1]
  }

  type Kids = map<Pref, seq<Pref>>
  type Places = map<Path, Pref>

  /** The node at a path is a child of the node at the path above it, and is named by its last component. */
  ghost predicate PlacesOK(kids: Kids, at: Places, root: Pref) {
    && [] in at && at[[]] == root
    && (forall q {:trigger q in at} :: q in at ==> at[q] in kids && Canonical(q))
    && (forall q {:trigger q in at} ::
        q in at && q != [] ==> Parent(q) in at && at[q] in kids[at[Parent(q)]] && at[q].name == Name(q))
  }

  /** A child is at the path below its parent's that its name gives. */
  ghost predicate KidsPlaced(kids: Kids, at: Places)
    requires forall q {:trigger q in at} :: q in at ==> at[q] in kids
  {
    forall q, c {:trigger c in kids[at[q]]} ::
        q in at && c in kids[at[q]] ==> q + [c.name] in at && at[q + [c.name]] == c
  }

  ghost predicate OneEach(at: Places) {
    forall q, r {:trigger at[q], at[r]} :: q in at && r in at && at[q] == at[r] ==> q == r
  }

  ghost predicate Reached(kids: Kids, at: Places) {
    forall p {:trigger p in kids} :: p in kids ==> exists q :: q in at && at[q] == p
  }

  ghost predicate Distinct(s: seq<Pref>) {
    forall i, j :: 0 <= i < j < |s| ==> s[i] != s[j]
  }

  ghost predicate KidsDistinct(kids: Kids) {
    forall p {:trigger kids[p]} :: p in kids ==> Distinct(kids[p])
  }

  /** The nodes are the tree that the paths describe: each is at one path. */
  ghost predicate TreeOK(kids: Kids, at: Places, root: Pref) {
    PlacesOK(kids, at, root) && KidsPlaced(kids, at) && OneEach(at) && Reached(kids, at) && KidsDistinct(kids)
  }

  ghost predicate SiblingsDiffer(s: seq<Pref>) {
    forall i, j :: 0 <= i < j < |s| ==> s[i].name != s[j].name
  }

  /** The hash holds every node but the root under the name of its path, and nothing else. */
  ghost predicate IndexOK(at: Places, hash: map<string, Pref>) {
    && (forall q {:trigger q in at} :: q in at && q != [] ==> Full(q) in hash && hash[Full(q)] == at[q])
    && (forall n {:trigger n in hash} :: n in hash ==> exists q :: q in at && q != [] && Full(q) == n)
  }

  /** The child of that name. */
  ghost function Child(s: seq<Pref>, name: string): Pref? {
    if s == [] then null else if s[0].name == name then s[0] else Child(s[1..], name)
  }

  /** Where walking the tree from the root by the components of q leads. */
  ghost function Walk(kids: Kids, root: Pref, q: Path): Pref? {
    if q == [] then root
    else
      var p := Walk(kids, root, Parent(q));
      if p == null || p !in kids then null else Child(kids[p], Name(q))
  }

  lemma {:induction false} ChildIs(s: seq<Pref>, name: string)
    ensures Child(s, name) != null ==> Child(s, name) in s && Child(s, name).name == name
    ensures Child(s, name) == null ==> forall i :: 0 <= i < |s| ==> s[i].name != name
  {
    if s != [] && s[0].name != name {
      ChildIs(s[1..], name);
      forall i | 0 <= i < |s| && Child(s, name) == null
        ensures s[i].name != name
      {
        assert i > 0 ==> s[i] == s[1..][i - 1];
      }
    }
  }

  /** Walking leads to the node at the path, if there is one, and nowhere else. */
  lemma {:induction false} WalkIs(kids: Kids, at: Places, root: Pref, q: Path)
    requires TreeOK(kids, at, root)
    ensures Walk(kids, root, q) == if q in at then at[q] else null
    decreases |q|
  {
    if q != [] {
      var r, c := Parent(q), Name(q);
      assert q == r + [c];
      WalkIs(kids, at, root, r);
      if r in at {
        var p := at[r];
        ChildIs(kids[p], c);
        var d := Child(kids[p], c);
        if q in at {
          var i :| 0 <= i < |kids[p]| && kids[p][i] == at[q];
        }
      }
    }
  }

  lemma NamesDiffer(kids: Kids, at: Places, root: Pref, q: Path)
    requires TreeOK(kids, at, root) && q in at
    ensures SiblingsDiffer(kids[at[q]])
  {
    var s := kids[at[q]];
    forall i, j | 0 <= i < j < |s| ensures s[i].name != s[j].name {
      assert s[i] in s && s[j] in s;
    }
  }

  // ----------------------------------------------------------------------------- adding

  ghost function MoreKids(kids: Kids, p: Pref, me: Pref): Kids
    requires p in kids
  {
    kids[p := kids[p] + [me]][me := []]
  }

  /** No two nodes have a child in common. */
  lemma OneParent(kids: Kids, at: Places, root: Pref, p: Pref, d: Pref, c: Pref)
    requires TreeOK(kids, at, root) && p in kids && d in kids && c in kids[p] && c in kids[d]
    ensures p == d
  {
    var q :| q in at && at[q] == p;
    var r :| r in at && at[r] == d;
    assert at[q + [c.name]] == at[r + [c.name]];
    assert (q + [c.name])[..|q|] == q && (r + [c.name])[..|r|] == r;
  }

  ghost predicate CanAdd(kids: Kids, at: Places, root: Pref, q: Path, me: Pref) {
    && TreeOK(kids, at, root) && Canonical(q) && q != [] && q !in at && Parent(q) in at
    && me !in kids && me.name == Name(q) && forall p :: p in kids ==> me !in kids[p]
  }

  lemma PlacesAdded(kids: Kids, at: Places, root: Pref, q: Path, me: Pref)
    requires CanAdd(kids, at, root, q, me)
    ensures PlacesOK(MoreKids(kids, at[Parent(q)], me), at[q := me], root)
  {
    hide Canonical, KidsPlaced, OneEach, Reached, KidsDistinct;
    var k, a := MoreKids(kids, at[Parent(q)], me), at[q := me];
    forall r | r in a && r != [] ensures Parent(r) in a && a[r] in k[a[Parent(r)]] && a[r].name == Name(r) {
      if r != q { assert r in at; }
    }
  }

  lemma KidsPlacedAdded(kids: Kids, at: Places, root: Pref, q: Path, me: Pref)
    requires CanAdd(kids, at, root, q, me) && PlacesOK(MoreKids(kids, at[Parent(q)], me), at[q := me], root)
    ensures KidsPlaced(MoreKids(kids, at[Parent(q)], me), at[q := me])
  {
    var k, a := MoreKids(kids, at[Parent(q)], me), at[q := me];
    assert q == Parent(q) + [me.name];
    forall r: Path, c: Pref | r in a && c in k[a[r]] ensures r + [c.name] in a && a[r + [c.name]] == c {
      if r != q {
        assert a[r] == at[r] && a[r] in kids;
        if at[r] == at[Parent(q)] && c == me { assert r == Parent(q); } else { assert c in kids[at[r]]; }
      }
    }
  }

  lemma RestAdded(kids: Kids, at: Places, root: Pref, q: Path, me: Pref)
    requires CanAdd(kids, at, root, q, me)
    ensures var k, a := MoreKids(kids, at[Parent(q)], me), at[q := me]; OneEach(a) && Reached(k, a) && KidsDistinct(k)
  {
    hide Canonical, KidsPlaced;
    var p := at[Parent(q)];
    var k, a := MoreKids(kids, p, me), at[q := me];
    forall d | d in k ensures exists r :: r in a && a[r] == d {
      if d == me {
        assert a[q] == d;
      } else {
        var r :| r in at && at[r] == d;
        assert a[r] == d;
      }
    }
    forall d | d in k ensures Distinct(k[d]) {
      if d == p { SnocDistinct(kids[p], me); }
    }
  }

  lemma SnocDistinct(s: seq<Pref>, x: Pref)
    requires Distinct(s) && x !in s
    ensures Distinct(s + [x])
  {
  }

  /** A new node at the end of the children of the node above it. */
  lemma TreeAdded(kids: Kids, at: Places, root: Pref, q: Path, me: Pref)
    requires CanAdd(kids, at, root, q, me)
    ensures TreeOK(MoreKids(kids, at[Parent(q)], me), at[q := me], root)
  {
    PlacesAdded(kids, at, root, q, me);
    KidsPlacedAdded(kids, at, root, q, me);
    RestAdded(kids, at, root, q, me);
  }

  lemma IndexAdded(at: Places, hash: map<string, Pref>, q: Path, me: Pref)
    requires IndexOK(at, hash) && Canonical(q) && q != [] && q !in at && forall r :: r in at ==> Canonical(r)
    ensures IndexOK(at[q := me], hash[Full(q) := me])
  {
    var a, h := at[q := me], hash[Full(q) := me];
    forall r | r in a && r != [] ensures Full(r) in h && h[Full(r)] == a[r] {
      if r != q && Full(r) == Full(q) { FullInjective(r, q); }
    }
    forall n | n in h ensures exists r :: r in a && r != [] && Full(r) == n {
      if n == Full(q) {
        assert q in a;
      } else {
        var r :| r in at && r != [] && Full(r) == n;
        assert r in a;
      }
    }
  }

  class Store {
    const root: Pref
    var hash: map<string, Pref>
    var stack: seq<string>

    ghost var kids: Kids
    ghost var at: Places

    ghost predicate LinksOK()
      reads this, kids.Keys
    {
      forall p {:trigger kids[p]} ::
          p in kids ==> (forall c :: c in kids[p] ==> c in kids) && Chain(kids[p], p.firstChild, p)
    }

    ghost predicate Valid()
      reads this, kids.Keys
    {
      TreeOK(kids, at, root) && IndexOK(at, hash) && LinksOK() && Canonical(stack) && root.value == NoValue
    }

    /** The settings by their paths. */
    ghost function Settings(): Settings
      requires forall q :: q in at ==> at[q] in kids
      reads this, kids.Keys
    {
      map q | q in at :: at[q].value
    }

    constructor ()
      ensures Valid() && fresh(root) && at == map[[] := root] && stack == []
    {
      root := new Pref("", NoValue);
      hash, stack := map[], [];
      new;
      kids, at := map[root := []], map[[] := root];
    }

    // --------------------------------------------------------------------------- finding

    /** find_pref */
    method FindPref(name: string) returns (p: Pref?)
      ensures p == if |name| == 0 || name[0] != '/' then null
        else if |name| == 1 then root
        else if name in hash then hash[name] else null
    {
      if |name| == 0 || name[0] != '/' { return null; }
      if |name| == 1 { return root; }
      p := if name in hash then hash[name] else null;
    }

    /** The hash finds, for the name of a canonical path, exactly the node that walking the tree leads to. */
    lemma FoundByWalking(q: Path)
      requires Valid() && Canonical(q) && q != []
      ensures (if Full(q) in hash then hash[Full(q)] else null) == Walk(kids, root, q)
    {
      WalkIs(kids, at, root, q);
      if Full(q) in hash {
        var r :| r in at && r != [] && Full(r) == Full(q);
        FullInjective(q, r);
      }
    }

    method FindPath(name: string, ghost q: Path) returns (p: Pref?)
      requires Valid() && Canonical(q) && name == (if q == [] then "/" else Full(q))
      ensures p == Walk(kids, root, q) == if q in at then at[q] else null
    {
      WalkIs(kids, at, root, q);
      if q != [] {
        FullStarts(q);
        FoundByWalking(q);
      }
      p := FindPref(name);
    }

    /** find_pref_parent */
    method FindPrefParent(name: string, ghost q: Path) returns (p: Pref?)
      requires Valid() && Canonical(q) && q != [] && name == Full(q)
      ensures p == if Parent(q) in at then at[Parent(q)] else null
    {
      SplitFull(q);
      var parentName := Dirname(name);
      p := root;
      if parentName != "/" { p := FindPath(parentName, Parent(q)); }
    }

    // ---------------------------------------------------------------------------- adding

    /** A child of that name, found along the sibling pointers. */
    method FindChild(parent: Pref, name: string) returns (found: bool)
      requires Valid() && parent in kids
      ensures found <==> Child(kids[parent], name) != null
    {
      ghost var s, i := kids[parent], 0;
      var sibling := parent.firstChild;
      assert s[..] == s[0..];
      while sibling != null
        invariant 0 <= i <= |s| && sibling == (if i == |s| then null else s[i])
        invariant Child(s, name) == Child(s[i..], name)
        decreases |s| - i
      {
        if sibling.name == name { return true; }
        assert s[i..][1..] == s[i + 1..];
        i := i + 1;
        sibling := sibling.sibling;
      }
      found := false;
    }

    /** The end of the sibling chain. */
    method LastSibling(s: Pref, ghost kin: seq<Pref>, ghost owner: Pref) returns (r: Pref)
      requires Chain(kin, s, owner)
      ensures r in kin && r == kin[|kin| - 1]
    {
      ghost var i := 0;
      r := s;
      while r.sibling != null
        invariant 0 <= i < |kin| && r == kin[i]
        decreases |kin| - i
      {
        i := i + 1;
        r := r.sibling;
      }
    }

    /** The new node becomes the last child. */
    method LinkLast(parent: Pref, me: Pref, ghost s: seq<Pref>)
      requires Chain(s, parent.firstChild, parent) && Distinct(s) && me !in s && me.sibling == null
      modifies parent`firstChild, me`parent, s`sibling
      ensures Chain(s + [me], parent.firstChild, parent)
    {
      me.parent := parent;
      if parent.firstChild != null {
        var last := LastSibling(parent.firstChild, s, parent);
        last.sibling := me;
      } else {
        parent.firstChild := me;
      }
    }

    /** The other chains are as they were. */
    twostate lemma OtherChains(p: Pref, new me: Pref)
      requires old(Valid()) && kids == old(kids) && at == old(at) && p in kids && me !in kids
      requires forall c :: c in kids && c !in kids[p] ==> c.sibling == old(c.sibling)
      requires forall c :: c in kids ==> c.parent == old(c.parent)
      requires forall d :: d in kids && d != p ==> d.firstChild == old(d.firstChild)
      ensures forall d {:trigger kids[d]} ::
          d in kids && d != p ==> (forall c :: c in kids[d] ==> c in kids) && Chain(kids[d], d.firstChild, d)
    {
      hide PlacesOK, KidsPlaced, OneEach, Reached, KidsDistinct, IndexOK, Canonical;
      forall d | d in kids && d != p
        ensures (forall c :: c in kids[d] ==> c in kids) && Chain(kids[d], d.firstChild, d)
      {
        assert old(Chain(kids[d], d.firstChild, d));
        forall c | c in kids[d] ensures c !in kids[p] {
          if c in kids[p] { OneParent(kids, at, root, p, d, c); }
        }
      }
    }

    /** me becomes the last child of p in memory. */
    method LinkNew(p: Pref, me: Pref)
      requires Valid() && p in kids && me !in kids && me.sibling == null && me.firstChild == null
      requires (forall d :: d in kids ==> me !in kids[d])
      modifies kids.Keys, me`parent
      ensures Chain(kids[p] + [me], p.firstChild, p) && me.firstChild == null && me.value == old(me.value)
      ensures forall d {:trigger kids[d]} ::
          d in kids && d != p ==> (forall c :: c in kids[d] ==> c in kids) && Chain(kids[d], d.firstChild, d)
      ensures forall d :: d in kids ==> d.value == old(d.value)
    {
      assert Distinct(kids[p]);
      LinkLast(p, me, kids[p]);
      OtherChains(p, me);
    }

    /** add_pref, and the value it is given: nothing is added without a parent, or beside a sibling of that name. */
    method AddPref(v: Value, name: string, ghost q: Path) returns (me: Pref?)
      requires Valid() && Canonical(q) && q != [] && name == Full(q)
      modifies this, kids.Keys
      ensures Valid() && stack == old(stack)
      ensures if q in old(at) || Parent(q) !in old(at) then
          me == null && at == old(at) && kids == old(kids) && Settings() == old(Settings())
        else
          me != null && fresh(me) && at == old(at)[q := me] && kids == MoreKids(old(kids), old(at)[Parent(q)], me)
          && Settings() == old(Settings())[q := v]
    {
      hide TreeOK, IndexOK, LinksOK, Canonical, CanAdd;
      var parent := FindFreePlace(name, q);
      if parent == null { return null; }
      SplitFull(q);
      me := new Pref(Basename(name), v);
      NewFits(q, me);
      Insert(parent, me, name, q);
    }

    /** The node above q, unless it is missing or has a child of that name. */
    method FindFreePlace(name: string, ghost q: Path) returns (parent: Pref?)
      requires Valid() && Canonical(q) && q != [] && name == Full(q)
      ensures (parent == null <==> q in at || Parent(q) !in at) && (parent != null ==> parent == at[Parent(q)])
    {
      WalkIs(kids, at, root, q);
      WalkIs(kids, at, root, Parent(q));
      SplitFull(q);
      hide Canonical, KidsPlaced, OneEach, Reached, KidsDistinct, IndexOK;
      parent := FindPrefParent(name, q);
      if parent == null { return; }
      var found := FindChild(parent, Basename(name));
      if found { parent := null; }
    }

    lemma NewFits(q: Path, me: Pref)
      requires Valid() && Canonical(q) && q != [] && q !in at && Parent(q) in at && me !in kids && me.name == Name(q)
      ensures CanAdd(kids, at, root, q, me) && at[Parent(q)] in kids
    {
      hide KidsPlaced, OneEach, Reached, KidsDistinct, IndexOK, Canonical;
      forall p | p in kids ensures me !in kids[p] {}
    }

    /** The tree follows the links. */
    ghost method Adopt(p: Pref, me: Pref)
      requires p in kids && me !in kids && Chain(kids[p] + [me], p.firstChild, p) && me.firstChild == null
      requires forall c :: c in kids[p] ==> c in kids
      requires forall d {:trigger kids[d]} ::
          d in kids && d != p ==> (forall c :: c in kids[d] ==> c in kids) && Chain(kids[d], d.firstChild, d)
      modifies `kids
      ensures kids == MoreKids(old(kids), p, me) && LinksOK()
    {
      ghost var k := kids;
      kids := MoreKids(kids, p, me);
      forall d | d in kids ensures (forall c :: c in kids[d] ==> c in kids) && Chain(kids[d], d.firstChild, d) {
        if d != p && d != me { assert kids[d] == k[d]; }
      }
    }

    /** The links, the hash and the tree with the new node me. */
    method Insert(parent: Pref, me: Pref, name: string, ghost q: Path)
      requires Valid() && CanAdd(kids, at, root, q, me) && parent == at[Parent(q)] && name == Full(q)
      requires me.sibling == null && me.firstChild == null
      modifies this`hash, this`kids, this`at, kids.Keys, me`parent
      ensures Valid() && at == old(at)[q := me] && kids == MoreKids(old(kids), parent, me)
      ensures Settings() == old(Settings())[q := old(me.value)]
    {
      hide TreeOK, IndexOK, Canonical, CanAdd, LinksOK;
      InsertReady(q, me);
      TreeAdded(kids, at, root, q, me);
      IndexAdded(at, hash, q, me);
      LinkNew(parent, me);
      hash := hash[name := me];
      at := at[q := me];
      Adopt(parent, me);
      forall r | r in old(at) ensures r in at && at[r].value == old(at[r].value) {}
    }

    lemma InsertReady(q: Path, me: Pref)
      requires Valid() && CanAdd(kids, at, root, q, me)
      ensures q != [] && Parent(q) in at && at[Parent(q)] in kids
      ensures (forall c :: c in kids[at[Parent(q)]] ==> c in kids)
      ensures forall r :: r in at ==> at[r] in kids && Canonical(r)
      ensures Canonical(q) && q !in at && me !in kids && forall p :: p in kids ==> me !in kids[p]
    {
    }

    // --------------------------------------------------------------------------- setting

    /** The value of the node at q, which is at no other path. */
    method SetValue(p: Pref, v: Value, ghost q: Path)
      requires Valid() && q in at && at[q] == p && q != []
      modifies p`value
      ensures Valid() && Settings() == old(Settings())[q := v]
    {
      hide TreeOK, IndexOK, Canonical;
      PlacedNodes();
      OnlyAt(q);
      NotRoot(q);
      p.value := v;
    }

    lemma NotRoot(q: Path)
      requires Valid() && q in at && q != []
      ensures at[q] != root
    {
    }

    lemma OnlyAt(q: Path)
      requires Valid() && q in at
      ensures forall r :: r in at && r != q ==> at[r] != at[q]
    {
    }

    /** The typed setters: a preference of another type is left alone, a missing one is added. */
    method SetPref(name: string, v: Value, ghost q: Path)
      requires Valid() && Canonical(q) && q != [] && name == Full(q)
      modifies this, kids.Keys
      ensures Valid() && stack == old(stack) && Settings() == SetAt(old(Settings()), q, v)
      ensures fresh(kids.Keys - old(kids.Keys))
      ensures var m := old(Settings());
        Settings() == if (if q in m then SameType(m[q], v) else q[..|q| - 1] in m) then m[q := v] else m
    {
      hide TreeOK, IndexOK, LinksOK, Canonical, SetAt, SameType, Kind;
      PlacedNodes();
      SetAtIs(Settings(), q, v);
      if q in Settings() { KindIs(Settings()[q], v); }
      var pref := FindPath(name, q);
      if pref != null {
        if Kind(pref.value) != Kind(v) { return; }
        if pref.value != v {
          SetValue(pref, v, q);
        } else {
          assert Settings()[q := v] == Settings();
        }
      } else {
        var me := AddPref(v, name, q);
      }
    }

    lemma PlacedNodes()
      requires Valid()
      ensures forall r :: r in at ==> at[r] in kids
    {
    }

    // ----------------------------------------------------------------------- reading back

    /** The settings and prefs_stack. */
    ghost function State(): Loader
      requires forall q :: q in at ==> at[q] in kids
      reads this, kids.Keys
    {
      Loader(Settings(), stack)
    }

    /** The name of a pref element: its own name, with the names on the stack before it. */
    method FullName(name: string) returns (full: string)
      ensures full == Full(Reverse(stack) + [name])
    {
      hide Full, Reverse;
      full := name;
      var i := 0;
      assert stack[..0] == [];
      NoStack(name);
      while i < |stack|
        invariant i <= |stack| && "/" + full == Full(Reverse(stack[..i]) + [name])
      {
        StackMore(stack, i, name);
        full := stack[i] + "/" + full;
        i := i + 1;
      }
      assert stack[..i] == stack;
      full := "/" + full;
    }

    /** The name of the pref element that an item is inside of. */
    method StackName() returns (full: string)
      ensures full == Full(Reverse(stack))
    {
      hide Full, Reverse;
      full := "";
      var i := 0;
      assert stack[..0] == [];
      NoneAtAll();
      while i < |stack|
        invariant i <= |stack| && full == Full(Reverse(stack[..i]))
      {
        ReverseMore(stack, i);
        FullCons(stack[i], Reverse(stack[..i]));
        full := "/" + (stack[i] + full);
        i := i + 1;
      }
      assert stack[..i] == stack;
    }

    /** The name becomes the current element. */
    method Push(name: string)
      requires Valid() && IsComponent(name)
      modifies `stack
      ensures Valid() && stack == [name] + old(stack) && Settings() == old(Settings())
    {
      hide TreeOK, IndexOK;
      PlacedNodes();
      stack := [name] + stack;
    }

    /** prefs_start_element_handler on a pref element. */
    method StartElement(name: string, v: Value)
      requires Valid() && (name == "/" || IsComponent(name))
      modifies this, kids.Keys
      ensures Valid() && State() == Started(old(State()), name, v) && fresh(kids.Keys - old(kids.Keys))
    {
      hide TreeOK, IndexOK, LinksOK, Canonical, Full, Reverse, SetAt;
      PlacedNodes();
      if name == "/" { return; }
      ghost var q := Reverse(stack) + [name];
      CanonicalReverse(stack, name);
      var full := FullName(name);
      if v.StrList? {
        SetPref(full, StrList([]), q);
      } else if !v.NoValue? {
        SetPref(full, v, q);
      }
      PlacedNodes();
      Push(name);
    }

    /** prefs_start_element_handler on an item element, inside a preference that is a list. */
    method StartItem(text: string)
      requires Valid()
      requires Reverse(stack) != [] && Reverse(stack) in Settings() ==> Settings()[Reverse(stack)].StrList?
      modifies this, kids.Keys
      ensures Valid() && State() == ItemRead(old(State()), text) && fresh(kids.Keys - old(kids.Keys))
    {
      hide TreeOK, IndexOK, LinksOK, Canonical, Full;
      PlacedNodes();
      ghost var q := Reverse(stack);
      CanonicalStack(stack);
      var full := StackName();
      if stack == [] {
        NoneAtAll();
        var none := FindPref(full);
      } else {
        FullStarts(q);
        var pref := FindPath(full, q);
        if pref != null { SetValue(pref, StrList(pref.value.l + [text]), q); }
      }
    }

    /** prefs_end_element_handler on a pref element. */
    method EndElement()
      requires Valid()
      modifies `stack
      ensures Valid() && State() == Ended(old(State()))
    {
      hide TreeOK, IndexOK;
      PlacedNodes();
      if stack != [] { stack := stack[1..]; }
    }
  }

  // --------------------------------------------------------------------- names and stacks

  lemma NoStack(name: string)
    ensures "/" + name == Full(Reverse([]) + [name])
  {
    var p: Path := Reverse([]) + [name];
    assert p == [name] && p[..0] == [];
  }

  lemma NoneAtAll()
    ensures Full(Reverse([])) == ""
  {
  }

  lemma CanonicalStack(s: seq<string>)
    requires Canonical(s)
    ensures Canonical(Reverse(s))
  {
    CanonicalReverse(s, "x");
    var q := Reverse(s) + ["x"];
    assert forall i :: 0 <= i < |s| ==> q[i] == Reverse(s)[i];
  }

  lemma ReverseMore(s: seq<string>, i: nat)
    requires i < |s|
    ensures Reverse(s[..i + 1]) == [s[i]] + Reverse(s[..i])
    decreases |s|
  {
    if i == 0 {
      assert s[..1][1..] == [] && s[..0] == [];
    } else {
      ReverseMore(s[1..], i - 1);
      assert s[..i + 1][1..] == s[1..][..i] && s[..i][1..] == s[1..][..i - 1];
    }
  }

  lemma {:induction false} FullCons(c: string, p: Path)
    ensures Full([c] + p) == "/" + c + Full(p)
    decreases |p|
  {
    var q := [c] + p;
    if p == [] {
      assert q[..0] == [] && q[0] == c;
    } else {
      var n := |p| - 1;
      FullCons(c, p[..n]);
      assert q[..|q| - 1] == [c] + p[..n] && q[|q| - 1] == p[n];
    }
  }

  lemma StackMore(s: seq<string>, i: nat, name: string)
    requires i < |s|
    ensures Full(Reverse(s[..i + 1]) + [name]) == "/" + s[i] + Full(Reverse(s[..i]) + [name])
  {
    ReverseMore(s, i);
    FullCons(s[i], Reverse(s[..i]) + [name]);
    assert [s[i]] + (Reverse(s[..i]) + [name]) == Reverse(s[..i + 1]) + [name];
  }

  lemma {:induction false} CanonicalReverse(s: seq<string>, name: string)
    requires Canonical(s) && IsComponent(name)
    ensures Canonical(Reverse(s) + [name])
    decreases |s|
  {
    if s != [] {
      CanonicalReverse(s[1..], s[0]);
      assert Reverse(s) == Reverse(s[1..]) + [s[0]];
    }
  }
}
