/** The buddy list as a value: who sits under whom and in what order, and every
    quantity the buddy list caches, defined by recounting. */
module BlistModel {

  datatype Kind = Group | Contact | Chat | Buddy
  datatype Presence = SigningOff | Offline | Online | SigningOn

  /** The identity of a GaimAccount. */
  type Account = nat

  type Status = bv32
  const UC_UNAVAILABLE: Status := 1

  /** The cached counters of a group or contact. */
  datatype Counts = Counts(totalsize: int, currentsize: int, online: int)

  /** The state of a buddy. */
  datatype Info = Info(present: Presence, idle: int, uc: Status, timer: bool)

  /** One buddy list node. The C structures GaimGroup, GaimContact, GaimBlistChat and
      GaimBuddy all begin with a GaimBlistNode and are cast to one another by their
      type tag, so one class with the union of their fields stands for all four. */
  class Node {
    const kind: Kind
    const account: Account  // of a buddy or chat
    const name: string      // of a buddy

    var prev: Node?
    var next: Node?
    var parent: Node?
    var child: Node?

    var counts: Counts      // of a group or contact
    var groupName: string   // of a group
    var priority: Node?     // of a contact
    var info: Info          // of a buddy

    constructor (kind: Kind, name: string, account: Account)
      ensures this.kind == kind && this.name == name && this.account == account
      ensures prev == null && next == null && parent == null && child == null
      ensures counts == Counts(0, 0, 0) && groupName == name && priority == null
      ensures info == Info(Offline, 0, 0, false)
    {
      this.kind, this.name, this.account := kind, name, account;
      prev, next, parent, child := null, null, null, null;
      counts, groupName, priority, info := Counts(0, 0, 0), name, null, Info(Offline, 0, 0, false);
    }
  }

  /** The key of the hash of buddies. */
  datatype Key = Key(name: string, account: Account, group: Node?)

  /** kids[null] is the list of groups, kids[p] the children of a group or contact p,
      par the parent of every node in the list; then the scalar fields of all nodes
      ever met, the hash of buddies, and the accounts that have a live connection. */
  datatype World = World(
    kids: map<Node?, seq<Node>>, par: map<Node, Node?>,
    nodes: set<Node>, total: map<Node, int>, current: map<Node, int>, online: map<Node, int>,
    prio: map<Node, Node?>, info: map<Node, Info>, names: map<Node, string>,
    index: map<Key, Node>, connected: set<Account>)

  // ---------------------------------------------------------------- sequences

  ghost predicate Distinct(s: seq<Node>) {
    forall i, j :: 0 <= i < j < |s| ==> s[i] != s[j]
  }

  ghost function Without(s: seq<Node>, x: Node): seq<Node> {
    if s == [] then [] else if s[0] == x then s[1..] else [s[0]] + Without(s[1..], x)
  }

  /** s with x put right after a, or in front when a is null. */
  ghost function AddAfter(s: seq<Node>, a: Node?, x: Node): seq<Node> {
    if a == null then [x] + s
    else if s == [] then []
    else if s[0] == a then [a, x] + s[1..]
    else [s[0]] + AddAfter(s[1..], a, x)
  }

  ghost function Last(s: seq<Node>): Node? {
    if s == [] then null else s[|s| - 1]
  }

  lemma {:induction false} WithoutAt(s: seq<Node>, i: nat)
    requires i < |s| && Distinct(s)
    ensures Without(s, s[i]) == s[..i] + s[i + 1..]
  {
    if i > 0 {
      WithoutAt(s[1..], i - 1);
      assert s[1..][..i - 1] == s[1..i] && s[1..][i - 1 + 1..] == s[i + 1..];
      assert s[..i] == [s[0]] + s[1..i];
    }
  }

  lemma {:induction false} AddAfterAt(s: seq<Node>, i: nat, x: Node)
    requires i < |s| && Distinct(s)
    ensures AddAfter(s, s[i], x) == s[..i + 1] + [x] + s[i + 1..]
  {
    if i > 0 {
      AddAfterAt(s[1..], i - 1, x);
      assert s[1..][..i - 1 + 1] == s[1..i + 1] && s[1..][i - 1 + 1..] == s[i + 1..];
      assert s[..i + 1] == [s[0]] + s[1..i + 1];
    } else {
      assert s[..1] == [s[0]];
    }
  }

  /** t has the members of s and x. */
  ghost predicate MembersPlus(t: seq<Node>, s: seq<Node>, x: Node) {
    && x in t
    && (forall m: Node {:trigger m in s} :: m in s ==> m in t)
    && (forall m: Node {:trigger m in t} :: m in t ==> m in s || m == x)
  }

  lemma WithoutMembers(s: seq<Node>, x: Node)
    requires Distinct(s) && x in s
    ensures Distinct(Without(s, x))
    ensures MembersPlus(s, Without(s, x), x) && x !in Without(s, x)
  {
    var i :| 0 <= i < |s| && s[i] == x;
    WithoutAt(s, i);
    forall m: Node | m in s && m != x ensures m in Without(s, x) {
      var j :| 0 <= j < |s| && s[j] == m;
      assert m == (s[..i] + s[i + 1..])[if j < i then j else j - 1];
    }
  }

  lemma AddAfterMembers(s: seq<Node>, a: Node?, x: Node)
    requires Distinct(s) && x !in s && (a != null ==> a in s)
    ensures Distinct(AddAfter(s, a, x))
    ensures MembersPlus(AddAfter(s, a, x), s, x)
  {
    if a == null {
      MiddleMembers([], x, s);
    } else {
      var i :| 0 <= i < |s| && s[i] == a;
      AddAfterAt(s, i, x);
      assert s == s[..i + 1] + s[i + 1..];
      MiddleMembers(s[..i + 1], x, s[i + 1..]);
    }
  }

  lemma MiddleMembers(t: seq<Node>, x: Node, u: seq<Node>)
    requires Distinct(t + u) && x !in t + u
    ensures Distinct(t + [x] + u)
    ensures MembersPlus(t + [x] + u, t + u, x)
  {
    var s := t + [x] + u;
    forall i, j | 0 <= i < j < |s| ensures s[i] != s[j] {
      assert i != |t| ==> s[i] == (t + u)[if i < |t| then i else i - 1];
      assert j != |t| ==> s[j] == (t + u)[if j < |t| then j else j - 1];
    }
  }

  // ----------------------------------------------------------------- counting

  ghost function Count(s: seq<Node>, f: Node -> bool): nat {
    if s == [] then 0 else (if f(s[0]) then 1 else 0) + Count(s[1..], f)
  }

  lemma {:induction false} CountAppend(a: seq<Node>, b: seq<Node>, f: Node -> bool)
    ensures Count(a + b, f) == Count(a, f) + Count(b, f)
  {
    if a == [] {
      assert a + b == b;
    } else {
      CountAppend(a[1..], b, f);
      assert (a + b)[1..] == a[1..] + b;
    }
  }

  lemma {:induction false} CountAgree(s: seq<Node>, f: Node -> bool, g: Node -> bool)
    requires forall i :: 0 <= i < |s| ==> f(s[i]) == g(s[i])
    ensures Count(s, f) == Count(s, g)
  {
    if s != [] { CountAgree(s[1..], f, g); }
  }

  lemma {:induction false} CountPositive(s: seq<Node>, f: Node -> bool, i: nat)
    requires i < |s| && f(s[i])
    ensures Count(s, f) > 0
  {
    if i > 0 { CountPositive(s[1..], f, i - 1); }
  }

  /** Counting what is left, or added, when one node leaves or enters a list. */
  lemma CountWithout(s: seq<Node>, x: Node, f: Node -> bool)
    requires x in s && Distinct(s)
    ensures Count(Without(s, x), f) == Count(s, f) - (if f(x) then 1 else 0)
    ensures |Without(s, x)| == |s| - 1
  {
    var i :| 0 <= i < |s| && s[i] == x;
    WithoutAt(s, i);
    CountAppend(s[..i], s[i + 1..], f);
    CountAppend(s[..i], s[i..], f);
    assert s[..i] + s[i..] == s && s[i..][1..] == s[i + 1..];
  }

  lemma CountAddAfter(s: seq<Node>, a: Node?, x: Node, f: Node -> bool)
    requires Distinct(s) && (a != null ==> a in s)
    ensures Count(AddAfter(s, a, x), f) == Count(s, f) + (if f(x) then 1 else 0)
    ensures |AddAfter(s, a, x)| == |s| + 1
  {
    if a == null {
      assert ([x] + s)[1..] == s;
    } else {
      var i :| 0 <= i < |s| && s[i] == a;
      CountAddAt(s, i, x, f);
    }
  }

  lemma CountAddAt(s: seq<Node>, i: nat, x: Node, f: Node -> bool)
    requires Distinct(s) && i < |s|
    ensures Count(AddAfter(s, s[i], x), f) == Count(s, f) + (if f(x) then 1 else 0)
    ensures |AddAfter(s, s[i], x)| == |s| + 1
  {
    hide Distinct, AddAfter, Count;
    AddAfterAt(s, i, x);
    CountMiddle(s[..i + 1], x, s[i + 1..], f);
    assert s[..i + 1] + s[i + 1..] == s;
  }

  lemma CountMiddle(t: seq<Node>, x: Node, u: seq<Node>, f: Node -> bool)
    ensures Count(t + [x] + u, f) == Count(t + u, f) + (if f(x) then 1 else 0)
  {
    CountAppend(t, u, f);
    CountAppend(t, [x] + u, f);
    assert t + [x] + u == t + ([x] + u);
    assert ([x] + u)[1..] == u;
  }

  /** A list whose predicate changes for one member only. */
  lemma CountFlip(s: seq<Node>, x: Node, f: Node -> bool, g: Node -> bool)
    requires x in s && Distinct(s)
    requires forall i :: 0 <= i < |s| && s[i] != x ==> f(s[i]) == g(s[i])
    ensures Count(s, g) == Count(s, f) - (if f(x) then 1 else 0) + (if g(x) then 1 else 0)
  {
    var i :| 0 <= i < |s| && s[i] == x;
    WithoutAt(s, i);
    CountWithout(s, x, f);
    CountWithout(s, x, g);
    CountAgree(s[..i] + s[i + 1..], f, g);
  }

  // ------------------------------------------------- the tree and its derived data

  /** Every node is in exactly the list its parent owns, once. */
  ghost predicate ListsOK(kids: map<Node?, seq<Node>>, par: map<Node, Node?>) {
    && null in kids
    && (forall p: Node?, n: Node {:trigger n in kids[p]} :: p in kids && n in kids[p] ==> n in par && par[n] == p)
    && (forall n: Node {:trigger par[n]} :: n in par ==> par[n] in kids && n in kids[par[n]])
    && (forall p: Node? {:trigger kids[p]} :: p in kids ==> Distinct(kids[p]))
  }

  ghost predicate KindOK(kids: map<Node?, seq<Node>>, par: map<Node, Node?>, n: Node)
    requires n in par
  {
    var p := par[n];
    match n.kind
    case Group => p == null && n in kids
    case Contact => p != null && p.kind.Group? && n in kids
    case Chat => p != null && p.kind.Group? && n !in kids
    case Buddy => p != null && p.kind.Contact? && n !in kids
  }

  /** Groups at the top, contacts and chats in groups, buddies in contacts. */
  ghost predicate KindsOK(kids: map<Node?, seq<Node>>, par: map<Node, Node?>) {
    forall n: Node {:trigger n in par} :: n in par ==> KindOK(kids, par, n)
  }

  /** Only nodes of the list own lists; one contact may be excepted while it is moved. */
  ghost predicate OwnersOK(kids: map<Node?, seq<Node>>, par: map<Node, Node?>, loose: Node?) {
    forall p: Node? {:trigger p in kids} :: p in kids && p != null && p != loose ==> p in par
  }

  ghost predicate NodesOK(kids: map<Node?, seq<Node>>, par: map<Node, Node?>, nodes: set<Node>) {
    && (forall n: Node {:trigger n in par} :: n in par ==> n in nodes)
    && (forall p: Node? {:trigger p in kids} :: p in kids && p != null ==> p in nodes)
  }

  /** The scalar fields are recorded for every node ever met. */
  ghost predicate FieldsOK(w: World) {
    forall n: Node {:trigger n in w.nodes} :: n in w.nodes ==>
      n in w.total && n in w.current && n in w.online && n in w.info && n in w.prio && n in w.names
  }

  ghost predicate Shape(kids: map<Node?, seq<Node>>, par: map<Node, Node?>, nodes: set<Node>, loose: Node?) {
    ListsOK(kids, par) && KindsOK(kids, par) && OwnersOK(kids, par, loose) && NodesOK(kids, par, nodes)
  }

  ghost predicate WellFormed(w: World) {
    Shape(w.kids, w.par, w.nodes, null) && FieldsOK(w)
  }

  /** A parent is of another kind than its children. */
  lemma NotOwnChild(kids: map<Node?, seq<Node>>, par: map<Node, Node?>, p: Node?)
    requires ListsOK(kids, par) && KindsOK(kids, par) && p in kids
    ensures p !in kids[p]
  {
  }

  // ------------------------------------------------------- quantities by recounting

  /** Buddies and chats on connected accounts. */
  ghost function ConnectedF(connected: set<Account>): Node -> bool {
    (n: Node) => n.account in connected
  }

  /** Buddies that are not Offline (SigningOff still counts) and connected chats. */
  ghost function OnlineF(info: map<Node, Info>, connected: set<Account>): Node -> bool {
    (n: Node) => if n.kind.Chat? then n.account in connected else n in info && info[n].present != Offline
  }

  /** A chat with f, or a contact that has a buddy with f. */
  ghost function LiveF(kids: map<Node?, seq<Node>>, f: Node -> bool): Node -> bool {
    (n: Node) => if n.kind.Chat? then f(n) else n in kids && Count(kids[n], f) > 0
  }

  /** What a contact or group should count: its buddies with f, or its live children. */
  ghost function Tally(kids: map<Node?, seq<Node>>, f: Node -> bool, p: Node): nat
    requires p in kids
  {
    Count(kids[p], if p.kind.Contact? then f else LiveF(kids, f))
  }

  ghost function Bit(b: bool): nat { if b then 1 else 0 }

  ghost predicate Leaf(n: Node) { n.kind.Buddy? || n.kind.Chat? }

  lemma TallyAgree(w: World, f: Node -> bool, g: Node -> bool, p: Node)
    requires WellFormed(w) && p in w.kids
    requires forall n: Node :: n in w.par && Leaf(n) ==> f(n) == g(n)
    ensures Tally(w.kids, f, p) == Tally(w.kids, g, p)
  {
    var s := w.kids[p];
    forall i | 0 <= i < |s| ensures s[i] in w.par && LiveF(w.kids, f)(s[i]) == LiveF(w.kids, g)(s[i]) {
      assert s[i] in s;
      if s[i] in w.kids {
        var t := w.kids[s[i]];
        forall k | 0 <= k < |t| ensures f(t[k]) == g(t[k]) { assert t[k] in t; }
        CountAgree(t, f, g);
      }
    }
    if p.kind.Contact? {
      forall i | 0 <= i < |s| ensures f(s[i]) == g(s[i]) { assert s[i] in s; }
      CountAgree(s, f, g);
    } else {
      CountAgree(s, LiveF(w.kids, f), LiveF(w.kids, g));
    }
  }

  // ------------------------------------------------------ moving one node in the tree

  ghost function Removed(w: World, n: Node): World
    requires n in w.par && w.par[n] in w.kids
  {
    w.(kids := w.kids[w.par[n] := Without(w.kids[w.par[n]], n)], par := w.par - {n})
  }

  /** n becomes a child of p, right after a, or its first child when a is null. */
  ghost function Inserted(w: World, n: Node, p: Node?, a: Node?): World
    requires p in w.kids
  {
    w.(kids := w.kids[p := AddAfter(w.kids[p], a, n)], par := w.par[n := p])
  }

  lemma RemovedLists(w: World, n: Node)
    requires ListsOK(w.kids, w.par) && n in w.par
    ensures ListsOK(Removed(w, n).kids, Removed(w, n).par)
  {
    WithoutMembers(w.kids[w.par[n]], n);
    var v := Removed(w, n);
    forall p: Node?, m: Node | p in v.kids && m in v.kids[p] ensures m in v.par && v.par[m] == p {
      if p == w.par[n] { WithoutMembers(w.kids[p], n); } else { assert v.kids[p] == w.kids[p]; }
    }
  }

  lemma InsertedLists(w: World, n: Node, p: Node?, a: Node?)
    requires ListsOK(w.kids, w.par) && n !in w.par && p in w.kids && (a != null ==> a in w.kids[p])
    ensures ListsOK(Inserted(w, n, p, a).kids, Inserted(w, n, p, a).par)
  {
    assert n !in w.kids[p];
    AddAfterMembers(w.kids[p], a, n);
    var v := Inserted(w, n, p, a);
    forall q: Node?, m: Node | q in v.kids && m in v.kids[q] ensures m in v.par && v.par[m] == q {
      if q == p { AddAfterMembers(w.kids[p], a, n); } else { assert v.kids[q] == w.kids[q]; }
    }
  }

  lemma RemovalPoint(w: World, n: Node) returns (i: nat)
    requires ListsOK(w.kids, w.par) && n in w.par
    ensures var s := w.kids[w.par[n]]; i < |s| && s[i] == n && Distinct(s) && Without(s, n) == s[..i] + s[i + 1..]
  {
    var s := w.kids[w.par[n]];
    i :| 0 <= i < |s| && s[i] == n;
    WithoutAt(s, i);
  }

  lemma InsertPoint(w: World, n: Node, p: Node?, a: Node?) returns (i: nat)
    requires ListsOK(w.kids, w.par) && n !in w.par && p in w.kids && (a != null ==> a in w.kids[p])
    ensures ListsOK(Inserted(w, n, p, a).kids, Inserted(w, n, p, a).par) && n !in w.kids[p]
    ensures var s := w.kids[p];
      && (if a == null then i == 0 else 0 < i <= |s| && s[i - 1] == a)
      && AddAfter(s, a, n) == s[..i] + [n] + s[i..]
  {
    InsertedLists(w, n, p, a);
    var s := w.kids[p];
    if a == null {
      i := 0;
    } else {
      var k :| 0 <= k < |s| && s[k] == a;
      AddAfterAt(s, k, n);
      i := k + 1;
    }
  }

  // ------------------------------------------------------------------ the invariants

  /** The keys of the buddies of the list: name, account, and group, two steps up. */
  ghost function Keys(par: map<Node, Node?>, norm: string -> string): map<Node, Key> {
    map b: Node | b in par && b.kind.Buddy? && par[b] != null && par[b] in par ::
      Key(norm(b.name), b.account, par[par[b]])
  }

  ghost predicate Inverse(keys: map<Node, Key>, index: map<Key, Node>) {
    && (forall b: Node {:trigger b in keys} :: b in keys ==> keys[b] in index && index[keys[b]] == b)
    && (forall k: Key {:trigger k in index} :: k in index ==> index[k] in keys && keys[index[k]] == k)
  }

  /** index holds every buddy of the list under its key, and nothing else. */
  ghost predicate IndexOK(w: World, norm: string -> string, index: map<Key, Node>) {
    Inverse(Keys(w.par, norm), index)
  }

  /** m caches, for every contact and group, what a recount by f gives. */
  ghost predicate Consistent(kids: map<Node?, seq<Node>>, f: Node -> bool, m: map<Node, int>) {
    forall p: Node {:trigger p in kids} :: p in kids ==> p in m && m[p] == Tally(kids, f, p)
  }

  /** A contact's totalsize is its number of buddies. A group's stays one too
      high once a contact goes with its last buddy. */
  ghost predicate TotalsOK(kids: map<Node?, seq<Node>>, m: map<Node, int>) {
    forall p: Node {:trigger p in kids} :: p in kids && p.kind.Contact? ==> p in m && m[p] == |kids[p]|
  }

  ghost predicate SizesOK(w: World) {
    TotalsOK(w.kids, w.total) && Consistent(w.kids, ConnectedF(w.connected), w.current)
  }

  /** No two groups have the same name. */
  ghost predicate NamesOK(w: World)
    requires WellFormed(w)
  {
    forall g: Node, h: Node {:trigger g in w.kids[null], h in w.kids[null]} ::
      g in w.kids[null] && h in w.kids[null] && w.names[g] == w.names[h] ==> g == h
  }

  ghost predicate Inv(w: World, norm: string -> string) {
    WellFormed(w) && SizesOK(w) && NamesOK(w) && IndexOK(w, norm, w.index)
  }

  /** The buddies of accounts that are not connected are Offline. */
  ghost predicate OfflineOK(w: World) {
    forall b: Node {:trigger b in w.par} :: b in w.par && b.kind.Buddy? ==>
      b in w.info && (b.account !in w.connected ==> w.info[b].present == Offline)
  }

  /** The cached online counts are what a recount gives. */
  ghost predicate OnlineOK(w: World) {
    Consistent(w.kids, OnlineF(w.info, w.connected), w.online) && OfflineOK(w)
  }

  ghost predicate PriorityAt(w: World, c: Node)
    requires c in w.kids
  {
    c in w.prio && IsPriority(w.kids[c], w.info, w.connected, w.prio[c])
  }

  ghost predicate PrioritiesOK(w: World) {
    forall c: Node {:trigger c in w.kids} :: c in w.kids && c.kind.Contact? ==> PriorityAt(w, c)
  }

  /** A timer is pending exactly while a buddy is signing on or off. */
  ghost predicate TimerAt(info: map<Node, Info>, b: Node) {
    b in info && (info[b].timer <==> info[b].present == SigningOn || info[b].present == SigningOff)
  }

  ghost predicate TimersOK(w: World) {
    forall b: Node {:trigger b in w.par} :: b in w.par && b.kind.Buddy? ==> TimerAt(w.info, b)
  }

  lemma ListedTimer(w: World, b: Node)
    requires TimersOK(w) && b in w.par && b.kind.Buddy?
    ensures TimerAt(w.info, b)
  {
  }

  /** Every buddy of v was a buddy of w in the same state. */
  ghost predicate SameBuddies(w: World, v: World) {
    forall b: Node {:trigger b in v.par} :: b in v.par && b.kind.Buddy? ==>
      b in w.par && b in w.info && b in v.info && v.info[b] == w.info[b]
  }

  /** What is right of the priority buddies, the online counts and the timers in w is right in v. */
  ghost predicate Keeps(w: World, v: World) {
    && (PrioritiesOK(w) ==> PrioritiesOK(v))
    && (OnlineOK(w) ==> OnlineOK(v))
    && (TimersOK(w) ==> TimersOK(v))
  }

  lemma KeepsOn(u: World, v: World, w: World)
    requires Keeps(u, v) && Keeps(v, w)
    ensures Keeps(u, w)
  {
  }

  lemma KeepsItself(w: World)
    ensures Keeps(w, w)
  {
  }

  lemma TimersStay(w: World, v: World)
    requires SameBuddies(w, v) && TimersOK(w)
    ensures TimersOK(v)
  {
  }

  lemma ConsistentAgree(w: World, f: Node -> bool, g: Node -> bool, m: map<Node, int>)
    requires WellFormed(w) && Consistent(w.kids, f, m)
    requires forall n: Node {:trigger n in w.par} :: n in w.par && Leaf(n) ==> f(n) == g(n)
    ensures Consistent(w.kids, g, m)
  {
    forall p: Node | p in w.kids ensures m[p] == Tally(w.kids, g, p) { TallyAgree(w, f, g, p); }
  }

  // ------------------------------------------------------------- the priority buddy

  predicate Unavailable(a: Info) {
    a.uc & UC_UNAVAILABLE != 0
  }

  /** GAIM_BUDDY_IS_ONLINE for a buddy on a connected account. */
  predicate Present(a: Info) {
    a.present == Online || a.present == SigningOn
  }

  /** The test by which a later buddy displaces the priority buddy found so far. */
  predicate Displaces(a: Info, p: Info) {
    Present(a) &&
    (if !Present(p) then true
     else if !Unavailable(a) && a.idle == 0 && (Unavailable(p) || p.idle != 0) then true
     else if a.idle == 0 && p.idle != 0 then true
     else Unavailable(p) && p.idle != 0 && (!Unavailable(a) || a.idle == 0))
  }

  /** offline < unavailable and idle < available but idle < unavailable but active < available and active */
  function Rank(a: Info): nat {
    if !Present(a) then 0
    else (if a.idle == 0 then 3 else 1) + (if Unavailable(a) then 0 else 1)
  }

  /** Who is not there ranks lowest; then come away and idle, only idle, only away, and neither. */
  lemma RankIs(i: Info)
    ensures Rank(i) ==
      if i.present == Offline || i.present == SigningOff then 0
      else if i.uc & 1 == 1 then if i.idle != 0 then 1 else 3
      else if i.idle != 0 then 2 else 4
  {
    LowBit(i.uc);
  }

  lemma LowBit(u: Status)
    ensures u & 1 == 0 || u & 1 == 1
  {
  }

  /** r is the first of the connected buddies of s that no other one outranks. */
  ghost predicate IsPriority(s: seq<Node>, info: map<Node, Info>, connected: set<Account>, r: Node?) {
    if r == null then
      forall i :: 0 <= i < |s| ==> s[i].account !in connected
    else
      exists k :: 0 <= k < |s| && s[k] == r && IsFirstBest(s, info, connected, k)
  }

  ghost predicate IsFirstBest(s: seq<Node>, info: map<Node, Info>, connected: set<Account>, k: nat)
    requires k < |s|
  {
    && s[k].account in connected && s[k] in info
    && forall i :: 0 <= i < |s| && s[i].account in connected && s[i] in info ==>
         if i < k then Rank(info[s[i]]) < Rank(info[s[k]]) else Rank(info[s[i]]) <= Rank(info[s[k]])
  }

  lemma DisplacesByRank(a: Info, p: Info)
    ensures Displaces(a, p) <==> Rank(a) > Rank(p)
  {
  }

  /** The priority buddy after b has been scanned, r being the one before. */
  ghost function Chosen(info: map<Node, Info>, connected: set<Account>, r: Node?, b: Node): Node?
    requires b in info && (r == null || r in info)
  {
    if b.account !in connected then r
    else if r == null then b
    else if Displaces(info[b], info[r]) then b else r
  }

  /** Without a connected buddy there is none; otherwise it is one that ranks above all connected buddies before it
      and no lower than any behind it. */
  lemma PriorityIs(s: seq<Node>, info: map<Node, Info>, connected: set<Account>, r: Node?)
    requires forall i :: 0 <= i < |s| ==> s[i] in info
    ensures IsPriority(s, info, connected, r) && r == null ==> forall i :: 0 <= i < |s| ==> s[i].account !in connected
    ensures IsPriority(s, info, connected, r) && r != null ==> exists k | 0 <= k < |s| ::
      && s[k] == r && r.account in connected
      && forall i | 0 <= i < |s| && s[i].account in connected ::
           Rank(info[s[i]]) <= Rank(info[r]) && (i < k ==> Rank(info[s[i]]) < Rank(info[r]))
  {
    if IsPriority(s, info, connected, r) && r != null {
      var k :| 0 <= k < |s| && s[k] == r && IsFirstBest(s, info, connected, k);
    }
  }

  /** One step of the scan keeps the priority buddy of what has been scanned. */
  lemma PriorityStep(s: seq<Node>, i: nat, info: map<Node, Info>, connected: set<Account>, r: Node?)
    requires i < |s| && IsPriority(s[..i], info, connected, r)
    requires forall k :: 0 <= k < |s| ==> s[k] in info
    ensures r == null || r in info
    ensures IsPriority(s[..i + 1], info, connected, Chosen(info, connected, r, s[i]))
  {
    var t := s[..i + 1];
    if r != null {
      var k :| 0 <= k < i && s[..i][k] == r && IsFirstBest(s[..i], info, connected, k);
      DisplacesByRank(info[s[i]], info[r]);
      assert forall j :: 0 <= j < i ==> s[..i][j] == t[j];
      assert t[k] == r;
      if s[i].account in connected && Displaces(info[s[i]], info[r]) {
        assert IsFirstBest(t, info, connected, i);
      } else {
        assert IsFirstBest(t, info, connected, k);
      }
    } else {
      assert forall j :: 0 <= j < i ==> s[..i][j] == t[j];
      if s[i].account in connected { assert IsFirstBest(t, info, connected, i); }
    }
  }
}
