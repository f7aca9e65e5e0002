/** The buddy list in memory: doubly linked sibling lists threaded through the nodes,
    the hash of buddies, and the operations that rewrite them in place. */
module BuddyLists {
  import opened BlistModel
  import opened BlistTally
  import opened BlistMoves
  import opened BlistContacts
  import opened BlistGroups
  import opened BlistDefaults
  import opened BlistWhere
  import opened BlistMerge
  import opened BlistPresence
  import opened BlistRemoval
  import opened BlistAccounts
  import opened BlistFinders

  /** s is laid out in memory as one sibling list that starts at head. */
  ghost predicate Linked(s: seq<Node>, head: Node?, owner: Node?)
    reads s`parent, s`prev, s`next
  {
    && head == (if s == [] then null else s[0])
    && (forall i {:trigger s[i].parent} :: 0 <= i < |s| ==> s[i].parent == owner)
    && (forall i {:trigger s[i].prev} :: 0 <= i < |s| ==> s[i].prev == (if i == 0 then null else s[i - 1]))
    && (forall i {:trigger s[i].next} :: 0 <= i < |s| ==> s[i].next == (if i + 1 == |s| then null else s[i + 1]))
  }

  ghost function Owner(p: Node?): set<Node> {
    if p == null then {} else {p}
  }

  /** The children of p are laid out in memory in their order. */
  ghost predicate ListAt(kids: map<Node?, seq<Node>>, nodes: set<Node>, root: Node?, p: Node?)
    requires p in kids
    reads nodes`prev, nodes`next, nodes`parent, nodes`child
  {
    && (p != null ==> p in nodes)
    && (forall i {:trigger kids[p][i]} :: 0 <= i < |kids[p]| ==> kids[p][i] in nodes)
    && Linked(kids[p], if p == null then root else p.child, p)
  }

  ghost predicate LinksAre(kids: map<Node?, seq<Node>>, nodes: set<Node>, root: Node?)
    reads nodes`prev, nodes`next, nodes`parent, nodes`child
  {
    forall p: Node? {:trigger ListAt(kids, nodes, root, p)} :: p in kids ==> ListAt(kids, nodes, root, p)
  }

  /** The scalar fields recorded in a world. */
  datatype Fields = Fields(total: map<Node, int>, current: map<Node, int>, online: map<Node, int>,
    prio: map<Node, Node?>, names: map<Node, string>, info: map<Node, Info>)

  ghost function FieldsIn(w: World): Fields {
    Fields(w.total, w.current, w.online, w.prio, w.names, w.info)
  }

  /** The scalar fields of n in memory are those recorded. */
  ghost predicate FieldAt(n: Node, f: Fields)
    reads n`counts, n`groupName, n`priority, n`info
  {
    && n in f.total && n in f.current && n in f.online && n in f.names && n in f.prio && n in f.info
    && n.counts == Counts(f.total[n], f.current[n], f.online[n])
    && n.groupName == f.names[n] && n.priority == f.prio[n] && n.info == f.info[n]
  }

  ghost predicate FieldsOf(nodes: set<Node>, f: Fields)
    reads nodes`counts, nodes`groupName, nodes`priority, nodes`info
  {
    forall n: Node {:trigger FieldAt(n, f)} :: n in nodes ==> FieldAt(n, f)
  }

  ghost predicate SameFields(f: Fields, h: Fields, n: Node) {
    && (n in f.total ==> n in h.total && h.total[n] == f.total[n])
    && (n in f.current ==> n in h.current && h.current[n] == f.current[n])
    && (n in f.online ==> n in h.online && h.online[n] == f.online[n])
    && (n in f.prio ==> n in h.prio && h.prio[n] == f.prio[n])
    && (n in f.names ==> n in h.names && h.names[n] == f.names[n])
    && (n in f.info ==> n in h.info && h.info[n] == f.info[n])
  }

  /** Only c and g have changed, and the record has followed. */
  lemma FieldsFollow(nodes: set<Node>, f: Fields, h: Fields, c: Node, g: Node)
    requires FieldsOf(nodes - {c, g}, f) && FieldAt(c, h) && FieldAt(g, h)
    requires forall n: Node {:trigger n in nodes} :: n in nodes && n != c && n != g ==> SameFields(f, h, n)
    ensures FieldsOf(nodes, h)
  {
    forall n: Node | n in nodes ensures FieldAt(n, h) {
      if n != c && n != g {
        assert n in nodes - {c, g};
        assert FieldAt(n, f);
      }
    }
  }

  lemma RaisedSame(w: World, b: Node, c: Node, g: Node)
    requires FieldsOK(w) && b in w.nodes && c in w.nodes && g in w.nodes
    ensures forall n: Node {:trigger n in w.nodes} :: n in w.nodes && n != c && n != g ==>
      SameFields(FieldsIn(w), FieldsIn(RaisedCounts(w, b, c, g)), n)
  {
  }

  lemma LoweredSame(w: World, b: Node, c: Node, g: Node)
    requires FieldsOK(w) && b in w.nodes && c in w.nodes && g in w.nodes
    ensures forall n: Node {:trigger n in w.nodes} :: n in w.nodes && n != c && n != g ==>
      SameFields(FieldsIn(w), FieldsIn(LoweredCounts(w, b, c, g)), n)
  {
  }

  lemma CountsSame(w: World, g: Node, i: int, j: int, k: int)
    ensures forall n: Node {:trigger n in w.nodes} :: n in w.nodes && n != g ==>
      SameFields(FieldsIn(w), FieldsIn(
        w.(total := w.total[g := i], current := w.current[g := j], online := w.online[g := k])), n)
  {
  }

  class BuddyList {
    var root: Node?
    var buddies: map<Key, Node>
    var connected: set<Account>
    const norm: string -> string

    ghost var w: World

    /** gaim_blist_new: nobody is on the list. */
    constructor (norm: string -> string)
      ensures Valid() && w == NOBODY && this.norm == norm && connected == {}
      ensures PrioritiesOK(w) && OnlineOK(w) && TimersOK(w)
    {
      root, buddies, connected := null, map[], {};
      this.norm := norm;
      w := NOBODY;
      new;
      NobodyOK(norm);
    }

    // ---------------------------------------------------- the tree and its memory image

    ghost function Head(p: Node?): Node?
      reads `root, Owner(p)`child
    {
      if p == null then root else p.child
    }

    /** The tree, the scalar fields, the hash and the connected accounts in memory are those of w. */
    ghost predicate Rep()
      reads `root, `w, `buddies, `connected,
        w.nodes`prev, w.nodes`next, w.nodes`parent, w.nodes`child,
        w.nodes`counts, w.nodes`groupName, w.nodes`priority, w.nodes`info
    {
      && LinksAre(w.kids, w.nodes, root) && FieldsOf(w.nodes, FieldsIn(w))
      && buddies == w.index && connected == w.connected
    }

    /** What every operation keeps. */
    ghost predicate Valid()
      reads `root, `w, `buddies, `connected,
        w.nodes`prev, w.nodes`next, w.nodes`parent, w.nodes`child,
        w.nodes`counts, w.nodes`groupName, w.nodes`priority, w.nodes`info
    {
      Rep() && Inv(w, norm)
    }

    // ------------------------------------------------------------- reading the pointers

    lemma At(n: Node)
      requires LinksAre(w.kids, w.nodes, root) && ListsOK(w.kids, w.par) && n in w.par
      ensures n in w.nodes && w.par[n] in w.kids && n.parent == w.par[n]
      ensures n.parent != null ==> n.parent in w.nodes
    {
      assert ListAt(w.kids, w.nodes, root, w.par[n]);
      var s := w.kids[w.par[n]];
      var i :| 0 <= i < |s| && s[i] == n;
      assert s[i].parent == w.par[n];
    }

    /** The list of p as a loop over the next pointers meets it. */
    lemma Siblings(p: Node?)
      requires LinksAre(w.kids, w.nodes, root) && ListsOK(w.kids, w.par) && p in w.kids
      ensures p != null ==> p in w.nodes
      ensures (if p == null then root else p.child) == if w.kids[p] == [] then null else w.kids[p][0]
      ensures forall i {:trigger w.kids[p][i]} :: 0 <= i < |w.kids[p]| ==>
        w.kids[p][i] in w.nodes && w.kids[p][i] in w.par && w.par[w.kids[p][i]] == p
      ensures forall i {:trigger w.kids[p][i].next} :: 0 <= i < |w.kids[p]| ==>
        w.kids[p][i].next == if i + 1 == |w.kids[p]| then null else w.kids[p][i + 1]
    {
      assert ListAt(w.kids, w.nodes, root, p);
      var s := w.kids[p];
      forall i | 0 <= i < |s|
        ensures s[i] in w.par && w.par[s[i]] == p && s[i].next == if i + 1 == |s| then null else s[i + 1]
      {
        assert s[i] in s;
      }
    }

    // ------------------------------------------------------------------ pointer surgery

    /** Take n, the i-th of the list s of p, out of that list. */
    method UnlinkIn(n: Node, ghost s: seq<Node>, ghost p: Node?, ghost i: nat)
      requires Distinct(s) && p !in s && i < |s| && s[i] == n && Linked(s, Head(p), p)
      modifies this`root, s`prev, s`next, Owner(p)`child
      ensures Linked(s[..i] + s[i + 1..], Head(p), p)
      ensures p != null ==> root == old(root)
    {
      if n.next != null { assert n.next == s[i + 1]; n.next.prev := n.prev; }
      if n.prev != null { assert n.prev == s[i - 1]; n.prev.next := n.next; }
      if n.parent == null {
        if root == n { root := n.next; }
      } else {
        if n.parent.child == n { n.parent.child := n.next; }
      }
      ghost var t := s[..i] + s[i + 1..];
      forall j | 0 <= j < |t|
        ensures t[j].parent == p
        ensures t[j].prev == (if j == 0 then null else t[j - 1])
        ensures t[j].next == (if j + 1 == |t| then null else t[j + 1])
      {
        var k := if j < i then j else j + 1;
        assert t[j] == s[k];
      }
    }

    /** Put n right after a, the one before place i of the list s of p, or in front when a is null. */
    method LinkIn(n: Node, p: Node?, a: Node?, ghost s: seq<Node>, ghost i: nat)
      requires Distinct(s) && p !in s && n !in s && n != p && Linked(s, Head(p), p)
      requires if a == null then i == 0 else 0 < i <= |s| && s[i - 1] == a
      modifies this`root, s`prev, s`next, n`prev, n`next, n`parent, Owner(p)`child
      ensures Linked(s[..i] + [n] + s[i..], Head(p), p)
      ensures p != null ==> root == old(root)
    {
      if a != null {
        if a.next != null { assert a.next == s[i]; a.next.prev := n; }
        n.next := a.next;
        n.prev := a;
        n.parent := a.parent;
        a.next := n;
      } else if p == null {
        if root != null { root.prev := n; }
        n.next, n.prev, n.parent := root, null, null;
        root := n;
      } else {
        if p.child != null { p.child.prev := n; }
        n.next, n.prev, n.parent := p.child, null, p;
        p.child := n;
      }
      ghost var t := s[..i] + [n] + s[i..];
      forall j | 0 <= j < |t|
        ensures t[j].parent == p
        ensures t[j].prev == (if j == 0 then null else t[j - 1])
        ensures t[j].next == (if j + 1 == |t| then null else t[j + 1])
      {
        if j != i {
          var k := if j < i then j else j - 1;
          assert t[j] == s[k];
        }
      }
    }

    /** A splice in p's list leaves every other list as it was. */
    twostate lemma OtherLists(p: Node?)
      requires old(LinksAre(w.kids, w.nodes, root)) && ListsOK(w.kids, w.par) && p in w.kids && w == old(w)
      requires p != null ==> root == old(root)
      requires forall m: Node :: m in w.par && m in w.nodes && m !in w.kids[p] ==>
        m.prev == old(m.prev) && m.next == old(m.next) && m.parent == old(m.parent)
      requires forall m: Node :: m in w.nodes && m != p ==> m.child == old(m.child)
      ensures forall q: Node? {:trigger ListAt(w.kids, w.nodes, root, q)} ::
          q in w.kids && q != p ==> ListAt(w.kids, w.nodes, root, q)
    {
      forall q: Node? | q in w.kids && q != p ensures ListAt(w.kids, w.nodes, root, q) {
        assert old(ListAt(w.kids, w.nodes, root, q));
        forall k | 0 <= k < |w.kids[q]| ensures w.kids[q][k] !in w.kids[p] && w.kids[q][k] in w.par {
          assert w.kids[q][k] in w.kids[q];
        }
      }
    }

    /** The ghost tree follows a splice of p's list. */
    /** No node has another first child than before. */
    twostate predicate SameChildren()
      reads `w, w.nodes`child
    {
      forall n: Node {:trigger n.child} :: n in old(w.nodes) && n in w.nodes ==> n.child == old(n.child)
    }

    ghost method SetWorld(v: World, p: Node?)
      requires p in v.kids && v == w.(kids := w.kids[p := v.kids[p]], par := v.par)
      requires forall q: Node? {:trigger ListAt(w.kids, w.nodes, root, q)} ::
          q in w.kids && q != p ==> ListAt(w.kids, w.nodes, root, q)
      requires (p != null ==> p in w.nodes) && (forall i :: 0 <= i < |v.kids[p]| ==> v.kids[p][i] in w.nodes)
      requires Linked(v.kids[p], Head(p), p)
      modifies this`w
      ensures LinksAre(w.kids, w.nodes, root) && w == v
    {
      w := v;
      forall q: Node? | q in w.kids ensures ListAt(w.kids, w.nodes, root, q) {
        if q != p { assert old(ListAt(w.kids, w.nodes, root, q)); }
      }
    }

    method SpliceOut(n: Node, ghost p: Node?, ghost i: nat)
      requires LinksAre(w.kids, w.nodes, root) && ListsOK(w.kids, w.par)
      requires p in w.kids && p !in w.kids[p] && i < |w.kids[p]| && w.kids[p][i] == n
      modifies this`root, w.nodes`prev, w.nodes`next, w.nodes`child
      ensures (p != null ==> p in w.nodes) && (forall k :: 0 <= k < |w.kids[p]| ==> w.kids[p][k] in w.nodes)
      ensures Linked(w.kids[p][..i] + w.kids[p][i + 1..], Head(p), p) && (p == null ==> SameChildren())
      ensures forall q: Node? {:trigger ListAt(w.kids, w.nodes, root, q)} ::
        q in w.kids && q != p ==> ListAt(w.kids, w.nodes, root, q)
    {
      assert ListAt(w.kids, w.nodes, root, p);
      assert Distinct(w.kids[p]);
      UnlinkIn(n, w.kids[p], p, i);
      OtherLists(p);
    }

    method SpliceIn(n: Node, p: Node?, a: Node?, ghost i: nat)
      requires LinksAre(w.kids, w.nodes, root) && ListsOK(w.kids, w.par)
      requires n !in w.par && n in w.nodes && n != p
      requires p in w.kids && p !in w.kids[p] && n !in w.kids[p]
      requires if a == null then i == 0 else 0 < i <= |w.kids[p]| && w.kids[p][i - 1] == a
      modifies this`root, w.nodes`prev, w.nodes`next, w.nodes`child, n`parent
      ensures (p != null ==> p in w.nodes) && (forall k :: 0 <= k < |w.kids[p]| ==> w.kids[p][k] in w.nodes)
      ensures Linked(w.kids[p][..i] + [n] + w.kids[p][i..], Head(p), p) && (p == null ==> SameChildren())
      ensures forall q: Node? {:trigger ListAt(w.kids, w.nodes, root, q)} ::
        q in w.kids && q != p ==> ListAt(w.kids, w.nodes, root, q)
    {
      assert ListAt(w.kids, w.nodes, root, p);
      assert Distinct(w.kids[p]);
      LinkIn(n, p, a, w.kids[p], i);
      OtherLists(p);
    }

    method UnlinkTree(n: Node)
      requires LinksAre(w.kids, w.nodes, root) && ListsOK(w.kids, w.par) && n in w.par && w.par[n] !in w.kids[w.par[n]]
      modifies this`root, this`w, w.nodes`prev, w.nodes`next, w.nodes`child
      ensures LinksAre(w.kids, w.nodes, root) && w == Removed(old(w), n)
      ensures old(w).par[n] == null ==> SameChildren()
    {
      ghost var i := RemovalPoint(w, n);
      SpliceOut(n, w.par[n], i);
      SetWorld(Removed(w, n), w.par[n]);
    }

    method LinkTree(n: Node, p: Node?, a: Node?)
      requires LinksAre(w.kids, w.nodes, root) && ListsOK(w.kids, w.par) && n !in w.par && n in w.nodes && n != p
      requires p in w.kids && p !in w.kids[p] && (a != null ==> a in w.kids[p])
      modifies this`root, this`w, w.nodes`prev, w.nodes`next, w.nodes`child, n`parent
      ensures LinksAre(w.kids, w.nodes, root) && w == Inserted(old(w), n, p, a) && (p == null ==> SameChildren())
    {
      ghost var i := InsertPoint(w, n, p, a);
      SpliceIn(n, p, a, i);
      SetWorld(Inserted(w, n, p, a), p);
    }

    method Unlink(n: Node)
      requires Rep() && ListsOK(w.kids, w.par) && n in w.par && w.par[n] !in w.kids[w.par[n]]
      modifies this`root, this`w, w.nodes`prev, w.nodes`next, w.nodes`child
      ensures Rep() && w == Removed(old(w), n) && (old(w).par[n] == null ==> SameChildren())
    {
      UnlinkTree(n);
    }

    method Link(n: Node, p: Node?, a: Node?)
      requires Rep() && ListsOK(w.kids, w.par) && n !in w.par && n in w.nodes && n != p
      requires p in w.kids && p !in w.kids[p] && (a != null ==> a in w.kids[p])
      modifies this`root, this`w, w.nodes`prev, w.nodes`next, w.nodes`child, n`parent
      ensures Rep() && w == Inserted(old(w), n, p, a) && (p == null ==> SameChildren())
    {
      LinkTree(n, p, a);
    }

    // ------------------------------------------------------------------- priority buddy

    /** The scan over the buddies s of contact c. */
    method ScanPriority(c: Node, ghost s: seq<Node>, ghost info: map<Node, Info>)
      requires c.child == (if s == [] then null else s[0])
      requires forall i {:trigger s[i].next} :: 0 <= i < |s| ==> s[i].next == (if i + 1 == |s| then null else s[i + 1])
      requires forall i {:trigger s[i]} :: 0 <= i < |s| ==> s[i] in info && s[i].info == info[s[i]]
      modifies c`priority
      ensures IsPriority(s, info, connected, c.priority)
    {
      c.priority := null;
      var b := c.child;
      ghost var i := 0;
      while b != null
        invariant 0 <= i <= |s| && b == (if i == |s| then null else s[i])
        invariant IsPriority(s[..i], info, connected, c.priority)
        invariant c.priority != null ==> c.priority in s
        decreases |s| - i
      {
        PriorityStep(s, i, info, connected, c.priority);
        ghost var r := Chosen(info, connected, c.priority, b);
        if b.account in connected {
          if c.priority == null {
            c.priority := b;
          } else if Displaces(b.info, c.priority.info) {
            c.priority := b;
          }
        }
        assert c.priority == r;
        i := i + 1;
        b := b.next;
      }
      assert s[..i] == s;
    }

    method ComputePriority(c: Node)
      requires Rep() && ListsOK(w.kids, w.par) && c in w.kids
      modifies `w, c`priority
      ensures Rep() && w == old(w).(prio := old(w).prio[c := c.priority]) && PriorityAt(w, c)
    {
      Siblings(c);
      ghost var s := w.kids[c];
      ghost var f := FieldsIn(w);
      assert FieldsOf(w.nodes - {c, c}, f) && FieldAt(c, f);
      forall i | 0 <= i < |s| ensures s[i] in w.info && s[i].info == w.info[s[i]] { assert FieldAt(s[i], f); }
      ScanPriority(c, s, w.info);
      ghost var v := w.(prio := w.prio[c := c.priority]);
      FieldsFollow(w.nodes, f, FieldsIn(v), c, c);
      Record(v);
    }

    // -------------------------------------------------------------------------- counters

    predicate IsOnlineNow(b: Node)
      reads `connected, b`info
    {
      b.account in connected && (b.info.present == Online || b.info.present == SigningOn)
    }

    /** b is about to leave contact c of group g. */
    method Decrement(b: Node, c: Node, g: Node)
      requires c != g
      modifies c`counts, g`counts
      ensures var d, e := Bit(b.account in connected), Bit(IsOnlineNow(b));
        && c.counts == Counts(old(c.counts.totalsize) - 1, old(c.counts.currentsize) - d, old(c.counts.online) - e)
        && g.counts == Counts(old(g.counts.totalsize),
             old(g.counts.currentsize) - Bit(d == 1 && c.counts.currentsize == 0),
             old(g.counts.online) - Bit(e == 1 && c.counts.online == 0))
    {
      if IsOnlineNow(b) {
        c.counts := c.counts.(online := c.counts.online - 1);
        if c.counts.online == 0 { g.counts := g.counts.(online := g.counts.online - 1); }
      }
      if b.account in connected {
        c.counts := c.counts.(currentsize := c.counts.currentsize - 1);
        if c.counts.currentsize == 0 { g.counts := g.counts.(currentsize := g.counts.currentsize - 1); }
      }
      c.counts := c.counts.(totalsize := c.counts.totalsize - 1);
    }

    /** b has just joined contact c of group g. */
    method Increment(b: Node, c: Node, g: Node)
      requires c != g
      modifies c`counts, g`counts
      ensures var d, e := Bit(b.account in connected), Bit(IsOnlineNow(b));
        && c.counts == Counts(old(c.counts.totalsize) + 1, old(c.counts.currentsize) + d, old(c.counts.online) + e)
        && g.counts == Counts(old(g.counts.totalsize),
             old(g.counts.currentsize) + Bit(d == 1 && c.counts.currentsize == 1),
             old(g.counts.online) + Bit(e == 1 && c.counts.online == 1))
    {
      if IsOnlineNow(b) {
        c.counts := c.counts.(online := c.counts.online + 1);
        if c.counts.online == 1 { g.counts := g.counts.(online := g.counts.online + 1); }
      }
      if b.account in connected {
        c.counts := c.counts.(currentsize := c.counts.currentsize + 1);
        if c.counts.currentsize == 1 { g.counts := g.counts.(currentsize := g.counts.currentsize + 1); }
      }
      c.counts := c.counts.(totalsize := c.counts.totalsize + 1);
    }

    /** The record follows a change of scalar fields, of the hash or of the connected accounts. */
    ghost method Record(v: World)
      requires LinksAre(w.kids, w.nodes, root) && v.kids == w.kids && v.nodes == w.nodes
      requires FieldsOf(w.nodes, FieldsIn(v)) && buddies == v.index && connected == v.connected
      modifies `w
      ensures Rep() && w == v
    {
      w := v;
    }

    method LowerCounts(b: Node, ghost c: Node, ghost g: Node)
      requires Rep() && FieldsOK(w) && b in w.nodes && c in w.nodes && g in w.nodes && c != g
      requires b.parent == c && c.parent == g
      modifies `w, c`counts, g`counts
      ensures Rep() && w == LoweredCounts(old(w), b, c, g)
    {
      hide SameFields;
      ghost var f := FieldsIn(w);
      assert FieldsOf(w.nodes - {c, g}, f) && FieldAt(b, f) && FieldAt(c, f) && FieldAt(g, f);
      Decrement(b, b.parent, b.parent.parent);
      ghost var v := LoweredCounts(w, b, c, g);
      LoweredSame(w, b, c, g);
      FieldsFollow(w.nodes, f, FieldsIn(v), c, g);
      Record(v);
    }

    method RaiseCounts(b: Node, ghost c: Node, ghost g: Node)
      requires Rep() && FieldsOK(w) && b in w.nodes && c in w.nodes && g in w.nodes && c != g
      requires b.parent == c && c.parent == g
      modifies `w, c`counts, g`counts
      ensures Rep() && w == RaisedCounts(old(w), b, c, g)
    {
      hide SameFields;
      ghost var f := FieldsIn(w);
      assert FieldsOf(w.nodes - {c, g}, f) && FieldAt(b, f) && FieldAt(c, f) && FieldAt(g, f);
      Increment(b, b.parent, b.parent.parent);
      ghost var v := RaisedCounts(w, b, c, g);
      RaisedSame(w, b, c, g);
      FieldsFollow(w.nodes, f, FieldsIn(v), c, g);
      Record(v);
    }

    // ---------------------------------------------------------------- the hash of buddies

    method HashRemove(k: Key)
      requires Rep()
      modifies `w, `buddies
      ensures Rep() && w == old(w).(index := old(w).index - {k})
    {
      buddies := buddies - {k};
      Record(w.(index := w.index - {k}));
    }

    method HashReplace(k: Key, b: Node)
      requires Rep()
      modifies `w, `buddies
      ensures Rep() && w == old(w).(index := old(w).index[k := b])
    {
      buddies := buddies[k := b];
      Record(w.(index := w.index[k := b]));
    }

    // --------------------------------------------------------------------- buddies

    /** The tree forgets a loose node and its empty list. */
    ghost method Forget(c: Node)
      requires Rep() && c in w.kids
      modifies `w
      ensures Rep() && w == Dropped(old(w), c)
    {
      ghost var u, v := w, Dropped(w, c);
      forall p: Node? | p in v.kids ensures ListAt(v.kids, v.nodes, root, p) {
        assert ListAt(u.kids, u.nodes, root, p);
      }
      w := v;
    }

    /** gaim_blist_remove_contact on a contact without buddies. */
    method RemoveEmptyContact(c: Node)
      requires Rep() && WellFormed(w) && c in w.par && c.kind.Contact? && w.kids[c] == []
      modifies `root, `w, w.nodes`prev, w.nodes`next, w.nodes`child
      ensures Rep() && w == Pruned(old(w), c)
    {
      assert w.par[c] !in w.kids[w.par[c]] by { NotOwnChild(w.kids, w.par, w.par[c]); }
      Unlink(c);
      Forget(c);
    }

    /** Counters and links of a buddy that leaves its contact. */
    method Leave(b: Node)
      requires Rep() && WellFormed(w) && b in w.par && b.kind.Buddy?
      modifies `root, `w, w.nodes`prev, w.nodes`next, w.nodes`child, w.nodes`counts
      ensures Rep() && w == Left(old(w), b)
    {
      At(b);
      At(b.parent);
      LowerCounts(b, b.parent, b.parent.parent);
      assert w.par[b] !in w.kids[w.par[b]] by { NotOwnChild(w.kids, w.par, w.par[b]); }
      Unlink(b);
    }

    /** What is done about a contact that a buddy has left. */
    method Tidy(c: Node)
      requires Rep() && WellFormed(w) && c in w.par && c.kind.Contact?
      modifies `root, `w, w.nodes`prev, w.nodes`next, w.nodes`child, c`priority
      ensures Rep() && w == TidiedUp(old(w), c).(prio := old(w).prio[c := c.priority])
      ensures c in w.kids ==> PriorityAt(w, c)
    {
      assert FieldAt(c, FieldsIn(w));
      assert w.prio == w.prio[c := c.priority];
      Siblings(c);
      if c.child == null {
        RemoveEmptyContact(c);
      } else {
        ComputePriority(c);
      }
    }

    /** b leaves its contact for one in group g; if that is another group, its hash entry goes. */
    method LeaveFor(b: Node, g: Node)
      requires Rep() && WellFormed(w) && b in w.par && b.kind.Buddy?
      modifies `root, `w, `buddies, w.nodes`prev, w.nodes`next, w.nodes`child, w.nodes`counts
      ensures Rep() && w == Left(old(w), b).(index := LeftIndexFor(old(w), norm, b, g))
      ensures WellFormed(w) && old(w).par[b] in w.par && old(w).par[b].kind.Contact?
    {
      LeftWellFormed(w, b);
      At(b);
      At(b.parent);
      var h := b.parent.parent;
      Leave(b);
      if h != g {
        HashRemove(Key(norm(b.name), b.account, h));
      }
    }

    /** The first half of a move: b leaves its contact for one in group g, and the
        contact goes too if that leaves it empty. */
    method Detach(b: Node, g: Node)
      requires Rep() && WellFormed(w) && b in w.par && b.kind.Buddy?
      modifies `root, `w, `buddies, w.nodes`prev, w.nodes`next, w.nodes`child, w.nodes`counts, w.nodes`priority
      ensures Rep() && w == Detached(old(w), b).(
        index := LeftIndexFor(old(w), norm, b, g),
        prio := old(w).prio[old(w).par[b] := old(w).par[b].priority])
      ensures var c := old(w).par[b]; c in w.kids ==> PriorityAt(w, c)
    {
      At(b);
      var c: Node := b.parent;
      ghost var v, index := Left(w, b), LeftIndexFor(w, norm, b, g);
      LeaveFor(b, g);
      TidiedUpIndex(v, index, c);
      Tidy(c);
    }

    /** Links and counters of a buddy that joins contact c, right after a or in front. */
    method Join(b: Node, c: Node, a: Node?)
      requires Rep() && CanJoin(w, b, c, a)
      modifies `root, `w, w.nodes`prev, w.nodes`next, w.nodes`child, b`parent, w.nodes`counts
      ensures Rep() && w == Joined(old(w), b, c, a) && WellFormed(w) && c in w.kids
      ensures b.parent == c && c.parent != null && c.parent == old(w).par[c]
    {
      hide CanJoin, WellFormed, ListsOK, FieldsOK, LinksAre, FieldsOf;
      JoinReady(w, b, c, a);
      Link(b, c, a);
      At(b);
      At(c);
      RaiseCounts(b, c, c.parent);
    }

    /** The second half of a move: b joins contact c, its hash entry is made and c's priority buddy chosen. */
    method Attach(b: Node, c: Node, a: Node?)
      requires Rep() && CanJoin(w, b, c, a)
      modifies `root, `w, `buddies, w.nodes`prev, w.nodes`next, w.nodes`child, b`parent, w.nodes`counts,
        w.nodes`priority
      ensures Rep() && w == Joined(old(w), b, c, a).(
        index := old(w).index[Key(norm(b.name), b.account, old(w).par[c]) := b],
        prio := old(w).prio[c := c.priority])
      ensures PriorityAt(w, c)
    {
      Join(b, c, a);
      HashReplace(Key(norm(b.name), b.account, b.parent.parent), b);
      ComputePriority(b.parent);
    }

    /** The move proper of gaim_blist_add_buddy, once contact and group are known. */
    method PlaceBuddy(b: Node, c: Node, a: Node?) returns (ghost r: Node?)
      requires Rep() && WellFormed(w) && Placeable(w, b, c, a) && (b !in w.par ==> b.parent == null)
      modifies `root, `w, `buddies, w.nodes`prev, w.nodes`next, w.nodes`child, w.nodes`parent, w.nodes`counts,
        w.nodes`priority
      ensures Rep() && w == Placed(old(w), norm, b, c, a, r, c.priority)
      ensures Chose(old(w), norm, b, c, a, r, c.priority)
    {
      ghost var w0 := w;
      r := null;
      if b in w.par { At(b); }
      HalfwayCanJoin(w, norm, b, c, a, r);
      if b.parent != null {
        At(c);
        ghost var d := b.parent;
        Detach(b, c.parent);
        r := d.priority;
      }
      HalfwayCanJoin(w0, norm, b, c, a, r);
      Attach(b, c, a);
    }

    // -------------------------------------------------------------------- contacts

    method DecrementGroup(c: Node, g: Node)
      requires c != g
      modifies g`counts
      ensures g.counts == Counts(old(g.counts.totalsize) - 1,
        old(g.counts.currentsize) - Bit(c.counts.currentsize > 0), old(g.counts.online) - Bit(c.counts.online > 0))
    {
      if c.counts.online > 0 { g.counts := g.counts.(online := g.counts.online - 1); }
      if c.counts.currentsize > 0 { g.counts := g.counts.(currentsize := g.counts.currentsize - 1); }
      g.counts := g.counts.(totalsize := g.counts.totalsize - 1);
    }

    method IncrementGroup(c: Node, g: Node)
      requires c != g
      modifies g`counts
      ensures g.counts == Counts(old(g.counts.totalsize) + 1,
        old(g.counts.currentsize) + Bit(c.counts.currentsize > 0), old(g.counts.online) + Bit(c.counts.online > 0))
    {
      if c.counts.online > 0 { g.counts := g.counts.(online := g.counts.online + 1); }
      if c.counts.currentsize > 0 { g.counts := g.counts.(currentsize := g.counts.currentsize + 1); }
      g.counts := g.counts.(totalsize := g.counts.totalsize + 1);
    }

    /** Contact c leaves the counts of group g. */
    method LowerGroup(c: Node, g: Node)
      requires Rep() && FieldsOK(w) && c in w.nodes && g in w.nodes && c != g
      modifies `w, g`counts
      ensures Rep() && w == LessContact(old(w), c, g)
    {
      ghost var f := FieldsIn(w);
      assert FieldsOf(w.nodes - {g, g}, f) && FieldAt(c, f) && FieldAt(g, f);
      DecrementGroup(c, g);
      ghost var v := LessContact(w, c, g);
      CountsSame(w, g, v.total[g], v.current[g], v.online[g]);
      FieldsFollow(w.nodes, f, FieldsIn(v), g, g);
      Record(v);
    }

    /** Contact c enters the counts of group g. */
    method RaiseGroup(c: Node, g: Node)
      requires Rep() && FieldsOK(w) && c in w.nodes && g in w.nodes && c != g
      modifies `w, g`counts
      ensures Rep() && w == MoreContact(old(w), c, g)
    {
      ghost var f := FieldsIn(w);
      assert FieldsOf(w.nodes - {g, g}, f) && FieldAt(c, f) && FieldAt(g, f);
      IncrementGroup(c, g);
      ghost var v := MoreContact(w, c, g);
      CountsSame(w, g, v.total[g], v.current[g], v.online[g]);
      FieldsFollow(w.nodes, f, FieldsIn(v), g, g);
      Record(v);
    }

    /** Give every buddy in the list s of c its key in group g instead of the one in group h. */
    method ScanRekey(c: Node, h: Node, g: Node, ghost s: seq<Node>)
      requires c.child == (if s == [] then null else s[0])
      requires forall i {:trigger s[i].next} :: 0 <= i < |s| ==> s[i].next == (if i + 1 == |s| then null else s[i + 1])
      modifies `buddies
      ensures buddies == Rekeyed(old(buddies), norm, s, h, g)
    {
      ghost var i := 0;
      var b := c.child;
      while b != null
        invariant 0 <= i <= |s| && b == (if i == |s| then null else s[i])
        invariant buddies == Rekeyed(old(buddies), norm, s[..i], h, g)
        decreases |s| - i
      {
        assert s[..i + 1][..i] == s[..i];
        buddies := buddies - {Key(norm(b.name), b.account, h)};
        buddies := buddies[Key(norm(b.name), b.account, g) := b];
        i := i + 1;
        b := b.next;
      }
      assert s[..i] == s;
    }

    method Rekey(c: Node, h: Node, g: Node)
      requires Rep() && ListsOK(w.kids, w.par) && c in w.kids
      modifies `w, `buddies
      ensures Rep() && w == old(w).(index := Rekeyed(old(w).index, norm, old(w).kids[c], h, g))
    {
      Siblings(c);
      ScanRekey(c, h, g, w.kids[c]);
      Record(w.(index := buddies));
    }

    /** A new contact gets its empty list of buddies. */
    ghost method Adopt(c: Node)
      requires Rep() && c in w.nodes && c !in w.kids && c.child == null
      modifies `w
      ensures Rep() && w == Adopted(old(w), c)
    {
      ghost var u, v := w, Adopted(w, c);
      forall p: Node? | p in v.kids ensures ListAt(v.kids, v.nodes, root, p) {
        assert p != c ==> ListAt(u.kids, u.nodes, root, p);
      }
      w := v;
    }

    /** The first half of a contact's move: it leaves its group for group g, or is new. */
    method Lift(c: Node, g: Node)
      requires Rep() && WellFormed(w) && c.kind.Contact? && c != g && (c in w.par || Unlisted(w, c))
      requires c !in w.par ==> c.parent == null && c.child == null
      modifies `root, `w, `buddies, w.nodes`prev, w.nodes`next, w.nodes`child, w.nodes`counts
      ensures Rep() && w == Lifted(old(w), c).(index := ContactIndex(old(w), norm, c, g))
    {
      if c in w.par { At(c); }
      if c.parent != null {
        var h := c.parent;
        assert w.par[c] !in w.kids[w.par[c]] by { NotOwnChild(w.kids, w.par, w.par[c]); }
        assert ListsOK(Removed(w, c).kids, Removed(w, c).par) by { RemovedLists(w, c); }
        Unlink(c);
        LowerGroup(c, h);
        if h != g { Rekey(c, h, g); }
      } else {
        Adopt(c);
      }
    }

    /** The move proper of gaim_blist_add_contact, once the group is known. */
    method PlaceContact(c: Node, g: Node, a: Node?)
      requires Rep() && WellFormed(w) && ContactPlaceable(w, c, g, a)
      requires c !in w.par ==> c.parent == null && c.child == null
      modifies `root, `w, `buddies, w.nodes`prev, w.nodes`next, w.nodes`child, c`parent, w.nodes`counts
      ensures Rep() && w == ContactPlaced(old(w), norm, c, g, a)
    {
      LiftedLoose(w, c, g, a);
      Lift(c, g);
      assert g !in w.kids[g] by { NotOwnChild(w.kids, w.par, g); }
      Link(c, g, a);
      RaiseGroup(c, g);
    }

    // ------------------------------------------------------------------------- chats

    /** Chat x enters (d = 1) or leaves (d = -1) the counts of group g. */
    method CountChat(x: Node, g: Node, d: int)
      requires Rep() && FieldsOK(w) && g in w.nodes
      modifies `w, g`counts
      ensures Rep() && w == ChatCounts(old(w), x, g, d)
    {
      ghost var f := FieldsIn(w);
      assert FieldsOf(w.nodes - {g, g}, f) && FieldAt(g, f);
      var e := if x.account in connected then d else 0;
      g.counts := Counts(g.counts.totalsize + d, g.counts.currentsize + e, g.counts.online + e);
      ghost var v := ChatCounts(w, x, g, d);
      CountsSame(w, g, v.total[g], v.current[g], v.online[g]);
      FieldsFollow(w.nodes, f, FieldsIn(v), g, g);
      Record(v);
    }

    /** The first half of a chat's move, and gaim_blist_remove_chat. */
    method LiftChat(x: Node)
      requires Rep() && WellFormed(w) && x in w.par && x.kind.Chat?
      modifies `root, `w, w.nodes`prev, w.nodes`next, w.nodes`child, w.nodes`counts
      ensures Rep() && w == ChatLifted(old(w), x)
    {
      At(x);
      CountChat(x, x.parent, -1);
      assert w.par[x] !in w.kids[w.par[x]] by { NotOwnChild(w.kids, w.par, w.par[x]); }
      Unlink(x);
    }

    method PlaceChat(x: Node, g: Node, a: Node?)
      requires Rep() && WellFormed(w) && ChatPlaceable(w, x, g, a) && (x !in w.par ==> x.parent == null)
      modifies `root, `w, w.nodes`prev, w.nodes`next, w.nodes`child, x`parent, w.nodes`counts
      ensures Rep() && w == ChatPlaced(old(w), x, g, a)
    {
      ChatLiftedPlace(w, x, g, a);
      if x in w.par { At(x); }
      if x.parent != null { LiftChat(x); }
      assert g !in w.kids[g] by { NotOwnChild(w.kids, w.par, g); }
      Link(x, g, a);
      CountChat(x, g, 1);
    }

    // ------------------------------------------------------------------------- groups

    method FindGroup(name: string) returns (g: Node?)
      requires Rep() && WellFormed(w)
      ensures g != null ==> g in w.kids[null] && w.names[g] == name
      ensures g == null ==> forall i ::
          0 <= i < |w.kids[null]| ==> w.kids[null][i] in w.names && w.names[w.kids[null][i]] != name
    {
      Siblings(null);
      ghost var s, i := w.kids[null], 0;
      g := root;
      while g != null
        invariant 0 <= i <= |s| && g == (if i == |s| then null else s[i])
        invariant forall j :: 0 <= j < i ==> w.names[s[j]] != name
        decreases |s| - i
      {
        assert FieldAt(g, FieldsIn(w));
        if g.groupName == name { return; }
        i := i + 1;
        g := g.next;
      }
    }

    /** gaim_blist_get_last_child, or the last group when p is null. */
    method LastChild(p: Node?) returns (r: Node?)
      requires Rep() && WellFormed(w) && p in w.kids
      ensures r == Last(w.kids[p])
    {
      Siblings(p);
      ghost var s, i := w.kids[p], 0;
      r := if p == null then root else p.child;
      if r == null { return; }
      while r.next != null
        invariant 0 <= i < |s| && r == s[i]
        decreases |s| - i
      {
        i := i + 1;
        r := r.next;
      }
    }

    method PlaceGroup(g: Node, a: Node?)
      requires Rep() && WellFormed(w) && GroupPlaceable(w, g, a) && FreshName(w, g)
      requires g !in w.par ==> g.parent == null && g.child == null
      modifies `root, `w, w.nodes`prev, w.nodes`next, w.nodes`child, g`parent
      ensures Rep() && w == GroupPlaced(old(w), g, a) && SameChildren()
    {
      GroupLiftedLists(w, g, a);
      assert FieldAt(g, FieldsIn(w));
      var h := FindGroup(g.groupName);
      assert h != null <==> g in w.par by {
        if g in w.par {
          ghost var i :| 0 <= i < |w.kids[null]| && w.kids[null][i] == g;
        }
      }
      if h != null { Unlink(g); } else { Adopt(g); }
      Link(g, null, a);
    }

    // ---------------------------------------------------------------------- new nodes

    /** gaim_buddy_new, gaim_contact_new, gaim_blist_chat_new and the making half of gaim_group_new. */
    method NewNode(kind: Kind, name: string, account: Account) returns (n: Node)
      requires Rep()
      modifies `w
      ensures Rep() && fresh(n) && n.kind == kind && n.name == name && n.account == account
      ensures n.parent == null && n.child == null && n !in old(w).nodes && w == Admitted(old(w), n, name)
    {
      n := new Node(kind, name, account);
      ghost var u, v := w, Admitted(w, n, name);
      forall p: Node? | p in v.kids ensures ListAt(v.kids, v.nodes, root, p) {
        assert ListAt(u.kids, u.nodes, root, p);
      }
      forall m: Node | m in v.nodes ensures FieldAt(m, FieldsIn(v)) {
        assert m != n ==> FieldAt(m, FieldsIn(u));
      }
      w := v;
    }

    // ------------------------------------------------------------------ the public moves

    /** The priority buddies, the online counts and the timers each stay right if they were right. */
    twostate predicate KeepsCaches()
      reads `w
    {
      Keeps(old(w), w)
    }

    method PutGroup(g: Node, node: Node?)
      requires Valid() && g.kind.Group? && (g in w.par || Unlisted(w, g)) && FreshName(w, g)
      requires w.kids[null] != [] && node != null && node.kind.Group? && node != g ==> node in w.kids[null]
      requires g !in w.par ==> g.parent == null && g.child == null
      modifies `root, `w, w.nodes`prev, w.nodes`next, w.nodes`child, g`parent
      ensures Valid() && KeepsCaches() && w == GroupAdded(old(w), g, node) && SameChildren()
    {
      hide SizesOK, NamesOK, IndexOK, FieldsOf, Keeps;
      Siblings(null);
      KeepsItself(w);
      if root != null && g == node { return; }
      var a := if root != null && node != null && node.kind.Group? then node else null;
      GroupPlacedInv(w, norm, g, a);
      GroupPlacedRest(w, g, a);
      PlaceGroup(g, a);
    }

    /** gaim_blist_add_group: put a group right after node, or first if node is no group; i is its place. */
    method AddGroup(g: Node, node: Node?) returns (ghost i: nat)
      requires Valid() && g.kind.Group? && (g in w.par || Unlisted(w, g)) && FreshName(w, g)
      requires w.kids[null] != [] && node != null && node.kind.Group? && node != g ==> node in w.kids[null]
      requires g !in w.par ==> g.parent == null && g.child == null
      modifies `root, `w, w.nodes`prev, w.nodes`next, w.nodes`child, g`parent
      ensures Valid() && KeepsCaches() && w == GroupAdded(old(w), g, node)
      ensures var a := if old(w).kids[null] != [] && node != null && node.kind.Group? then node else null;
        if old(w).kids[null] != [] && g == node then w == old(w)
        else
          && null in w.kids && i < |w.kids[null]| && w.kids[null][i] == g
          && (if a == null then i == 0 else i > 0 && w.kids[null][i - 1] == a)
          && Moved(old(w).kids, old(w).par, w.kids, g, null, a, i)
    {
      hide Valid, Moved, GroupAdded, FreshName, Unlisted, Keeps;
      ghost var u := w;
      ValidTree();
      PutGroup(g, node);
      i := GroupAddedMoved(u, g, node);
    }

    /** A new node keeps everything. */
    method MakeNode(kind: Kind, name: string, account: Account) returns (n: Node)
      requires Valid()
      modifies `w
      ensures Valid() && KeepsCaches()
      ensures fresh(n) && n.kind == kind && n.name == name && n.account == account && n.parent == null
      ensures n.child == null
      ensures n !in old(w).nodes && w == Admitted(old(w), n, name) && Unlisted(w, n)
    {
      ghost var u := w;
      n := NewNode(kind, name, account);
      AdmittedKeeps(u, norm, n, name);
      AdmittedUnlisted(u, n, name);
    }

    /** gaim_group_new: the group of that name, made if there is none. */
    method GroupNew(name: string) returns (g: Node)
      requires Valid()
      modifies `w
      ensures Valid() && KeepsCaches()
      ensures GroupFound(old(w), w, g, name) && (g !in old(w).nodes ==> fresh(g))
      ensures g.kind.Group? && FreshName(w, g)
      ensures g in w.par || (Unlisted(w, g) && g.parent == null && g.child == null)
    {
      hide SizesOK, NamesOK, IndexOK, Keeps, LinksAre;
      KeepsItself(w);
      var h := FindGroup(name);
      if h != null {
        g := h;
      } else {
        g := MakeNode(Group, name, 0);
      }
    }

    lemma ValidTree()
      requires Valid()
      ensures WellFormed(w) && null in w.kids
    {
    }

    /** The group g, found or made by name, is put at the end of the list. */
    method PutLast(g: Node)
      requires Valid() && g.kind.Group? && FreshName(w, g) && (g in w.par || Unlisted(w, g))
      requires g !in w.par ==> g.parent == null && g.child == null
      modifies `root, `w, w.nodes`prev, w.nodes`next, w.nodes`child, g`parent
      ensures Valid() && KeepsCaches() && w == GroupAdded(old(w), g, Last(old(w).kids[null])) && SameChildren()
    {
      hide SizesOK, NamesOK, IndexOK, FieldsOf, LinksAre, Keeps, GroupAdded, KindsOK, FreshName, Unlisted;
      LastIsGroup(w);
      var a := LastChild(null);
      PutGroup(g, a);
    }

    /** The group of that name, made if need be and put at the end of the list; keep is not touched. */
    method DefaultGroup(name: string, ghost keep: Node) returns (g: Node)
      requires Valid()
      modifies `root, `w, w.nodes`prev, w.nodes`next, w.nodes`child, w.nodes`parent
      ensures Valid() && KeepsCaches() && DefaultMade(old(w), w, g, name) && fresh(w.nodes - old(w).nodes)
      ensures keep in old(w).nodes && !keep.kind.Group? ==>
          keep.parent == old(keep.parent) && keep.child == old(keep.child)
    {
      hide Valid, Keeps, WellFormed, GroupFound, DefaultMade, GroupAdded, Last, FreshName, Unlisted;
      ghost var u := w;
      ValidTree();
      g := GroupNew(name);
      ghost var v := w;
      ValidTree();
      DefaultBy(u, v, g, name);
      label Found:
      PutLast(g);
      KeepsOn(u, v, w);
      assert keep in v.nodes && keep in w.nodes ==> keep.child == old@Found(keep.child);
    }

    /** Put contact c of the list, or a new one, right after a or at the head of group g. */
    method PutContact(c: Node, g: Node, a: Node?)
      requires Valid() && ContactPlaceable(w, c, g, a) && NoContactClash(w, norm, c, g)
      requires c !in w.par ==> c.parent == null && c.child == null
      modifies `root, `w, `buddies, w.nodes`prev, w.nodes`next, w.nodes`child, c`parent, w.nodes`counts
      ensures Valid() && KeepsCaches() && w == ContactPlaced(old(w), norm, c, g, a)
    {
      ContactPlacedKeeps(w, norm, c, g, a);
      PlaceContact(c, g, a);
    }

    /** The group that contact c is to go to. */
    method FindContactGroup(c: Node, group: Node?, a: Node?) returns (h: Node)
      requires Valid() && ContactFits(w, norm, c, group, a) && (c !in w.par ==> c.parent == null && c.child == null)
      modifies `root, `w, w.nodes`prev, w.nodes`next, w.nodes`child, w.nodes`parent
      ensures Valid() && KeepsCaches() && ContactGroup(old(w), w, norm, c, group, a, h)
      ensures (c !in w.par ==> c.parent == null && c.child == null) && fresh(w.nodes - old(w).nodes)
    {
      hide SizesOK, NamesOK, IndexOK, FieldsOf, Keeps, DefaultMade, NoContactClash, Unlisted;
      KeepsItself(w);
      if a != null && a in w.par { At(a); }
      var g := if a != null then a.parent else group;
      if g != null { return g; }
      ghost var u := w;
      h := DefaultGroup(BUDDIES, c);
      DefaultForContact(u, w, norm, c, h);
    }

    method SettleContact(c: Node, group: Node?, node: Node?) returns (ghost m: World, ghost h: Node?)
      requires Valid() && (c != node ==> ContactFits(w, norm, c, group, Spot(node)))
      requires c !in w.par ==> c.parent == null && c.child == null
      modifies `root, `w, `buddies, w.nodes`prev, w.nodes`next, w.nodes`child, w.nodes`parent, c`parent, w.nodes`counts
      ensures Valid() && KeepsCaches()
      ensures c == node ==> w == old(w)
      ensures c != node ==>
          ContactGroup(old(w), m, norm, c, group, Spot(node), h) && w == ContactPlaced(m, norm, c, h, Spot(node))
    {
      hide Valid, Inv, Keeps, ContactGroup, ContactFits;
      ghost var u := w;
      KeepsItself(w);
      m, h := w, null;
      if c == node { return; }
      var a := if node != null && (node.kind.Contact? || node.kind.Chat?) then node else null;
      var g := FindContactGroup(c, group, a);
      m, h := w, g;
      ContactGroupReady(u, w, norm, c, group, a, g);
      PutContact(c, g, a);
      KeepsOn(u, m, w);
    }

    /** gaim_blist_add_contact: put a contact right after node, if that is a contact or chat, or at the head of group,
        or of the default group. m is the list once the group h is there, and i the contact's place in it. */
    method AddContact(c: Node, group: Node?, node: Node?) returns (ghost m: World, ghost h: Node?, ghost i: nat)
      requires Valid() && (c != node ==> ContactFits(w, norm, c, group, Spot(node)))
      requires c !in w.par ==> c.parent == null && c.child == null
      modifies `root, `w, `buddies, w.nodes`prev, w.nodes`next, w.nodes`child, w.nodes`parent, c`parent, w.nodes`counts
      ensures Valid() && KeepsCaches()
      ensures var a := if node != null && (node.kind.Contact? || node.kind.Chat?) then node else null;
        if c == node then w == old(w)
        else
          && h != null && h in w.kids && i < |w.kids[h]| && w.kids[h][i] == c
          && (if a == null then i == 0 else i > 0 && w.kids[h][i - 1] == a)
          && Stands(old(w), m, w.kids, c, group, a, h, "Buddies", i)
      ensures c != node ==>
          ContactGroup(old(w), m, norm, c, group, Spot(node), h) && w == ContactPlaced(m, norm, c, h, Spot(node))
    {
      hide Valid, Inv, Keeps, ContactGroup, ContactFits, Moved, AtTheEnd, ContactPlaced;
      ghost var u := w;
      i := 0;
      ValidTree();
      m, h := SettleContact(c, group, node);
      if c != node { i := ContactStands(u, m, norm, c, group, Spot(node), h); }
    }

    /** Put chat x of the list, or a new one, right after a or at the head of group g. */
    method PutChat(x: Node, g: Node, a: Node?)
      requires Valid() && ChatPlaceable(w, x, g, a)
      requires x !in w.par ==> x.parent == null
      modifies `root, `w, w.nodes`prev, w.nodes`next, w.nodes`child, x`parent, w.nodes`counts
      ensures Valid() && KeepsCaches() && w == ChatPlaced(old(w), x, g, a)
    {
      ChatPlacedKeeps(w, norm, x, g, a);
      PlaceChat(x, g, a);
    }

    /** The group that chat x is to go to. */
    method FindChatGroup(x: Node, group: Node?, a: Node?) returns (h: Node)
      requires Valid() && ChatFits(w, x, group, a) && (x !in w.par ==> x.parent == null)
      modifies `root, `w, w.nodes`prev, w.nodes`next, w.nodes`child, w.nodes`parent
      ensures Valid() && KeepsCaches() && ChatGroup(old(w), w, norm, x, group, a, h)
      ensures (x !in w.par ==> x.parent == null) && fresh(w.nodes - old(w).nodes)
    {
      hide SizesOK, NamesOK, IndexOK, FieldsOf, Keeps, DefaultMade;
      KeepsItself(w);
      if a != null && a in w.par { At(a); }
      var g := if a != null then a.parent else group;
      if g != null { return g; }
      ghost var u := w;
      h := DefaultGroup(CHATS, x);
      DefaultForChat(u, w, norm, x, h);
    }

    method SettleChat(x: Node, group: Node?, node: Node?) returns (ghost m: World, ghost h: Node?)
      requires Valid() && (x != node ==> ChatFits(w, x, group, node))
      requires x !in w.par ==> x.parent == null
      modifies `root, `w, w.nodes`prev, w.nodes`next, w.nodes`child, w.nodes`parent, x`parent, w.nodes`counts
      ensures Valid() && KeepsCaches()
      ensures x == node ==> w == old(w)
      ensures x != node ==> ChatGroup(old(w), m, norm, x, group, node, h) && w == ChatPlaced(m, x, h, node)
    {
      hide Valid, Inv, Keeps, ChatGroup, ChatFits;
      ghost var u := w;
      KeepsItself(w);
      m, h := w, null;
      if x == node { return; }
      var g := FindChatGroup(x, group, node);
      m, h := w, g;
      ChatGroupReady(u, w, norm, x, group, node, g);
      PutChat(x, g, node);
      KeepsOn(u, m, w);
    }

    /** gaim_blist_add_chat: put a chat right after node, or at the head of group, or of the default group. m is the
        list once the group h is there, and i the chat's place in it. */
    method AddChat(x: Node, group: Node?, node: Node?) returns (ghost m: World, ghost h: Node?, ghost i: nat)
      requires Valid() && (x != node ==> ChatFits(w, x, group, node))
      requires x !in w.par ==> x.parent == null
      modifies `root, `w, w.nodes`prev, w.nodes`next, w.nodes`child, w.nodes`parent, x`parent, w.nodes`counts
      ensures Valid() && KeepsCaches()
      ensures if x == node then w == old(w)
        else
          && h != null && h in w.kids && i < |w.kids[h]| && w.kids[h][i] == x
          && (if node == null then i == 0 else i > 0 && w.kids[h][i - 1] == node)
          && Stands(old(w), m, w.kids, x, group, node, h, "Chats", i)
      ensures x != node ==> ChatGroup(old(w), m, norm, x, group, node, h) && w == ChatPlaced(m, x, h, node)
    {
      hide Valid, Inv, Keeps, ChatGroup, ChatFits, Moved, AtTheEnd, ChatPlaced;
      ghost var u := w;
      i := 0;
      ValidTree();
      m, h := SettleChat(x, group, node);
      if x != node { i := ChatStands(u, m, norm, x, group, node, h); }
    }

    /** gaim_contact_new, and gaim_blist_add_contact at the end of group g. */
    method AppendContact(g: Node, ghost b: Node) returns (c: Node)
      requires Rep() && WellFormed(w) && g in w.kids && g.kind.Group?
      modifies `root, `w, `buddies, w.nodes`prev, w.nodes`next, w.nodes`child, w.nodes`counts
      ensures Rep() && fresh(c) && c.kind.Contact? && c !in old(w).nodes
      ensures w == WithContact(old(w), norm, c, g) && w.nodes == old(w).nodes + {c}
      ensures b.parent == old(b.parent)
    {
      hide Rep, WellFormed, ContactPlaceable;
      ghost var u := w;
      var a := LastChild(g);
      c := NewNode(Contact, "", 0);
      NewContactPlaceable(u, c, g);
      PlaceContact(c, g, a);
    }

    /** A buddy is put into a new contact at the end of group g. */
    method AddBuddyAlone(b: Node, g: Node) returns (c: Node, ghost r: Node?)
      requires Rep() && WellFormed(w) && g in w.kids && g.kind.Group? && NoClash(w, norm, b, g)
      requires b in w.nodes && b.kind.Buddy? && b !in w.kids && (b !in w.par ==> b.parent == null)
      modifies `root, `w, `buddies, w.nodes`prev, w.nodes`next, w.nodes`child, w.nodes`parent, w.nodes`counts,
        w.nodes`priority
      ensures Rep() && fresh(c) && BuddyAdded(old(w), w, norm, b, null, g, null, c, r, c.priority)
      ensures w.nodes == old(w).nodes + {c}
    {
      hide Rep, WellFormed, NoClash, BuddyAdded, Placeable, Chose;
      ghost var u := w;
      c := AppendContact(g, b);
      WithContactReady(u, norm, b, c, g);
      r := PlaceBuddy(b, c, null);
      AddedAlone(u, norm, b, g, c, r, c.priority);
    }

    /** Put buddy b of the list, or a new one, right after node, or in front of contact,
        or alone at the end of group. */
    method PutBuddy(b: Node, contact: Node?, group: Node?, node: Node?) returns (ghost c: Node, ghost r: Node?)
      requires Valid() && b in w.nodes && b.kind.Buddy? && b !in w.kids && (b !in w.par ==> b.parent == null)
      requires node != null || contact != null || group != null
      requires node != null ==> node in w.par && node.kind.Buddy?
      requires contact != null ==> contact in w.kids && contact.kind.Contact?
      requires group != null ==> group in w.kids && group.kind.Group?
      requires NoClash(w, norm, b, TargetGroup(w, contact, group, node))
      modifies `root, `w, `buddies, w.nodes`prev, w.nodes`next, w.nodes`child, w.nodes`parent, w.nodes`counts,
        w.nodes`priority
      ensures Valid() && BuddyAdded(old(w), w, norm, b, contact, group, node, c, r, c.priority)
      ensures old(PrioritiesOK(w)) ==> PrioritiesOK(w)
      ensures old(OnlineOK(w)) && !Stays(old(w), b, contact, node) ==>
        (OnlineOK(w) <==> old(Settled(w, b)) || (b in old(w).par && old(w).par[b] == c))
      ensures old(TimersOK(w)) && !Stays(old(w), b, contact, node) ==> (TimersOK(w) <==> TimerAt(old(w).info, b))
      ensures fresh(w.nodes - old(w).nodes)
    {
      hide OnlineOK, PrioritiesOK, TimersOK, BuddyAdded, Stays, NoClash, TargetGroup;
      ghost var u := w;
      c, r := PlaceAnyBuddy(b, contact, group, node);
      BuddyAddedKeeps(u, w, norm, b, contact, group, node, c, r, c.priority);
    }

    /** The default group, if nothing says where buddy b is to go. */
    method FindBuddyGroup(b: Node, contact: Node?, group: Node?, a: Node?) returns (g: Node?)
      requires Valid() && BuddyFits(w, norm, b, contact, group, a) && (b !in w.par ==> b.parent == null)
      modifies `root, `w, w.nodes`prev, w.nodes`next, w.nodes`child, w.nodes`parent
      ensures Valid() && KeepsCaches() && BuddyGroup(old(w), w, norm, b, contact, group, a, g)
      ensures (b !in w.par ==> b.parent == null) && fresh(w.nodes - old(w).nodes)
      ensures (b in w.par <==> b in old(w).par) && (b in w.par ==> w.par[b] == old(w).par[b])
      ensures b in old(w).info && b in w.info && w.info[b] == old(w).info[b] && w.connected == old(w).connected
    {
      hide SizesOK, NamesOK, IndexOK, FieldsOf, Keeps, DefaultMade, NoClash, BuddyReady, TargetGroup;
      KeepsItself(w);
      if a != null || contact != null || group != null { return group; }
      ghost var u := w;
      g := DefaultGroup(BUDDIES, b);
      DefaultForBuddy(u, w, norm, b, g);
    }

    method SettleBuddy(b: Node, contact: Node?, group: Node?, node: Node?)
      returns (ghost m: World, ghost g: Node?, ghost c: Node, ghost r: Node?)
      requires Valid() && BuddyFits(w, norm, b, contact, group, BuddySpot(node)) && (b !in w.par ==> b.parent == null)
      requires node != BuddySpot(node) ==> !Stays(w, b, contact, null)
      modifies `root, `w, `buddies, w.nodes`prev, w.nodes`next, w.nodes`child, w.nodes`parent, w.nodes`counts,
        w.nodes`priority
      ensures Valid() && AddedBy(old(w), m, w, norm, b, contact, group, BuddySpot(node), g, c, r, c.priority)
      ensures old(PrioritiesOK(w)) ==> PrioritiesOK(w)
      ensures old(OnlineOK(w)) && !Stays(m, b, contact, BuddySpot(node)) ==>
        (OnlineOK(w) <==> old(Settled(w, b)) || (b in old(w).par && old(w).par[b] == c))
      ensures old(TimersOK(w)) && !Stays(m, b, contact, BuddySpot(node)) ==> (TimersOK(w) <==> TimerAt(old(w).info, b))
      ensures fresh(w.nodes - old(w).nodes)
    {
      hide Valid, Inv, BuddyFits, BuddyGroup, BuddyAdded, WellFormed, OnlineOK, PrioritiesOK, TimersOK;
      var a := if node != null && node.kind.Buddy? then node else null;
      ghost var u := w;
      var h := FindBuddyGroup(b, contact, group, a);
      m, g := w, h;
      BuddyGroupReady(u, w, norm, b, contact, group, a, h);
      c, r := PutBuddy(b, contact, h, a);
    }

    /** gaim_blist_add_buddy: right after node, if that is a buddy, or in front of contact, or alone at the end of
        group, or of the default group. m is the list once the group g is there, and i the buddy's place in its
        contact c. */
    method AddBuddy(b: Node, contact: Node?, group: Node?, node: Node?)
      returns (ghost m: World, ghost g: Node?, ghost c: Node, ghost r: Node?, ghost i: nat)
      requires Valid() && BuddyFits(w, norm, b, contact, group, BuddySpot(node)) && (b !in w.par ==> b.parent == null)
      requires node != BuddySpot(node) ==> !Stays(w, b, contact, null)
      modifies `root, `w, `buddies, w.nodes`prev, w.nodes`next, w.nodes`child, w.nodes`parent, w.nodes`counts,
        w.nodes`priority
      ensures Valid() && fresh(w.nodes - old(w).nodes)
      ensures AddedBy(old(w), m, w, norm, b, contact, group, BuddySpot(node), g, c, r, c.priority)
      ensures old(PrioritiesOK(w)) ==> PrioritiesOK(w)
      ensures old(OnlineOK(w)) && !Stays(m, b, contact, BuddySpot(node)) ==>
        (OnlineOK(w) <==> old(Settled(w, b)) || (b in old(w).par && old(w).par[b] == c))
      ensures old(TimersOK(w)) && !Stays(m, b, contact, BuddySpot(node)) ==> (TimersOK(w) <==> TimerAt(old(w).info, b))
      ensures var a := if node != null && node.kind.Buddy? then node else null;
        GroupFor(old(w), m, contact, group, a, g) && BuddyStands(m, w, b, contact, a, g, c, i)
      ensures node != null && node.kind.Buddy? && node != b ==>
        && node in m.par && c == m.par[node] && c in w.kids && 0 < i < |w.kids[c]|
        && w.kids[c][i] == b && w.kids[c][i - 1] == node
      ensures (node == null || !node.kind.Buddy?) && contact != null ==>
        contact in w.kids && w.kids[contact] != [] && w.kids[contact][0] == b
      ensures (node == null || !node.kind.Buddy?) && contact == null && node != b ==>
        && c !in m.kids && c in w.kids && w.kids[c] == [b] && g in m.kids && g in w.kids
        && var d := Emptied(m.kids, m.par, b);
        w.kids[g] == (if d == null then m.kids[g] else Without(m.kids[g], d)) + [c]
    {
      hide Valid, Inv, BuddyFits, BuddyGroup, BuddyAdded, OnlineOK, PrioritiesOK, TimersOK, Stays, GroupFor, Settled,
        TimerAt;
      ghost var u := w;
      ghost var a := BuddySpot(node);
      m, g, c, r := SettleBuddy(b, contact, group, node);
      GroupThere(u, m, norm, b, contact, group, a, g);
      i := StandsThere(m, w, norm, b, contact, a, g, c, r, c.priority);
    }

    method PlaceAnyBuddy(b: Node, contact: Node?, group: Node?, node: Node?) returns (ghost c: Node, ghost r: Node?)
      requires Rep() && WellFormed(w) && b in w.nodes && b.kind.Buddy? && b !in w.kids
      requires (b !in w.par ==> b.parent == null)
      requires node != null || contact != null || group != null
      requires node != null ==> node in w.par && node.kind.Buddy?
      requires contact != null ==> contact in w.kids && contact.kind.Contact?
      requires group != null ==> group in w.kids && group.kind.Group?
      requires NoClash(w, norm, b, TargetGroup(w, contact, group, node))
      modifies `root, `w, `buddies, w.nodes`prev, w.nodes`next, w.nodes`child, w.nodes`parent, w.nodes`counts,
        w.nodes`priority
      ensures Rep() && BuddyAdded(old(w), w, norm, b, contact, group, node, c, r, c.priority)
      ensures fresh(w.nodes - old(w).nodes)
    {
      hide Rep, WellFormed, NoClash, BuddyAdded, Placeable, Chose, Placed, Stays;
      ghost var u := w;
      StaysHere(b, contact, node);
      if b == node ||
         (node == null && b.parent != null && contact != null && b.parent == contact && contact.child == b) {
        c, r := b, null;
        AddedNowhere(w, norm, b, contact, group, node, c, r, c.priority);
      } else if node != null {
        NodeReady(w, b, contact, node);
        Parent(node);
        c := node.parent;
        r := PlaceBuddy(b, node.parent, node);
        AddedThere(u, norm, b, contact, group, node, c, r, c.priority);
      } else if contact != null {
        NodeReady(w, b, contact, node);
        c := contact;
        r := PlaceBuddy(b, contact, null);
        AddedThere(u, norm, b, contact, group, node, c, r, c.priority);
      } else {
        c, r := AddBuddyAlone(b, group);
      }
    }

    /** The test by which nothing is done. */
    lemma StaysHere(b: Node, contact: Node?, node: Node?)
      requires Rep() && WellFormed(w) && (b !in w.par ==> b.parent == null) && b.kind.Buddy?
      requires contact != null ==> contact in w.kids && contact.kind.Contact?
      ensures Stays(w, b, contact, node) <==>
        b == node ||
        (node == null && b.parent != null && contact != null && b.parent == contact && contact.child == b)
    {
      if b in w.par { At(b); }
      if contact != null { Siblings(contact); }
    }

    lemma Parent(n: Node)
      requires Rep() && WellFormed(w) && n in w.par && n.kind.Buddy?
      ensures n.parent == w.par[n] && n.parent != null && n.parent in w.nodes
    {
      At(n);
    }

    // ----------------------------------------------------------- status, idleness, presence

    method SetInfo(b: Node, i: Info)
      requires Rep() && FieldsOK(w) && b in w.nodes
      modifies `w, b`info
      ensures Rep() && w == WithInfo(old(w), b, i)
    {
      ghost var f := FieldsIn(w);
      assert FieldsOf(w.nodes - {b, b}, f) && FieldAt(b, f);
      b.info := i;
      ghost var v := WithInfo(w, b, i);
      FieldsFollow(w.nodes, f, FieldsIn(v), b, b);
      Record(v);
    }

    /** b has a new state that may change its rank. */
    method Rerank(b: Node, i: Info)
      requires Rep() && WellFormed(w) && b in w.par && b.kind.Buddy?
      modifies `w, b`info, w.nodes`priority
      ensures Rep() && w == WithInfo(old(w), b, i).(prio := old(w).prio[old(w).par[b] := old(w).par[b].priority])
      ensures old(w).par[b] in w.kids && PriorityAt(w, old(w).par[b])
    {
      At(b);
      var c: Node := b.parent;
      SetInfo(b, i);
      ComputePriority(c);
    }

    method UpdateStatus(b: Node, status: Status)
      requires Valid() && b in w.par && b.kind.Buddy?
      modifies `w, b`info, w.nodes`priority
      ensures Valid() && KeepsCaches()
      ensures w.kids == old(w).kids && w.info == old(w).info[b := old(b.info).(uc := status)]
    {
      ghost var u := w;
      At(b);
      assert FieldAt(b, FieldsIn(w));
      if b.info.uc == status { assert u.info == u.info[b := b.info]; return; }
      ghost var i := b.info.(uc := status);
      Rerank(b, b.info.(uc := status));
      RerankedKeeps(u, w, norm, b, i);
    }

    method UpdateIdle(b: Node, idle: int)
      requires Valid() && b in w.par && b.kind.Buddy?
      modifies `w, b`info, w.nodes`priority
      ensures Valid() && KeepsCaches()
      ensures w.kids == old(w).kids && w.info == old(w).info[b := old(b.info).(idle := idle)]
    {
      ghost var u := w;
      At(b);
      assert FieldAt(b, FieldsIn(w));
      if b.info.idle == idle { assert u.info == u.info[b := b.info]; return; }
      ghost var i := b.info.(idle := idle);
      Rerank(b, b.info.(idle := idle));
      RerankedKeeps(u, w, norm, b, i);
    }

    method BumpOnline(c: Node, g: Node, up: bool)
      requires c != g
      modifies c`counts, g`counts
      ensures var d := if up then 1 else -1;
        && c.counts == old(c.counts).(online := old(c.counts.online) + d)
        && g.counts == old(g.counts).(online := old(g.counts.online) +
              if c.counts.online == (if up then 1 else 0) then d else 0)
    {
      if up {
        c.counts := c.counts.(online := c.counts.online + 1);
        if c.counts.online == 1 { g.counts := g.counts.(online := g.counts.online + 1); }
      } else {
        c.counts := c.counts.(online := c.counts.online - 1);
        if c.counts.online == 0 { g.counts := g.counts.(online := g.counts.online - 1); }
      }
    }

    /** A member of contact c of group g enters (up) or leaves the online counts. */
    method MoveOnline(c: Node, g: Node, up: bool)
      requires Rep() && FieldsOK(w) && c in w.nodes && g in w.nodes && c != g
      modifies `w, c`counts, g`counts
      ensures Rep() && w == old(w).(online := CountMoved(old(w).online, c, g, up))
    {
      ghost var f := FieldsIn(w);
      assert FieldsOf(w.nodes - {c, g}, f) && FieldAt(c, f) && FieldAt(g, f);
      BumpOnline(c, g, up);
      ghost var v := w.(online := CountMoved(w.online, c, g, up));
      FieldsFollow(w.nodes, f, FieldsIn(v), c, g);
      Record(v);
    }

    /** The presence and the online counts; priority and timer come after. */
    method ChangePresence(b: Node, presence: bool) returns (doSomething: bool)
      requires Rep() && WellFormed(w) && b in w.par && b.kind.Buddy?
      modifies `w, b`info, w.nodes`counts
      ensures Rep() && w == PresenceUpdated(old(w), b, presence)
      ensures !doSomething ==> w == old(w)
    {
      At(b);
      var c: Node := b.parent;
      At(c);
      var g: Node := c.parent;
      assert FieldAt(b, FieldsIn(w));
      PresenceUpdatedIs(w, b, presence);
      doSomething := false;
      if !IsOnlineNow(b) && presence {
        var oldPresent := b.info.present;
        SetInfo(b, b.info.(present := SigningOn, timer := true));
        doSomething := true;
        if oldPresent != SigningOff { MoveOnline(c, g, true); }
      } else if IsOnlineNow(b) && !presence {
        SetInfo(b, b.info.(present := SigningOff, timer := true));
        doSomething := true;
      }
    }

    method UpdatePresence(b: Node, presence: bool)
      requires Valid() && b in w.par && b.kind.Buddy?
      modifies `w, b`info, w.nodes`counts, w.nodes`priority
      ensures Valid() && (old(PrioritiesOK(w)) ==> PrioritiesOK(w)) && (old(TimersOK(w)) ==> TimersOK(w))
      ensures old(OnlineOK(w)) ==> (OnlineOK(w) <==> b.account in connected || !presence)
      ensures w.kids == old(w).kids && w.nodes == old(w).nodes && w.connected == old(w).connected
      ensures b in old(w).info && old(w).info[b] == old(b.info)
      ensures w.info == old(w).info[b := AfterPresence(old(b.info), b.account in connected, presence).0]
      ensures var i, on := old(b.info), b.account in connected &&
          (old(b.info).present == Online || old(b.info).present == SigningOn);
        b in w.info && w.info[b] == if presence && !on then Info(SigningOn, i.idle, i.uc, true)
          else if on && !presence then Info(SigningOff, i.idle, i.uc, true) else i
    {
      ghost var u := w;
      PresenceIs(b.info, b.account in connected, presence);
      hide AfterPresence;
      At(b);
      var c: Node := b.parent;
      assert FieldAt(b, FieldsIn(w));
      var d := ChangePresence(b, presence);
      ghost var v := w;
      PresenceUpdatedWellFormed(u, b, presence);
      if d {
        ComputePriority(c);
        PresenceKeeps(u, w, norm, b, presence, c.priority);
      } else {
        PresenceStill(u, norm, b, presence);
      }
    }

    /** The presence, the timer and the online counts when the timer of b has fired. */
    method ExpireTimer(b: Node)
      requires Rep() && WellFormed(w) && b in w.par && b.kind.Buddy?
      modifies `w, b`info, w.nodes`counts
      ensures Rep() && w == TimedOut(old(w), b)
    {
      At(b);
      At(b.parent);
      assert FieldAt(b, FieldsIn(w));
      if b.info.present == SigningOn {
        SetInfo(b, b.info.(present := Online, timer := false));
      } else if b.info.present == SigningOff {
        SetInfo(b, b.info.(present := Offline, timer := false));
        MoveOnline(b.parent, b.parent.parent, false);
      } else {
        SetInfo(b, b.info.(timer := false));
      }
    }

    /** presence_update_timeout_cb, when the pending timer of b fires. */
    method PresenceTimeout(b: Node)
      requires Valid() && b in w.par && b.kind.Buddy? && b.info.timer
      modifies `w, b`info, w.nodes`counts
      ensures Valid() && KeepsCaches()
      ensures w.kids == old(w).kids && w.info == old(w).info[b := AfterTimeout(old(b.info))]
      ensures var i := old(b.info);
        b in w.info && w.info[b] == Info(if i.present == SigningOn then Online
          else if i.present == SigningOff then Offline else i.present, i.idle, i.uc, false)
    {
      assert b.info == w.info[b] by { At(b); assert FieldAt(b, FieldsIn(w)); }
      TimeoutKeeps(w, norm, b);
      ExpireTimer(b);
    }

    // -------------------------------------------------------------------------- removal

    /** gaim_blist_remove_buddy, which does not choose a new priority buddy. */
    method RemoveBuddy(b: Node)
      requires Valid() && b in w.par && b.kind.Buddy?
      modifies `root, `w, `buddies, w.nodes`prev, w.nodes`next, w.nodes`child, w.nodes`counts
      ensures Valid() && (old(TimersOK(w)) ==> TimersOK(w))
      ensures w == Detached(old(w), b).(
        index := old(w).index - {Key(norm(b.name), b.account, old(w).par[old(w).par[b]])})
      ensures old(PrioritiesOK(w)) ==> (PrioritiesOK(w) <==>
          old(w).par[b] !in w.kids || old(w).prio[old(w).par[b]] != b)
      ensures old(OnlineOK(w)) ==> (OnlineOK(w) <==> old(w).info[b].present != SigningOff)
      ensures b !in w.par && w.kids == KidsWithout(old(w).kids, old(w).par, b)
    {
      ghost var u := w;
      DetachedLists(w, b);
      DetachedRest(w, b);
      At(b);
      var c: Node := b.parent;
      At(c);
      var g := c.parent;
      LeftWellFormed(w, b);
      Leave(b);
      ghost var v := w;
      HashRemove(Key(norm(b.name), b.account, g));
      ghost var index := w.index;
      Siblings(c);
      if c.child == null { RemoveEmptyContact(c); }
      TidiedUpIndex(v, index, c);
      RemovedKeeps(u, norm, b);
    }

    /** Removing contact c has come to its i-th buddy; freed: the last one has gone, and c with it. */
    ghost predicate AtDrain(u: World, c: Node, i: nat, freed: bool)
      requires IsContact(u, c)
      reads `root, `w, `buddies, `connected,
        w.nodes`prev, w.nodes`next, w.nodes`parent, w.nodes`child,
        w.nodes`counts, w.nodes`groupName, w.nodes`priority, w.nodes`info
    {
      var s := u.kids[c];
      && i <= |s| && s != [] && freed == (i == |s|)
      && Valid() && Drained(u, w, c, i) && (TimersOK(u) ==> TimersOK(w))
      && (OnlineOK(u) && Count(s[..i], SigningOffF(u.info)) == 0 ==> OnlineOK(w))
      && (OnlineOK(u) ==> DrainCounts(u, w, c, i))
    }

    lemma DrainBegins(c: Node)
      requires Valid() && c in w.par && c.kind.Contact? && w.kids[c] != []
      ensures IsContact(w, c) && AtDrain(w, c, 0, false)
    {
      NothingDrained(w, c);
      if OnlineOK(w) { DrainCountsBegin(w, c); }
    }

    /** The next buddy to be removed is the first child, and the last if it has no sibling. */
    lemma DrainAt(u: World, c: Node, i: nat)
      requires IsContact(u, c) && AtDrain(u, c, i, false)
      ensures i < |u.kids[c]| && Valid() && w.nodes == u.nodes && c in w.nodes
      ensures c.child == u.kids[c][i] && c.child in w.par && c.child.kind.Buddy? && c.child in w.nodes
      ensures c.child in w.info
      ensures c.child.next == null <==> i + 1 == |u.kids[c]|
    {
      DrainNext(u, w, c, i);
      Siblings(c);
    }

    lemma DrainOn(u: World, v: World, c: Node, i: nat)
      requires IsContact(u, c) && i < |u.kids[c]| && WellFormed(v) && Drained(u, v, c, i)
      requires u.kids[c][i] in v.par && u.kids[c][i].kind.Buddy? && w == BuddyRemovedW(v, norm, u.kids[c][i])
      requires Valid() && (TimersOK(u) ==> TimersOK(v)) && (TimersOK(v) ==> TimersOK(w))
      requires OnlineOK(u) && Count(u.kids[c][..i], SigningOffF(u.info)) == 0 ==> OnlineOK(v)
      requires OnlineOK(v) ==> (OnlineOK(w) <==> v.info[u.kids[c][i]].present != SigningOff)
      requires OnlineOK(u) ==> DrainCounts(u, v, c, i)
      ensures AtDrain(u, c, i + 1, i + 1 == |u.kids[c]|)
    {
      hide OnlineOK, TimersOK, DrainCounts, BuddyRemovedW, Inv, Rep;
      var b := u.kids[c][i];
      DrainStep(u, v, norm, c, i);
      CountSnoc(u.kids[c], SigningOffF(u.info), i);
      assert b in u.kids[c];
      if OnlineOK(u) {
        OnlineOffline(u);
        DrainCountsStep(u, v, norm, c, i);
      }
    }

    method NextDrain(c: Node, ghost u: World, ghost i: nat) returns (freed: bool)
      requires IsContact(u, c) && AtDrain(u, c, i, false)
      modifies `root, `w, `buddies, w.nodes`prev, w.nodes`next, w.nodes`child, w.nodes`counts
      ensures AtDrain(u, c, i + 1, freed) && i < |u.kids[c]| && w.nodes == old(w).nodes
    {
      hide Valid, AtDrain, Drained, DrainCounts, OnlineOK, TimersOK, PrioritiesOK, BuddyRemovedW;
      DrainAt(u, c, i);
      DrainFacts(u, c, i);
      ghost var v := w;
      var b: Node := c.child;
      freed := b.next == null;
      RemoveBuddy(b);
      RemovedIs(v, b);
      DrainOn(u, v, c, i);
    }

    /** gaim_blist_remove_contact. With its last buddy, the loop removes the contact itself: freed says that the next
        test of the loop would read a contact that is no more, which happens exactly if the contact had buddies. */
    method RemoveContact(c: Node) returns (freed: bool)
      requires Valid() && c in w.par && c.kind.Contact?
      modifies `root, `w, `buddies, w.nodes`prev, w.nodes`next, w.nodes`child, w.nodes`counts
      ensures Valid() && freed == (old(w).kids[c] != []) && ContactGone(old(w), w, c)
      ensures (old(PrioritiesOK(w)) ==> PrioritiesOK(w)) && (old(TimersOK(w)) ==> TimersOK(w))
      ensures old(OnlineOK(w)) ==>
        (OnlineOK(w) <==> forall b: Node ::
            b in old(w).kids[c] ==> b in old(w).info && old(w).info[b].present != SigningOff)
    {
      ghost var u := w;
      Siblings(c);
      if c.child == null {
        PrunedKeeps(w, norm, c);
        PrunedGone(w, c);
        RemoveEmptyContact(c);
        return false;
      }
      freed := Drain(c);
    }

    method Drain(c: Node) returns (freed: bool)
      requires Valid() && c in w.par && c.kind.Contact? && w.kids[c] != []
      modifies `root, `w, `buddies, w.nodes`prev, w.nodes`next, w.nodes`child, w.nodes`counts
      ensures freed && Valid() && ContactGone(old(w), w, c)
      ensures (old(PrioritiesOK(w)) ==> PrioritiesOK(w)) && (old(TimersOK(w)) ==> TimersOK(w))
      ensures old(OnlineOK(w)) ==>
        (OnlineOK(w) <==> forall b: Node ::
            b in old(w).kids[c] ==> b in old(w).info && old(w).info[b].present != SigningOff)
    {
      hide Valid, AtDrain, Drained, DrainCounts, OnlineOK, TimersOK, PrioritiesOK, ContactGone;
      ghost var u, i := w, 0;
      DrainBegins(c);
      freed := false;
      while !freed
        invariant AtDrain(u, c, i, freed) && w.nodes == u.nodes
        decreases |u.kids[c]| - i, !freed
      {
        freed := NextDrain(c, u, i);
        i := i + 1;
      }
      DrainEnds(u, c, i);
    }

    lemma DrainEnds(u: World, c: Node, i: nat)
      requires IsContact(u, c) && AtDrain(u, c, i, true)
      ensures Valid() && ContactGone(u, w, c)
      ensures (PrioritiesOK(u) ==> PrioritiesOK(w)) && (TimersOK(u) ==> TimersOK(w))
      ensures OnlineOK(u) ==>
        (OnlineOK(w) <==> forall b: Node :: b in u.kids[c] ==> b in u.info && u.info[b].present != SigningOff)
    {
      hide OnlineOK, TimersOK, PrioritiesOK, DrainCounts, Drained;
      assert u.kids[c][..i] == u.kids[c];
      DrainedKeeps(u, w, c);
      if OnlineOK(u) { DrainedOnline(u, w, c); }
    }

    lemma DrainFacts(u: World, c: Node, i: nat)
      requires IsContact(u, c) && AtDrain(u, c, i, false)
      ensures WellFormed(w) && Drained(u, w, c, i) && (TimersOK(u) ==> TimersOK(w))
      ensures OnlineOK(u) && Count(u.kids[c][..i], SigningOffF(u.info)) == 0 ==> OnlineOK(w)
      ensures OnlineOK(u) ==> DrainCounts(u, w, c, i)
    {
    }

    lemma RemovedIs(v: World, b: Node)
      requires WellFormed(v) && b in v.par && b.kind.Buddy?
      requires w == Detached(v, b).(index := v.index - {Key(norm(b.name), b.account, v.par[v.par[b]])})
      ensures w == BuddyRemovedW(v, norm, b) && w.nodes == v.nodes
    {
      DetachedRest(v, b);
    }

    method RemoveChat(x: Node)
      requires Valid() && x in w.par && x.kind.Chat?
      modifies `root, `w, w.nodes`prev, w.nodes`next, w.nodes`child, w.nodes`counts
      ensures Valid() && KeepsCaches() && w == ChatLifted(old(w), x)
      ensures x !in w.par && x in old(w).par && old(w).par[x] in old(w).kids
      ensures var g := old(w).par[x]; w.kids == old(w).kids[g := Without(old(w).kids[g], x)]
    {
      ChatLiftedInv(w, norm, x);
      LiftChat(x);
    }

    /** A group that still has children is not removed. */
    method RemoveGroup(g: Node)
      requires Valid() && g in w.par && g.kind.Group?
      modifies `root, `w, w.nodes`prev, w.nodes`next, w.nodes`child
      ensures Valid() && KeepsCaches() && w == GroupRemoved(old(w), g)
      ensures g in old(w).kids && null in old(w).kids
      ensures if old(w).kids[g] != [] then w == old(w)
        else g !in w.par && w.kids == (old(w).kids - {g})[null := Without(old(w).kids[null], g)]
    {
      Siblings(g);
      GroupRemovedLists(w, g);
      GroupRemovedInv(w, norm, g);
      GroupRemovedRest(w, g);
      if g.child != null { return; }
      assert w.par[g] !in w.kids[w.par[g]] by { NotOwnChild(w.kids, w.par, null); }
      Unlink(g);
      Forget(g);
    }

    // ------------------------------------------------------------------------- merging

    /** Put b, the next buddy of contact d, at the end of contact c. */
    method MergeBuddy(b: Node, c: Node, ghost u: World, ghost d: Node, ghost i: nat)
      requires Valid() && Inv(u, norm) && Mergeable(u, d, c) && Merged(u, w, d, c, i)
      requires i < |u.kids[d]| && u.kids[d][i] == b && NoContactClash(u, norm, d, u.par[c])
      modifies `root, `w, `buddies, w.nodes`prev, w.nodes`next, w.nodes`child, w.nodes`parent, w.nodes`counts,
        w.nodes`priority
      ensures Valid() && Merged(u, w, d, c, i + 1) && w.nodes == old(w).nodes
      ensures (old(PrioritiesOK(w)) ==> PrioritiesOK(w)) && (old(TimersOK(w)) ==> TimersOK(w))
      ensures old(OnlineOK(w)) && b in u.info && Settled(u, b) ==> OnlineOK(w)
      ensures old(OfflineOK(w)) ==> OfflineOK(w) && Short(w, c) == old(Short(w, c)) + Bit(SigningOffF(u.info)(b))
    {
      hide Rep, WellFormed, SizesOK, NamesOK, IndexOK, Merged, BuddyAdded, NoClash, TargetGroup, Stays, OnlineOK,
          PrioritiesOK,
        TimersOK, OfflineOK, Short, SigningOffF;
      ghost var v := w;
      MergeReady(u, w, norm, d, c, i);
      var a := LastChild(c);
      ghost var e, r := PutBuddy(b, c, null, a);
      MergedBy(u, v, w, norm, d, c, i, e, r, e.priority);
      if OfflineOK(v) { MergedShort(u, v, w, norm, d, c, i, e, r, e.priority); }
      if TimersOK(v) { ListedTimer(v, b); }
      MergedNodes(u, v, d, c, i);
      MergedNodes(u, w, d, c, i + 1);
    }

    /** Merging source into target has come to child, the i-th buddy of source. */
    ghost predicate AtMerge(u: World, source: Node, target: Node, child: Node?, i: nat)
      requires Mergeable(u, source, target)
      reads `root, `w, `buddies, `connected,
        w.nodes`prev, w.nodes`next, w.nodes`parent, w.nodes`child,
        w.nodes`counts, w.nodes`groupName, w.nodes`priority, w.nodes`info
    {
      var s := u.kids[source];
      && i <= |s| && child == (if i == |s| then null else s[i])
      && Valid() && Merged(u, w, source, target, i)
      && (PrioritiesOK(u) ==> PrioritiesOK(w)) && (TimersOK(u) ==> TimersOK(w))
      && (OnlineOK(u) && AllSettled(u, s) ==> OnlineOK(w))
      && (OnlineOK(u) ==> OfflineOK(w) && Short(w, target) == Count(s[..i], SigningOffF(u.info)))
    }

    lemma MergeBegins(source: Node, target: Node)
      requires Valid() && source in w.par && source.kind.Contact? && target in w.par && target.kind.Contact?
      requires source != target
      ensures Inv(w, norm) && Mergeable(w, source, target) && source in w.kids
      ensures AtMerge(w, source, target, source.child, 0)
    {
      NothingMerged(w, source, target);
      Siblings(source);
      assert target in w.kids && target in w.nodes;
      if OnlineOK(w) { ShortNotOnline(w, target); }
    }

    /** The next pointer of the buddy about to be moved. */
    lemma MergeAt(u: World, source: Node, target: Node, child: Node, i: nat)
      requires Mergeable(u, source, target) && AtMerge(u, source, target, child, i)
      ensures w.nodes == u.nodes && Valid() && Merged(u, w, source, target, i) && i < |u.kids[source]|
      ensures child == u.kids[source][i]
      ensures (PrioritiesOK(u) ==> PrioritiesOK(w)) && (TimersOK(u) ==> TimersOK(w))
      ensures OnlineOK(u) && AllSettled(u, u.kids[source]) ==> OnlineOK(w)
      ensures OnlineOK(u) ==> OfflineOK(w) && Short(w, target) == Count(u.kids[source][..i], SigningOffF(u.info))
      ensures child.next == if i + 1 == |u.kids[source]| then null else u.kids[source][i + 1]
    {
      MergeNext(u, w, source, target, i);
      Siblings(source);
      assert w.kids[source][0] == child;
    }

    lemma MergeNow(u: World, source: Node, target: Node, next: Node?, i: nat)
      requires Mergeable(u, source, target) && Valid() && Merged(u, w, source, target, i + 1)
      requires next == if i + 1 == |u.kids[source]| then null else u.kids[source][i + 1]
      requires (PrioritiesOK(u) ==> PrioritiesOK(w)) && (TimersOK(u) ==> TimersOK(w))
      requires OnlineOK(u) && AllSettled(u, u.kids[source]) ==> OnlineOK(w)
      requires OnlineOK(u) ==>
        OfflineOK(w) && Short(w, target) == Count(u.kids[source][..i],
            SigningOffF(u.info)) + Bit(SigningOffF(u.info)(u.kids[source][i]))
      ensures AtMerge(u, source, target, next, i + 1)
    {
      CountSnoc(u.kids[source], SigningOffF(u.info), i);
    }

    method NextMerge(child: Node, target: Node, ghost u: World, ghost source: Node, ghost i: nat) returns (next: Node?)
      requires Inv(u, norm) && Mergeable(u, source, target) && AtMerge(u, source, target, child, i)
      requires NoContactClash(u, norm, source, u.par[target])
      modifies `root, `w, `buddies, w.nodes`prev, w.nodes`next, w.nodes`child, w.nodes`parent, w.nodes`counts,
        w.nodes`priority
      ensures i < |u.kids[source]| && AtMerge(u, source, target, next, i + 1) && w.nodes == old(w).nodes
    {
      hide Valid, Merged, OnlineOK, OfflineOK, PrioritiesOK, TimersOK, Settled, NoContactClash, AtMerge, Short,
          SigningOffF;
      MergeAt(u, source, target, child, i);
      next := child.next;
      MergeBuddy(child, target, u, source, i);
      MergeNow(u, source, target, next, i);
    }

    lemma MergeEnds(u: World, source: Node, target: Node, i: nat)
      requires Mergeable(u, source, target) && AtMerge(u, source, target, null, i)
      ensures Valid() && Merged(u, w, source, target, |u.kids[source]|)
      ensures (PrioritiesOK(u) ==> PrioritiesOK(w)) && (TimersOK(u) ==> TimersOK(w))
      ensures OnlineOK(u) ==> (OnlineOK(w) <==> AllSettled(u, u.kids[source]))
    {
      var s := u.kids[source];
      assert s[..i] == s;
      if OnlineOK(u) {
        forall k | 0 <= k < |s| ensures s[k] in u.par && s[k].kind.Buddy? { assert s[k] in s; }
        SettledCount(u, s);
        MergedTarget(u, w, source, target, i);
        if OnlineOK(w) { ShortNotOnline(w, target); }
      }
    }

    /** gaim_blist_merge_contact: the buddies of source go to the end of target, in their order. */
    method MergeContact(source: Node, target: Node)
      requires Valid() && source in w.par && source.kind.Contact? && target in w.par && target.kind.Contact?
      requires source != target ==> NoContactClash(w, norm, source, w.par[target])
      modifies `root, `w, `buddies, w.nodes`prev, w.nodes`next, w.nodes`child, w.nodes`parent, w.nodes`counts,
        w.nodes`priority
      ensures Valid() && (old(PrioritiesOK(w)) ==> PrioritiesOK(w)) && (old(TimersOK(w)) ==> TimersOK(w))
      ensures if source == target then w == old(w) else Merged(old(w), w, source, target, |old(w).kids[source]|)
      ensures source != target && old(OnlineOK(w)) ==> (OnlineOK(w) <==> AllSettled(old(w), old(w).kids[source]))
    {
      hide Valid, Inv, Mergeable, AtMerge, Merged, OnlineOK, PrioritiesOK, TimersOK, NoContactClash, AllSettled;
      if source == target { return; }
      ghost var u, i := w, 0;
      MergeBegins(source, target);
      ghost var n := |u.kids[source]|;
      var child := source.child;
      while child != null
        invariant AtMerge(u, source, target, child, i) && w.nodes == u.nodes
        decreases n - i
      {
        child := NextMerge(child, target, u, source, i);
        i := i + 1;
      }
      MergeEnds(u, source, target, i);
    }

    lemma OwnPlace(b: Node, c: Node, i: nat)
      requires Valid() && c in w.par && c.kind.Contact? && i < |w.kids[c]| && w.kids[c][i] == b
      ensures b.prev == if i == 0 then null else w.kids[c][i - 1]
      ensures b in w.par && w.par[b] == c && NoClash(w, norm, b, w.par[c])
    {
      Siblings(c);
      assert ListAt(w.kids, w.nodes, root, c);
      OwnKey(w, norm, b);
    }

    /** b is asked to go where it is: right after its own predecessor. */
    method ReseatBuddy(b: Node, c: Node, ghost i: nat)
      requires Valid() && c in w.par && c.kind.Contact? && i < |w.kids[c]| && w.kids[c][i] == b
      modifies `root, `w, `buddies, w.nodes`prev, w.nodes`next, w.nodes`child, w.nodes`parent, w.nodes`counts,
        w.nodes`priority
      ensures Valid() && KeepsCaches() && w == old(w).(prio := w.prio)
    {
      ghost var u := w;
      OwnPlace(b, c, i);
      if i > 0 { PlacedInSitu(w, norm, b, i, null, null); }
      ghost var e, r := PutBuddy(b, c, null, b.prev);
      if i > 0 { PlacedInSitu(u, norm, b, i, r, e.priority); }
    }

    /** The buddies of contact c have been put where they are, up to b, the i-th. */
    ghost predicate AtReseat(u: World, c: Node, b: Node?, i: nat)
      requires c in u.kids
      reads `root, `w, `buddies, `connected,
        w.nodes`prev, w.nodes`next, w.nodes`parent, w.nodes`child,
        w.nodes`counts, w.nodes`groupName, w.nodes`priority, w.nodes`info
    {
      var s := u.kids[c];
      && i <= |s| && b == (if i == |s| then null else s[i])
      && Valid() && Keeps(u, w) && w == u.(prio := w.prio)
    }

    lemma ReseatBegins(c: Node)
      requires Valid() && c in w.par && c.kind.Contact?
      ensures c in w.kids && AtReseat(w, c, c.child, 0)
    {
      KeepsItself(w);
      Siblings(c);
    }

    lemma ReseatNow(u: World, c: Node, b: Node, i: nat)
      requires c in u.kids && Valid() && Keeps(u, w) && w == u.(prio := w.prio) && i < |u.kids[c]| && u.kids[c][i] == b
      ensures AtReseat(u, c, b.next, i + 1)
    {
      Siblings(c);
    }

    method NextReseat(b: Node, c: Node, ghost u: World, ghost i: nat) returns (next: Node?)
      requires c in u.kids && AtReseat(u, c, b, i) && c in u.par && c.kind.Contact?
      modifies `root, `w, `buddies, w.nodes`prev, w.nodes`next, w.nodes`child, w.nodes`parent, w.nodes`counts,
        w.nodes`priority
      ensures i < |u.kids[c]| && AtReseat(u, c, next, i + 1) && w.nodes == old(w).nodes
    {
      hide Valid, Keeps;
      ghost var v := w;
      ReseatBuddy(b, c, i);
      KeepsOn(u, v, w);
      ReseatNow(u, c, b, i);
      next := b.next;
    }

    method Reseat(c: Node)
      requires Valid() && c in w.par && c.kind.Contact?
      modifies `root, `w, `buddies, w.nodes`prev, w.nodes`next, w.nodes`child, w.nodes`parent, w.nodes`counts,
        w.nodes`priority
      ensures Valid() && KeepsCaches() && w == old(w).(prio := w.prio)
    {
      hide Valid, Keeps;
      ghost var u, i := w, 0;
      ReseatBegins(c);
      var b := c.child;
      while b != null
        invariant AtReseat(u, c, b, i) && w.nodes == u.nodes
        decreases |u.kids[c]| - i
      {
        b := NextReseat(b, c, u, i);
        i := i + 1;
      }
    }

    /** Put the contact x, the next child of group h, right after prev, the last child of group g. */
    method MergeMember(x: Node, g: Node, prev: Node?, ghost u: World, ghost h: Node, ghost i: nat)
      requires Valid() && Inv(u, norm) && GroupMergeable(u, h, g) && GroupMerged(u, w, h, g, i)
      requires NoGroupClash(u, norm, h, g)
      requires i < |u.kids[h]| && u.kids[h][i] == x && prev == Last(w.kids[g]) && x.kind.Contact?
      modifies `root, `w, `buddies, w.nodes`prev, w.nodes`next, w.nodes`child, w.nodes`parent, w.nodes`counts,
        w.nodes`priority
      ensures Valid() && KeepsCaches() && GroupMerged(u, w, h, g, i + 1)
    {
      hide Keeps, SizesOK, NamesOK, IndexOK, FieldsOf, LinksAre;
      ghost var v := w;
      GroupMergeNext(u, w, h, g, i);
      ContactMergeStep(u, w, norm, h, g, i);
      GroupMergeNoClash(u, w, norm, h, g, i);
      PutContact(x, g, prev);
      GroupMergedIn(u, w, h, g, i);
      ghost var t := w;
      Reseat(x);
      KeepsOn(v, t, w);
    }

    /** Put x, the next child of group h, right after prev, the last child of group g. */
    method MergeChild(x: Node, g: Node, prev: Node?, ghost u: World, ghost h: Node, ghost i: nat)
      requires Valid() && Inv(u, norm) && GroupMergeable(u, h, g) && GroupMerged(u, w, h, g, i)
      requires NoGroupClash(u, norm, h, g)
      requires i < |u.kids[h]| && u.kids[h][i] == x && prev == Last(w.kids[g])
      modifies `root, `w, `buddies, w.nodes`prev, w.nodes`next, w.nodes`child, w.nodes`parent, w.nodes`counts,
        w.nodes`priority
      ensures Valid() && KeepsCaches() && GroupMerged(u, w, h, g, i + 1)
    {
      hide Keeps, SizesOK, NamesOK, IndexOK, FieldsOf, LinksAre;
      if x.kind.Contact? {
        MergeMember(x, g, prev, u, h, i);
      } else {
        GroupMergeNext(u, w, h, g, i);
        ChatMergeStep(u, w, h, g, i);
        PutChat(x, g, prev);
      }
    }

    /** Merging group into dest has come to child, the i-th of its children; prev is the last child of dest. */
    ghost predicate AtGroupMerge(u: World, group: Node, dest: Node, child: Node?, prev: Node?, i: nat)
      requires GroupMergeable(u, group, dest)
      reads `root, `w, `buddies, `connected,
        w.nodes`prev, w.nodes`next, w.nodes`parent, w.nodes`child,
        w.nodes`counts, w.nodes`groupName, w.nodes`priority, w.nodes`info
    {
      var s := u.kids[group];
      && i <= |s| && child == (if i == |s| then null else s[i])
      && Valid() && Keeps(u, w) && GroupMerged(u, w, group, dest, i) && prev == Last(w.kids[dest])
    }

    lemma GroupMergeBegins(group: Node, dest: Node)
      requires Valid() && GroupMergeable(w, group, dest)
      ensures Rep() && Inv(w, norm) && WellFormed(w) && dest in w.kids && group in w.kids
      ensures AtGroupMerge(w, group, dest, group.child, Last(w.kids[dest]), 0)
    {
      NothingGroupMerged(w, group, dest);
      KeepsItself(w);
      Siblings(group);
    }

    lemma GroupMergeAt(u: World, group: Node, dest: Node, child: Node, prev: Node?, i: nat)
      requires GroupMergeable(u, group, dest) && AtGroupMerge(u, group, dest, child, prev, i)
      ensures w.nodes == u.nodes && i < |u.kids[group]| && child == u.kids[group][i]
      ensures Valid() && Keeps(u, w) && GroupMerged(u, w, group, dest, i) && prev == Last(w.kids[dest])
      ensures child.next == if i + 1 == |u.kids[group]| then null else u.kids[group][i + 1]
    {
      GroupMergeNext(u, w, group, dest, i);
      Siblings(group);
      assert w.kids[group][0] == child;
    }

    lemma GroupMergeNow(u: World, group: Node, dest: Node, next: Node?, i: nat)
      requires GroupMergeable(u, group, dest) && Valid() && Keeps(u, w) && GroupMerged(u, w, group, dest, i + 1)
      requires next == if i + 1 == |u.kids[group]| then null else u.kids[group][i + 1]
      ensures AtGroupMerge(u, group, dest, next, u.kids[group][i], i + 1)
    {
      assert u.kids[group][..i + 1][i] == u.kids[group][i];
    }

    method NextGroupMerge(child: Node, dest: Node, prev: Node?, ghost u: World, ghost group: Node, ghost i: nat)
      returns (next: Node?)
      requires Inv(u, norm) && GroupMergeable(u, group, dest) && AtGroupMerge(u, group, dest, child, prev, i)
      requires NoGroupClash(u, norm, group, dest)
      modifies `root, `w, `buddies, w.nodes`prev, w.nodes`next, w.nodes`child, w.nodes`parent, w.nodes`counts,
        w.nodes`priority
      ensures i < |u.kids[group]| && AtGroupMerge(u, group, dest, next, child, i + 1) && w.nodes == old(w).nodes
    {
      hide Valid, Keeps, GroupMerged, NoGroupClash, AtGroupMerge, Inv;
      GroupMergeAt(u, group, dest, child, prev, i);
      next := child.next;
      ghost var v := w;
      MergeChild(child, dest, prev, u, group, i);
      KeepsOn(u, v, w);
      GroupMergeNow(u, group, dest, next, i);
      GroupMergedNodes(u, w, group, dest, i + 1);
    }

    lemma GroupMergeEnds(u: World, group: Node, dest: Node, prev: Node?, i: nat)
      requires GroupMergeable(u, group, dest) && AtGroupMerge(u, group, dest, null, prev, i)
      ensures Valid() && Keeps(u, w) && GroupMerged(u, w, group, dest, |u.kids[group]|)
    {
    }

    /** All children of group go to the end of dest, in their order. */
    method MergeGroup(group: Node, dest: Node)
      requires Valid() && GroupMergeable(w, group, dest) && NoGroupClash(w, norm, group, dest)
      modifies `root, `w, `buddies, w.nodes`prev, w.nodes`next, w.nodes`child, w.nodes`parent, w.nodes`counts,
        w.nodes`priority
      ensures Valid() && KeepsCaches() && GroupMerged(old(w), w, group, dest, |old(w).kids[group]|)
    {
      hide Valid, Rep, Inv, WellFormed, GroupMergeable, AtGroupMerge, Keeps, GroupMerged, NoGroupClash, Last;
      ghost var u, i := w, 0;
      GroupMergeBegins(group, dest);
      ghost var n := |u.kids[group]|;
      var prev := LastChild(dest);
      var child := group.child;
      while child != null
        invariant AtGroupMerge(u, group, dest, child, prev, i) && w.nodes == u.nodes
        decreases n - i
      {
        var next := NextGroupMerge(child, dest, prev, u, group, i);
        prev := child;
        child := next;
        i := i + 1;
      }
      GroupMergeEnds(u, group, dest, prev, i);
    }

    method SetGroupName(g: Node, name: string)
      requires Rep() && FieldsOK(w) && g in w.nodes
      modifies `w, g`groupName
      ensures Rep() && w == old(w).(names := old(w).names[g := name])
    {
      ghost var f := FieldsIn(w);
      assert FieldsOf(w.nodes - {g, g}, f) && FieldAt(g, f);
      g.groupName := name;
      ghost var v := w.(names := w.names[g := name]);
      FieldsFollow(w.nodes, f, FieldsIn(v), g, g);
      Record(v);
    }

    /** gaim_blist_rename_group: a group renamed to a name in use is merged into the group of that name. */
    method RenameGroup(group: Node, name: string)
      requires Valid() && group in w.par && group.kind.Group?
      requires forall g: Node ::
          g in w.kids[null] && g != group && w.names[g] == name ==> NoGroupClash(w, norm, group, g)
      modifies `root, `w, `buddies, w.nodes`prev, w.nodes`next, w.nodes`child, w.nodes`parent, w.nodes`counts,
        w.nodes`priority, group`groupName
      ensures Valid() && KeepsCaches()
      ensures Renamed(old(w), w, group, name)
    {
      hide Keeps, SizesOK, NamesOK, IndexOK, Absorbed;
      ghost var u := w;
      KeepsItself(w);
      assert FieldAt(group, FieldsIn(w)) && group in w.kids[null];
      if name == "" || name == group.groupName { return; }
      var dest := FindGroup(name);
      if dest != null {
        Absorb(group, dest);
        RenamedInto(u, w, group, name, dest);
      } else {
        RenamedKeeps(w, norm, group, name);
        SetGroupName(group, name);
      }
    }

    /** The group is merged into dest and removed. */
    method Absorb(group: Node, dest: Node)
      requires Valid() && GroupMergeable(w, group, dest) && NoGroupClash(w, norm, group, dest)
      modifies `root, `w, `buddies, w.nodes`prev, w.nodes`next, w.nodes`child, w.nodes`parent, w.nodes`counts,
        w.nodes`priority
      ensures Valid() && KeepsCaches() && Absorbed(old(w), w, group, dest)
    {
      hide Keeps, Rep, SizesOK, NamesOK, IndexOK, GroupMerged, NoGroupClash, Absorbed;
      ghost var u := w;
      MergeGroup(group, dest);
      GroupMergedNodes(u, w, group, dest, |u.kids[group]|);
      GroupMergedAll(u, w, group, dest);
      ghost var v := w;
      RemoveGroup(group);
      KeepsOn(u, v, w);
    }

    // ------------------------------------------------------------ accounts signing on and off

    method BumpCurrent(c: Node, g: Node, up: bool)
      requires c != g
      modifies c`counts, g`counts
      ensures var d := if up then 1 else -1;
        && c.counts == old(c.counts).(currentsize := old(c.counts.currentsize) + d)
        && g.counts == old(g.counts).(currentsize := old(g.counts.currentsize) +
              if c.counts.currentsize == (if up then 1 else 0) then d else 0)
    {
      var d := if up then 1 else -1;
      c.counts := c.counts.(currentsize := c.counts.currentsize + d);
      if c.counts.currentsize == (if up then 1 else 0) {
        g.counts := g.counts.(currentsize := g.counts.currentsize + d);
      }
    }

    /** A member of contact c of group g enters (up) or leaves the current sizes. */
    method MoveCurrent(c: Node, g: Node, up: bool)
      requires Rep() && FieldsOK(w) && c in w.nodes && g in w.nodes && c != g
      modifies `w, c`counts, g`counts
      ensures Rep() && w == old(w).(current := CountMoved(old(w).current, c, g, up))
    {
      ghost var f := FieldsIn(w);
      assert FieldsOf(w.nodes - {c, g}, f) && FieldAt(c, f) && FieldAt(g, f);
      BumpCurrent(c, g, up);
      ghost var v := w.(current := CountMoved(w.current, c, g, up));
      FieldsFollow(w.nodes, f, FieldsIn(v), c, g);
      Record(v);
    }

    /** One buddy of an account that signs on, as in gaim_blist_add_account. */
    method SignOnBuddy(b: Node, c: Node, g: Node)
      requires Rep() && WellFormed(w) && b in w.par && b.kind.Buddy? && w.par[b] == c && w.par[c] == g
      modifies `w, w.nodes`counts
      ensures Rep() && w == SignedOn(old(w), b)
    {
      At(b);
      At(c);
      assert FieldAt(b, FieldsIn(w));
      MoveCurrent(c, g, true);
      if IsOnlineNow(b) { MoveOnline(c, g, true); }
    }

    /** One buddy of an account that signs off, as in gaim_blist_remove_account. */
    method SignOffBuddy(b: Node, c: Node, g: Node)
      requires Rep() && WellFormed(w) && b in w.par && b.kind.Buddy? && w.par[b] == c && w.par[c] == g
      modifies `w, w.nodes`counts, b`info
      ensures Rep() && w == SignedOff(old(w), b)
    {
      At(b);
      At(c);
      assert FieldAt(b, FieldsIn(w));
      if b.info.present == Online || b.info.present == SigningOn { MoveOnline(c, g, false); }
      MoveCurrent(c, g, false);
      SetInfo(b, Info(Offline, 0, 0, b.info.timer));
    }

    method SignChat(x: Node, g: Node, on: bool)
      requires Rep() && WellFormed(w) && x in w.par && x.kind.Chat? && w.par[x] == g
      modifies `w, g`counts
      ensures Rep() && w == ChatPassed(old(w), x, on)
    {
      At(x);
      ghost var f := FieldsIn(w);
      assert FieldsOf(w.nodes - {g, g}, f) && FieldAt(g, f);
      var d := if on then 1 else -1;
      g.counts := g.counts.(currentsize := g.counts.currentsize + d, online := g.counts.online + d);
      ghost var v := ChatPassed(w, x, on);
      FieldsFollow(w.nodes, f, FieldsIn(v), g, g);
      Record(v);
    }

    /** The walk k, for an account that signs on or off, has dealt with the nodes of done. */
    ghost predicate Passes(k: Walk, done: set<Node>)
      reads `root, `w, `buddies, `connected,
        w.nodes`prev, w.nodes`next, w.nodes`parent, w.nodes`child,
        w.nodes`counts, w.nodes`groupName, w.nodes`priority, w.nodes`info
    {
      && Rep() && Passing(k.u, w, k.account, done, k.on, k.online)
      && WellFormed(k.u) && (k.account in k.u.connected) == k.on && (k.on && k.online ==> AllOffline(k.u, k.account))
    }

    /** The links of the walked list are those the walk began with. */
    lemma PassesSiblings(k: Walk, done: set<Node>, p: Node?)
      requires Passes(k, done) && p in k.u.kids
      ensures w.nodes == k.u.nodes && (p != null ==> p in w.nodes)
      ensures (if p == null then root else p.child) == if k.u.kids[p] == [] then null else k.u.kids[p][0]
      ensures forall i {:trigger k.u.kids[p][i].next} :: 0 <= i < |k.u.kids[p]| ==>
        k.u.kids[p][i].next == if i + 1 == |k.u.kids[p]| then null else k.u.kids[p][i + 1]
    {
      Siblings(p);
    }

    lemma SignReady(b: Node, k: Walk, done: set<Node>)
      requires Passes(k, done) && Pending(k.u, done, b) && (b.kind.Buddy? || b.kind.Chat?)
      ensures Rep() && Passing(k.u, w, k.account, done, k.on, k.online) && WellFormed(k.u) && WellFormed(w)
      ensures Pending(w, done, b)
      ensures w.par == k.u.par && b in w.nodes && (k.on && k.online ==> AllOffline(k.u, k.account))
      ensures (k.account in k.u.connected) == k.on
    {
      At(b);
    }

    lemma PassesBy(k: Walk, done: set<Node>)
      requires Rep() && Passing(k.u, w, k.account, done, k.on, k.online) && WellFormed(k.u)
      requires (k.account in k.u.connected) == k.on && (k.on && k.online ==> AllOffline(k.u, k.account))
      ensures Passes(k, done)
    {
    }

    method SignBuddy(b: Node, c: Node, g: Node, account: Account, on: bool, ghost k: Walk, ghost done: set<Node>)
      requires Passes(k, done) && k.account == account && k.on == on && Pending(k.u, done, b)
      requires b.kind.Buddy? && b.account == account && k.u.par[b] == c && k.u.par[c] == g
      modifies `w, w.nodes`counts, w.nodes`info
      ensures Passes(k, done + {b}) && w.prio == old(w).prio && w.nodes == old(w).nodes
    {
      SignReady(b, k, done);
      hide Passes, Passing, AllOffline, Pending, WellFormed, FieldsOf, LinksAre;
      if on {
        PassOn(k.u, w, account, done, k.online, b);
        SignOnBuddy(b, c, g);
      } else {
        PassOff(k.u, w, account, done, k.online, b);
        SignOffBuddy(b, c, g);
      }
      PassesBy(k, done + {b});
    }

    /** One buddy of a contact, of whatever account. */
    method SignMember(b: Node, c: Node, g: Node, account: Account, on: bool, ghost k: Walk, ghost done: set<Node>)
      requires Passes(k, done) && k.account == account && k.on == on && Pending(k.u, done, b)
      requires b.kind.Buddy? && k.u.par[b] == c && k.u.par[c] == g
      modifies `w, w.nodes`counts, w.nodes`info
      ensures Passes(k, done + {b}) && w.prio == old(w).prio && w.nodes == old(w).nodes
    {
      if b.account == account {
        SignBuddy(b, c, g, account, on, k, done);
      } else {
        OtherAccount(k.u, account, done, b);
        PassMark(k.u, w, account, done, done + {b}, on, k.online);
      }
    }

    /** The walk over the buddies of contact c has come to b, the i-th. */
    ghost predicate AtMember(k: Walk, done: set<Node>, c: Node, b: Node?, i: nat, recompute: bool, prio: map<Node,
          Node?>)
      requires c in k.u.kids
      reads `root, `w, `buddies, `connected,
        w.nodes`prev, w.nodes`next, w.nodes`parent, w.nodes`child,
        w.nodes`counts, w.nodes`groupName, w.nodes`priority, w.nodes`info
    {
      var s := k.u.kids[c];
      && i <= |s| && b == (if i == |s| then null else s[i])
      && Passes(k, done + Elems(s[..i])) && w.prio == prio && w.nodes == k.u.nodes
      && (!recompute ==> Unconcerned(s[..i], k.account))
    }

    lemma FirstMember(k: Walk, done: set<Node>, c: Node)
      requires Passes(k, done) && c in k.u.kids
      ensures AtMember(k, done, c, c.child, 0, false, w.prio)
    {
      PassesSiblings(k, done, c);
      assert done + Elems(k.u.kids[c][..0]) == done;
    }

    lemma LastMember(k: Walk, done: set<Node>, c: Node, i: nat, recompute: bool, prio: map<Node, Node?>)
      requires c in k.u.kids && AtMember(k, done, c, null, i, recompute, prio)
      ensures Passes(k, done + Elems(k.u.kids[c])) && w.prio == prio && w.nodes == k.u.nodes
      ensures !recompute ==> Unconcerned(k.u.kids[c], k.account)
    {
      assert k.u.kids[c][..i] == k.u.kids[c];
    }

    method NextMember(b: Node, c: Node, g: Node, account: Account, on: bool, recompute: bool, ghost k: Walk,
          ghost done: set<Node>, ghost i: nat)
      returns (next: Node?, again: bool)
      requires c in k.u.kids && AtMember(k, done, c, b, i, recompute, w.prio) && k.account == account && k.on == on
      requires c in k.u.par && c.kind.Contact? && k.u.par[c] == g && Clear(k.u.par, done, c)
      modifies `w, w.nodes`counts, w.nodes`info
      ensures i < |k.u.kids[c]| && AtMember(k, done, c, next, i + 1, again, old(w).prio)
      ensures w.prio == old(w).prio && w.nodes == old(w).nodes
    {
      ghost var s := k.u.kids[c];
      BuddyPending(k.u, done, c, i);
      ElemsSnoc(done, s, i);
      again := recompute || b.account == account;
      if !again { UnconcernedSnoc(s, i, account); }
      SignMember(b, c, g, account, on, k, done + Elems(s[..i]));
      PassesSiblings(k, done + Elems(s[..i]) + {b}, c);
      next := b.next;
    }

    /** The walk over the buddies of one contact; recompute: one of them was the account's. */
    method SignMembers(c: Node, g: Node, account: Account, on: bool, ghost k: Walk,
          ghost done: set<Node>) returns (recompute: bool)
      requires Passes(k, done) && k.account == account && k.on == on
      requires c in k.u.kids && c in k.u.par && c.kind.Contact? && k.u.par[c] == g && Clear(k.u.par, done, c)
      modifies `w, w.nodes`counts, w.nodes`info
      ensures Passes(k, done + Elems(k.u.kids[c])) && w.prio == old(w).prio && w.nodes == old(w).nodes
      ensures !recompute ==> Unconcerned(k.u.kids[c], account)
    {
      hide Passes, AtMember, Clear;
      recompute := false;
      var b := c.child;
      ghost var i := 0;
      FirstMember(k, done, c);
      while b != null
        invariant AtMember(k, done, c, b, i, recompute, old(w).prio) && w.prio == old(w).prio && w.nodes == old(w).nodes
        decreases |k.u.kids[c]| - i
      {
        b, recompute := NextMember(b, c, g, account, on, recompute, k, done, i);
        i := i + 1;
      }
      LastMember(k, done, c, i, recompute, old(w).prio);
    }

    lemma MarkContact(k: Walk, done: set<Node>, c: Node)
      requires c in k.u.kids && Passes(k, done + Elems(k.u.kids[c])) && c in k.u.par && c.kind.Contact?
      ensures var more := done + Elems(k.u.kids[c]) + {c}; Passes(k, more) && Within(k.u.par, done, more, c)
    {
      var more := done + Elems(k.u.kids[c]);
      ContactMarked(k.u, k.account, done, c);
      PassMark(k.u, w, k.account, more, more + {c}, k.on, k.online);
    }

    method Rechoose(c: Node, ghost k: Walk, ghost done: set<Node>)
      requires Passes(k, done) && c in k.u.kids
      modifies `w, w.nodes`priority
      ensures Passes(k, done) && w.prio == old(w).prio[c := c.priority] && w.nodes == old(w).nodes
      ensures IsPriority(k.u.kids[c], k.u.info, k.u.connected, c.priority)
    {
      Siblings(c);
      ghost var v := w;
      hide Passes, WellFormed, FieldsOf, LinksAre, AllOffline;
      ComputePriority(c);
      PassRechosen(k, v, w, done, c, c.priority);
      PassesBy(k, done);
    }

    /** One contact: its buddies, and its priority buddy if one of them was the account's. */
    method SignContact(c: Node, g: Node, account: Account, on: bool, ghost k: Walk,
          ghost done: set<Node>) returns (ghost more: set<Node>)
      requires Passes(k, done) && PrioritiesSoFar(k, w, done) && k.account == account && k.on == on && WellFormed(k.u)
      requires c in k.u.kids && c in k.u.par && c.kind.Contact? && k.u.par[c] == g && Clear(k.u.par, done, c)
      modifies `w, w.nodes`counts, w.nodes`info, w.nodes`priority
      ensures Passes(k, more) && PrioritiesSoFar(k, w, more) && Within(k.u.par, done, more, c) && c in more
      ensures w.nodes == old(w).nodes
    {
      hide Passes, Clear, Within, WellFormed;
      ghost var v := w;
      NotDone(k.u, done, c);
      var recompute := SignMembers(c, g, account, on, k, done);
      MarkContact(k, done, c);
      more := done + Elems(k.u.kids[c]) + {c};
      if recompute { Rechoose(c, k, more); }
      ContactPassed(k, v, w, done, more, c, w.prio[c]);
    }

    method SignOwnChat(x: Node, g: Node, account: Account, on: bool, ghost k: Walk, ghost done: set<Node>)
      requires Passes(k, done) && k.account == account && k.on == on && Pending(k.u, done, x)
      requires x.kind.Chat? && x.account == account && k.u.par[x] == g
      modifies `w, w.nodes`counts
      ensures Passes(k, done + {x}) && w.prio == old(w).prio && w.nodes == old(w).nodes
    {
      SignReady(x, k, done);
      At(x);
      hide Passes, Passing, AllOffline, Pending, WellFormed, FieldsOf, LinksAre;
      PassChat(k.u, w, account, done, on, k.online, x);
      SignChat(x, g, on);
      PassesBy(k, done + {x});
    }

    /** One chat, of whatever account. */
    method SignOneChat(x: Node, g: Node, account: Account, on: bool, ghost k: Walk, ghost done: set<Node>)
      requires Passes(k, done) && PrioritiesSoFar(k, w, done) && k.account == account && k.on == on
      requires Pending(k.u, done, x) && x.kind.Chat? && k.u.par[x] == g
      modifies `w, w.nodes`counts
      ensures Passes(k, done + {x}) && PrioritiesSoFar(k, w, done + {x}) && w.nodes == old(w).nodes
    {
      ghost var v := w;
      if x.account == account {
        SignOwnChat(x, g, account, on, k, done);
      } else {
        OtherAccount(k.u, account, done, x);
        PassMark(k.u, w, account, done, done + {x}, on, k.online);
      }
      ChatPassedBy(k, v, w, done, x);
    }

    /** The walk over the children of group g has come to x, the i-th. */
    ghost predicate AtChild(k: Walk, done: set<Node>, more: set<Node>, g: Node, x: Node?, i: nat)
      requires g in k.u.kids
      reads `root, `w, `buddies, `connected,
        w.nodes`prev, w.nodes`next, w.nodes`parent, w.nodes`child,
        w.nodes`counts, w.nodes`groupName, w.nodes`priority, w.nodes`info
    {
      var s := k.u.kids[g];
      && i <= |s| && x == (if i == |s| then null else s[i])
      && Passes(k, more) && PrioritiesSoFar(k, w, more) && GroupReached(k.u, done, more, g, i) && w.nodes == k.u.nodes
    }

    method SignChild(x: Node, g: Node, account: Account, on: bool, ghost k: Walk,
          ghost done: set<Node>) returns (ghost more: set<Node>)
      requires Passes(k, done) && PrioritiesSoFar(k, w, done) && k.account == account && k.on == on && WellFormed(k.u)
      requires x in k.u.par && k.u.par[x] == g && (x.kind.Contact? || x.kind.Chat?) && Clear(k.u.par, done, x)
      requires if x.kind.Chat? then Pending(k.u, done, x) else x in k.u.kids
      modifies `w, w.nodes`counts, w.nodes`info, w.nodes`priority
      ensures Passes(k, more) && PrioritiesSoFar(k, w, more) && Within(k.u.par, done, more, x) && x in more
      ensures w.nodes == old(w).nodes
    {
      hide Passes, PrioritiesSoFar, Clear, WellFormed;
      if x.kind.Contact? {
        more := SignContact(x, g, account, on, k, done);
      } else {
        SignOneChat(x, g, account, on, k, done);
        more := done + {x};
      }
    }

    method NextChild(x: Node, g: Node, account: Account, on: bool, ghost k: Walk, ghost done: set<Node>,
          ghost more: set<Node>, ghost i: nat)
      returns (next: Node?, ghost more': set<Node>)
      requires g in k.u.kids && AtChild(k, done, more, g, x, i) && k.account == account && k.on == on && WellFormed(k.u)
      requires g in k.u.par && g.kind.Group? && Clear(k.u.par, done, g)
      modifies `w, w.nodes`counts, w.nodes`info, w.nodes`priority
      ensures i < |k.u.kids[g]| && AtChild(k, done, more', g, next, i + 1) && w.nodes == old(w).nodes
    {
      hide Passes, PrioritiesSoFar, Clear, WellFormed, GroupReached, Within;
      ChildPending(k.u, done, more, g, i);
      more' := SignChild(x, g, account, on, k, more);
      ChildReached(k.u, done, more, more', g, i);
      PassesSiblings(k, more', g);
      next := x.next;
    }

    method SignGroup(g: Node, account: Account, on: bool, ghost k: Walk,
          ghost done: set<Node>) returns (ghost more: set<Node>)
      requires Passes(k, done) && PrioritiesSoFar(k, w, done) && k.account == account && k.on == on && WellFormed(k.u)
      requires g in k.u.kids && g in k.u.par && g.kind.Group? && Clear(k.u.par, done, g)
      modifies `w, w.nodes`counts, w.nodes`info, w.nodes`priority
      ensures Passes(k, more) && PrioritiesSoFar(k, w, more) && Within(k.u.par, done, more, g) && g in more
      ensures w.nodes == old(w).nodes
    {
      hide Passes, AtChild, Clear, PrioritiesSoFar, WellFormed, Within;
      more := done;
      var x := g.child;
      ghost var i := 0;
      FirstChild(k, done, g);
      while x != null
        invariant AtChild(k, done, more, g, x, i) && w.nodes == old(w).nodes
        decreases |k.u.kids[g]| - i
      {
        x, more := NextChild(x, g, account, on, k, done, more, i);
        i := i + 1;
      }
      LastOfGroup(k, done, more, g, i);
      more := more + {g};
    }

    lemma FirstChild(k: Walk, done: set<Node>, g: Node)
      requires Passes(k, done) && PrioritiesSoFar(k, w, done) && g in k.u.kids
      ensures AtChild(k, done, done, g, g.child, 0)
    {
      PassesSiblings(k, done, g);
    }

    lemma LastOfGroup(k: Walk, done: set<Node>, more: set<Node>, g: Node, i: nat)
      requires g in k.u.kids && AtChild(k, done, more, g, null, i) && g in k.u.par && g.kind.Group?
      ensures Passes(k, more + {g}) && PrioritiesSoFar(k, w, more + {g}) && Within(k.u.par, done, more + {g}, g)
    {
      GroupMarked(k.u, k.account, done, more, g);
      PassMark(k.u, w, k.account, more, more + {g}, k.on, k.online);
      GroupPassed(k, w, done, more, g);
    }

    /** The walk over the groups has come to g, the i-th. */
    ghost predicate AtGroup(k: Walk, more: set<Node>, g: Node?, i: nat)
      requires null in k.u.kids
      reads `root, `w, `buddies, `connected,
        w.nodes`prev, w.nodes`next, w.nodes`parent, w.nodes`child,
        w.nodes`counts, w.nodes`groupName, w.nodes`priority, w.nodes`info
    {
      var s := k.u.kids[null];
      && i <= |s| && g == (if i == |s| then null else s[i])
      && Passes(k, more) && PrioritiesSoFar(k, w, more) && ListReached(k.u, more, i) && w.nodes == k.u.nodes
    }

    method NextGroup(g: Node, account: Account, on: bool, ghost k: Walk, ghost more: set<Node>, ghost i: nat)
      returns (next: Node?, ghost more': set<Node>)
      requires null in k.u.kids && AtGroup(k, more, g, i) && k.account == account && k.on == on && WellFormed(k.u)
      modifies `w, w.nodes`counts, w.nodes`info, w.nodes`priority
      ensures i < |k.u.kids[null]| && AtGroup(k, more', next, i + 1) && w.nodes == old(w).nodes
    {
      hide Passes, PrioritiesSoFar, Clear, ListReached, Within;
      GroupPending(k.u, more, i);
      more' := SignGroup(g, account, on, k, more);
      GroupReachedNext(k.u, more, more', i);
      PassesSiblings(k, more', null);
      next := g.next;
    }

    lemma FirstGroup(k: Walk)
      requires Passes(k, {}) && PrioritiesSoFar(k, w, {}) && null in k.u.kids
      ensures AtGroup(k, {}, root, 0)
    {
      PassesSiblings(k, {}, null);
    }

    lemma LastGroup(k: Walk, more: set<Node>, i: nat)
      requires null in k.u.kids && AtGroup(k, more, null, i)
      ensures Passes(k, more) && WalkDone(k, w, more)
    {
      ListDone(k.u, k.account, more);
    }

    /** The loops of gaim_blist_add_account (on) and gaim_blist_remove_account (!on). */
    method SignAll(account: Account, on: bool, ghost k: Walk) returns (ghost more: set<Node>)
      requires Passes(k, {}) && PrioritiesSoFar(k, w, {}) && k.account == account && k.on == on && null in k.u.kids
      requires WellFormed(k.u)
      modifies `w, w.nodes`counts, w.nodes`info, w.nodes`priority
      ensures Passes(k, more) && WalkDone(k, w, more) && w.nodes == old(w).nodes
    {
      hide Passes, AtGroup, PrioritiesSoFar, WellFormed, WalkDone;
      more := {};
      var g := root;
      ghost var i := 0;
      FirstGroup(k);
      while g != null
        invariant AtGroup(k, more, g, i) && w.nodes == old(w).nodes
        decreases |k.u.kids[null]| - i
      {
        g, more := NextGroup(g, account, on, k, more, i);
        i := i + 1;
      }
      LastGroup(k, more, i);
    }

    /** The accounts change, and the walk of the list begins. */
    method BeginWalk(account: Account, on: bool) returns (ghost k: Walk)
      requires Valid() && (account in connected) == !on
      modifies `w, `connected
      ensures Passes(k, {}) && PrioritiesSoFar(k, w, {}) && WalkFrom(old(w), k) && k.account == account && k.on == on
      ensures w == k.u && null in k.u.kids && WellFormed(k.u)
    {
      connected := if on then connected + {account} else connected - {account};
      ghost var v := w.(connected := connected);
      k := Walk(v, account, on, OnlineOK(w));
      WalkBegins(w, k);
      Record(v);
    }

    method Sign(account: Account, on: bool) returns (ghost k: Walk, ghost done: set<Node>)
      requires Valid() && (account in connected) == !on
      modifies `w, `connected, w.nodes`counts, w.nodes`info, w.nodes`priority
      ensures Rep() && WalkFrom(old(w), k) && WalkDone(k, w, done) && k.account == account && k.on == on
    {
      k := BeginWalk(account, on);
      done := SignAll(account, on, k);
    }

    /** An account signs on, and gaim_blist_add_account is called. */
    method AddAccount(account: Account)
      requires Valid() && account !in connected
      modifies `w, `connected, w.nodes`counts, w.nodes`info, w.nodes`priority
      ensures Valid() && KeepsCaches()
      ensures Signed(old(w), w, account, true)
      ensures w.kids == old(w).kids && w.connected == old(w).connected + {account} && w.info == old(w).info
    {
      ghost var u := w;
      ghost var k, done := Sign(account, true);
      WalkSigned(u, k, w, done);
      WalkInv(u, k, w, done, norm);
      if PrioritiesOK(u) { WalkPriorities(u, k, w, done); }
      if OnlineOK(u) { WalkOnline(u, k, w, done); }
      if TimersOK(u) { SignedTimers(u, w, account, true); }
    }

    /** An account signs off, and gaim_blist_remove_account is called: the online counts stay right exactly
        if none of its buddies is signing off, and the timers exactly if none has a timer pending. */
    method RemoveAccount(account: Account)
      requires Valid() && account in connected
      modifies `w, `connected, w.nodes`counts, w.nodes`info, w.nodes`priority
      ensures Valid() && (old(PrioritiesOK(w)) ==> PrioritiesOK(w))
      ensures Signed(old(w), w, account, false)
      ensures w.kids == old(w).kids && w.connected == old(w).connected - {account}
      ensures forall b: Node {:trigger w.info[b]} :: b in old(w).info && b in old(w).par && b.kind.Buddy? ==>
        b in w.info &&
        w.info[b] == if b.account == account then Info(Offline, 0, 0, old(w).info[b].timer) else old(w).info[b]
      ensures old(OnlineOK(w)) ==> (OnlineOK(w) <==> !SomeSigningOff(old(w), account))
      ensures old(TimersOK(w)) ==> (TimersOK(w) <==> !SomeTimer(old(w), account))
    {
      ghost var u := w;
      ghost var k, done := Sign(account, false);
      WalkSigned(u, k, w, done);
      WalkInv(u, k, w, done, norm);
      if PrioritiesOK(u) { WalkPriorities(u, k, w, done); }
      if OnlineOK(u) { WalkOnline(u, k, w, done); }
      if TimersOK(u) { SignedTimers(u, w, account, false); }
    }

    // --------------------------------------------------------------------------- finders

    /** gaim_find_buddy_in_group, with the name given. */
    method FindBuddyInGroup(account: Account, name: string, group: Node) returns (b: Node?)
      requires Valid()
      ensures if b == null then NoMatch(w, norm, account, name, group) else Matches(w, norm, account, name, group, b)
    {
      LookupIs(w, norm, account, name, group);
      var k := Key(norm(name), account, group);
      b := if k in buddies then buddies[k] else null;
    }

    /** gaim_find_buddy: the buddy that a scan of the groups in their order would meet first. */
    method FindBuddy(account: Account, name: string) returns (b: Node?)
      requires Valid()
      ensures b == null ==> forall i :: 0 <= i < |w.kids[null]| ==> NoMatch(w, norm, account, name, w.kids[null][i])
      ensures b != null ==> exists i ::
          0 <= i < |w.kids[null]| && FirstMatch(w, norm, account, name, w.kids[null], i, b)
    {
      hide FieldsOf, SizesOK, NamesOK, Matches;
      ghost var s, i := w.kids[null], 0;
      Siblings(null);
      var g := root;
      while g != null
        invariant 0 <= i <= |s| && g == (if i == |s| then null else s[i])
        invariant forall j :: 0 <= j < i ==> NoMatch(w, norm, account, name, s[j])
        decreases |s| - i
      {
        LookupIs(w, norm, account, name, g);
        var k := Key(norm(name), account, g);
        if k in buddies {
          assert FirstMatch(w, norm, account, name, s, i, buddies[k]);
          return buddies[k];
        }
        i := i + 1;
        g := g.next;
      }
      b := null;
    }

    /** gaim_find_buddies: all the buddies that match, in the order of their groups. */
    method FindBuddies(account: Account, name: string) returns (r: seq<Node>)
      requires Valid()
      ensures r == Found(w.index, norm(name), account, w.kids[null])
      ensures forall b: Node {:trigger b in r} ::
        b in r <==> exists i :: 0 <= i < |w.kids[null]| && Matches(w, norm, account, name, w.kids[null][i], b)
      ensures forall i, j | 0 <= i < j < |r| :: Precedes(w.kids[null], GroupOf(w, r[i]), GroupOf(w, r[j]))
    {
      hide FieldsOf, SizesOK, NamesOK, IndexOK, Found;
      ghost var s, i := w.kids[null], 0;
      Siblings(null);
      FoundNone(buddies, norm(name), account);
      r := [];
      var g := root;
      while g != null
        invariant 0 <= i <= |s| && g == (if i == |s| then null else s[i])
        invariant r == Found(w.index, norm(name), account, s[..i])
        decreases |s| - i
      {
        FoundNext(buddies, norm(name), account, s, i);
        var k := Key(norm(name), account, g);
        if k in buddies { r := r + [buddies[k]]; }
        i := i + 1;
        g := g.next;
      }
      assert s[..i] == s;
      forall b: Node ensures b in r <==> exists i :: 0 <= i < |s| && Matches(w, norm, account, name, s[i], b) {
        FoundAt(w, norm, account, name, s, b);
      }
      forall i, j | 0 <= i < j < |r| ensures Precedes(s, GroupOf(w, r[i]), GroupOf(w, r[j])) {
        FoundInOrder(w, norm, account, name, s, i, j);
      }
    }
  }
}
