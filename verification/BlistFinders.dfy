/** Looking buddies up: the hash gives what a scan of the tree would. */
module BlistFinders {
  import opened BlistModel
  import opened BlistMoves

  /** b sits in group g and has this account and, normalised, this name. */
  ghost predicate Matches(w: World, norm: string -> string, account: Account, name: string, g: Node, b: Node) {
    && b in w.par && b.kind.Buddy? && w.par[b] != null && w.par[b] in w.par && w.par[w.par[b]] == g
    && norm(b.name) == norm(name) && b.account == account
  }

  ghost predicate NoMatch(w: World, norm: string -> string, account: Account, name: string, g: Node) {
    forall b: Node {:trigger b in w.par} :: b in w.par ==> !Matches(w, norm, account, name, g, b)
  }

  /** The i-th of the groups gs is the first that has a match, and b is it. */
  ghost predicate FirstMatch(w: World, norm: string -> string, account: Account, name: string, gs: seq<Node>, i: nat,
        b: Node)
    requires i < |gs|
  {
    Matches(w, norm, account, name, gs[i], b) && forall j :: 0 <= j < i ==> NoMatch(w, norm, account, name, gs[j])
  }

  lemma LookupIs(w: World, norm: string -> string, account: Account, name: string, g: Node)
    requires WellFormed(w) && IndexOK(w, norm, w.index)
    ensures var k := Key(norm(name), account, g);
      if k in w.index then Matches(w, norm, account, name, g, w.index[k]) && (forall b: Node {:trigger b in w.par} ::
          b in w.par && Matches(w, norm, account, name, g, b) ==> b == w.index[k])
      else NoMatch(w, norm, account, name, g)
  {
    var k, keys := Key(norm(name), account, g), Keys(w.par, norm);
    forall b: Node | b in w.par && Matches(w, norm, account, name, g, b) ensures k in w.index && w.index[k] == b {
      assert b in keys && keys[b] == k;
    }
    if k in w.index { assert w.index[k] in keys && keys[w.index[k]] == k; }
  }

  /** The buddies of these groups that match, group by group. */
  ghost function Found(index: map<Key, Node>, n: string, account: Account, gs: seq<Node>): seq<Node> {
    if gs == [] then []
    else
      var k := Key(n, account, gs[|gs| - 1]);
      Found(index, n, account, gs[..|gs| - 1]) + if k in index then [index[k]] else []
  }

  lemma FoundNone(index: map<Key, Node>, n: string, account: Account)
    ensures Found(index, n, account, []) == []
  {
  }

  lemma FoundNext(index: map<Key, Node>, n: string, account: Account, gs: seq<Node>, i: nat)
    requires i < |gs|
    ensures var k := Key(n, account, gs[i]);
      Found(index, n, account, gs[..i + 1]) == Found(index, n, account, gs[..i]) + if k in index then [index[k]] else []
  {
    assert gs[..i + 1][..i] == gs[..i];
  }

  /** r[i] is of a later group of gs than r[j] for j < i, and every member of r matches in its group. */
  lemma {:induction false} FoundAt(w: World, norm: string -> string, account: Account, name: string, gs: seq<Node>,
        x: Node)
    requires WellFormed(w) && IndexOK(w, norm, w.index)
    ensures x in Found(w.index, norm(name), account, gs) <==> exists i ::
        0 <= i < |gs| && Matches(w, norm, account, name, gs[i], x)
  {
    if gs != [] {
      var n := |gs| - 1;
      FoundAt(w, norm, account, name, gs[..n], x);
      LookupIs(w, norm, account, name, gs[n]);
      var r, k := Found(w.index, norm(name), account, gs[..n]), Key(norm(name), account, gs[n]);
      assert x in Found(w.index, norm(name), account, gs) <==> x in r || (k in w.index && w.index[k] == x);
      assert Matches(w, norm, account, name, gs[n], x) <==> k in w.index && w.index[k] == x;
      if exists i :: 0 <= i < |gs| && Matches(w, norm, account, name, gs[i], x) {
        var i :| 0 <= i < |gs| && Matches(w, norm, account, name, gs[i], x);
        assert i < n ==> gs[..n][i] == gs[i];
      }
      if x in r {
        var i :| 0 <= i < n && Matches(w, norm, account, name, gs[..n][i], x);
        assert gs[i] == gs[..n][i];
      }
    }
  }

  ghost predicate Precedes(gs: seq<Node>, g: Node?, h: Node?) {
    exists i, j :: 0 <= i < j < |gs| && gs[i] == g && gs[j] == h
  }

  ghost function GroupOf(w: World, b: Node): Node? {
    if b in w.par && w.par[b] != null && w.par[b] in w.par then w.par[w.par[b]] else null
  }

  /** The matches come in the order of their groups, one for a group. */
  lemma {:induction false} FoundInOrder(w: World, norm: string -> string, account: Account, name: string,
        gs: seq<Node>, a: nat, b: nat)
    requires WellFormed(w) && IndexOK(w, norm, w.index)
    requires var r := Found(w.index, norm(name), account, gs); a < b < |r|
    ensures var r := Found(w.index, norm(name), account, gs); Precedes(gs, GroupOf(w, r[a]), GroupOf(w, r[b]))
  {
    var n := |gs| - 1;
    var r, t := Found(w.index, norm(name), account, gs), Found(w.index, norm(name), account, gs[..n]);
    if b < |t| {
      FoundInOrder(w, norm, account, name, gs[..n], a, b);
      var i, j :| 0 <= i < j < n && gs[..n][i] == GroupOf(w, t[a]) && gs[..n][j] == GroupOf(w, t[b]);
      assert gs[i] == GroupOf(w, r[a]) && gs[j] == GroupOf(w, r[b]);
    } else {
      assert r[a] == t[a] && t[a] in t;
      FoundAt(w, norm, account, name, gs[..n], t[a]);
      LookupIs(w, norm, account, name, gs[n]);
      var i :| 0 <= i < n && Matches(w, norm, account, name, gs[..n][i], t[a]);
      assert gs[i] == GroupOf(w, r[a]) && gs[n] == GroupOf(w, r[b]);
    }
  }
}
