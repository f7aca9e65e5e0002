/** An account signs on or off as one step: every counter and priority buddy is brought up to date,
    node by node. */
module BlistAccounts {
  import opened BlistModel
  import opened BlistTally
  import opened BlistMoves
  import opened BlistPresence

  /** n, a buddy or chat, has been dealt with. */
  ghost predicate Done(par: map<Node, Node?>, done: set<Node>, n: Node) {
    n in done || (n in par && par[n] != null && (par[n] in done || (par[n] in par && par[par[n]] in done)))
  }

  /** What is counted as connected while account, alone not in base, signs on (on) or off (!on). */
  ghost function CountedF(par: map<Node, Node?>, base: set<Account>, account: Account, done: set<Node>,
        on: bool): Node -> bool {
    (n: Node) => n.account in base || (n.account == account && Done(par, done, n) == on)
  }

  /** What is counted as online; leaked are the buddies that were signing off when their account did. */
  ghost function OnlineCountedF(par: map<Node, Node?>, info: map<Node, Info>, base: set<Account>, account: Account,
    done: set<Node>, on: bool, leaked: set<Node>): Node -> bool
  {
    (n: Node) => if n.kind.Chat? then n.account in base || (n.account == account && Done(par, done, n) == on)
      else n in leaked || (n in info && info[n].present != Offline)
  }

  ghost predicate Counted(w: World, account: Account, done: set<Node>, on: bool) {
    Consistent(w.kids, CountedF(w.par, w.connected - {account}, account, done, on), w.current)
  }

  ghost predicate OnlineCounted(w: World, account: Account, done: set<Node>, on: bool, leaked: set<Node>) {
    Consistent(w.kids, OnlineCountedF(w.par, w.info, w.connected - {account}, account, done, on, leaked), w.online)
  }

  /** The buddies that have been dealt with and were signing off. */
  ghost function Leaked(par: map<Node, Node?>, info: map<Node, Info>, account: Account, done: set<Node>): set<Node> {
    set n | n in par && n.kind.Buddy? && n.account == account && Done(par, done, n) && n in info
        && info[n].present == SigningOff
  }

  // ----------------------------------------------------------------------- single steps

  ghost predicate Pending(w: World, done: set<Node>, n: Node) {
    WellFormed(w) && n in w.par && Leaf(n) && !Done(w.par, done, n)
  }

  lemma DoneMore(w: World, done: set<Node>, b: Node, n: Node)
    requires WellFormed(w) && b in w.par && Leaf(b) && n in w.par && n != b
    ensures Done(w.par, done + {b}, n) == Done(w.par, done, n)
  {
  }

  lemma BuddyCounted(w: World, account: Account, done: set<Node>, on: bool, b: Node)
    requires Pending(w, done, b) && b.kind.Buddy? && b.account == account && Counted(w, account, done, on)
    ensures Counted(w.(current := CountMoved(w.current, w.par[b], w.par[w.par[b]], on)), account, done + {b}, on)
  {
    var f := CountedF(w.par, w.connected - {account}, account, done, on);
    var g := CountedF(w.par, w.connected - {account}, account, done + {b}, on);
    forall n: Node | n in w.par && n != b ensures f(n) == g(n) { DoneMore(w, done, b, n); }
    FlippedConsistent(w, f, g, w.current, b);
  }

  lemma ChatCounted(w: World, f: Node -> bool, g: Node -> bool, m: map<Node, int>, x: Node, on: bool)
    requires WellFormed(w) && x in w.par && x.kind.Chat? && AgreeBut(w, f, g, x) && Consistent(w.kids, f, m)
    requires f(x) == !on && g(x) == on
    ensures Consistent(w.kids, g, m[w.par[x] := m[w.par[x]] + if on then 1 else -1])
  {
    ChatFlipped(w, f, g, x);
  }

  /** A chat of the account enters (on) or leaves both counts of its group. */
  ghost function ChatPassed(w: World, x: Node, on: bool): World
    requires x in w.par && w.par[x] != null && HasCounts(w, w.par[x])
  {
    var g, d := w.par[x], if on then 1 else -1;
    w.(current := w.current[g := w.current[g] + d], online := w.online[g := w.online[g] + d])
  }

  lemma ChatStep(w: World, account: Account, done: set<Node>, on: bool, x: Node)
    requires Pending(w, done, x) && x.kind.Chat? && x.account == account && Counted(w, account, done, on)
    ensures Counted(ChatPassed(w, x, on), account, done + {x}, on)
  {
    var base := w.connected - {account};
    var f, g := CountedF(w.par, base, account, done, on), CountedF(w.par, base, account, done + {x}, on);
    forall n: Node | n in w.par && n != x ensures f(n) == g(n) { DoneMore(w, done, x, n); }
    ChatCounted(w, f, g, w.current, x, on);
  }

  lemma ChatStepOnline(w: World, account: Account, done: set<Node>, on: bool, leaked: set<Node>, x: Node)
    requires Pending(w, done, x) && x.kind.Chat? && x.account == account && account !in w.connected - {account}
    requires OnlineCounted(w, account, done, on, leaked)
    ensures OnlineCounted(ChatPassed(w, x, on), account, done + {x}, on, leaked)
  {
    var base := w.connected - {account};
    var f := OnlineCountedF(w.par, w.info, base, account, done, on, leaked);
    var g := OnlineCountedF(w.par, w.info, base, account, done + {x}, on, leaked);
    forall n: Node | n in w.par && n != x ensures f(n) == g(n) { DoneMore(w, done, x, n); }
    ChatCounted(w, f, g, w.online, x, on);
  }

  /** Marking nodes that leave nothing new dealt with changes no count. */
  lemma SameDone(w: World, account: Account, done: set<Node>, more: set<Node>, on: bool, leaked: set<Node>)
    requires WellFormed(w) && Counted(w, account, done, on)
    requires forall n: Node {:trigger n in w.par} :: n in w.par && Leaf(n) && n.account == account ==>
      Done(w.par, more, n) == Done(w.par, done, n)
    ensures Counted(w, account, more, on)
    ensures OnlineCounted(w, account, done, on, leaked) ==> OnlineCounted(w, account, more, on, leaked)
  {
    var base := w.connected - {account};
    ConsistentAgree(w, CountedF(w.par, base, account, done, on), CountedF(w.par, base, account, more, on), w.current);
    if OnlineCounted(w, account, done, on, leaked) {
      ConsistentAgree(w, OnlineCountedF(w.par, w.info, base, account, done, on, leaked),
        OnlineCountedF(w.par, w.info, base, account, more, on, leaked), w.online);
    }
  }

  // ------------------------------------------------------------------- buddies, signing on

  /** A buddy of an account that signs on. */
  ghost function SignedOn(w: World, b: Node): World
    requires WellFormed(w) && b in w.par && b.kind.Buddy?
  {
    var c := w.par[b];
    var g := w.par[c];
    w.(current := CountMoved(w.current, c, g, true),
       online := if IsOnline(w, b) then CountMoved(w.online, c, g, true) else w.online)
  }

  lemma SignedOnStep(w: World, account: Account, done: set<Node>, b: Node)
    requires Pending(w, done, b) && b.kind.Buddy? && b.account == account && Counted(w, account, done, true)
    ensures Counted(SignedOn(w, b), account, done + {b}, true)
  {
    BuddyCounted(w, account, done, true, b);
  }

  /** An Offline buddy is nothing to the online counts. */
  lemma SignedOnOnline(w: World, account: Account, done: set<Node>, b: Node)
    requires Pending(w, done, b) && b.kind.Buddy? && b.account == account && w.info[b].present == Offline
    requires OnlineCounted(w, account, done, true, {})
    ensures OnlineCounted(SignedOn(w, b), account, done + {b}, true, {})
  {
    var base := w.connected - {account};
    SignedOnAgree(w, base, account, done, b);
    ConsistentAgree(w, OnlineCountedF(w.par, w.info, base, account, done, true, {}),
      OnlineCountedF(w.par, w.info, base, account, done + {b}, true, {}), w.online);
  }

  lemma SignedOnAgree(w: World, base: set<Account>, account: Account, done: set<Node>, b: Node)
    requires Pending(w, done, b) && b.kind.Buddy?
    ensures forall n: Node {:trigger n in w.par} :: n in w.par && Leaf(n) ==>
      OnlineCountedF(w.par, w.info, base, account, done, true, {})(n) ==
      OnlineCountedF(w.par, w.info, base, account, done + {b}, true, {})(n)
  {
    forall n: Node | n in w.par && n != b
      ensures Done(w.par, done + {b}, n) == Done(w.par, done, n)
    {
      DoneMore(w, done, b, n);
    }
  }

  // ------------------------------------------------------------------ buddies, signing off

  function AfterSignOff(i: Info): Info {
    Info(Offline, 0, 0, i.timer)
  }

  /** A buddy of an account that signs off. */
  ghost function SignedOff(w: World, b: Node): World
    requires WellFormed(w) && b in w.par && b.kind.Buddy?
  {
    var c := w.par[b];
    var g := w.par[c];
    w.(current := CountMoved(w.current, c, g, false),
       online := if Present(w.info[b]) then CountMoved(w.online, c, g, false) else w.online,
       info := w.info[b := AfterSignOff(w.info[b])])
  }

  lemma SignedOffStep(w: World, account: Account, done: set<Node>, b: Node)
    requires Pending(w, done, b) && b.kind.Buddy? && b.account == account && Counted(w, account, done, false)
    ensures Counted(SignedOff(w, b), account, done + {b}, false)
  {
    BuddyCounted(w, account, done, false, b);
  }

  lemma SignedOffOnline(w: World, account: Account, done: set<Node>, leaked: set<Node>, b: Node)
    requires Pending(w, done, b) && b.kind.Buddy? && b.account == account && b !in leaked
    requires OnlineCounted(w, account, done, false, leaked)
    ensures OnlineCounted(SignedOff(w, b), account, done + {b}, false,
        if w.info[b].present == SigningOff then leaked + {b} else leaked)
  {
    SignedOffAgree(w, account, done, leaked, b);
    var i := w.info[b];
    var l := if i.present == SigningOff then leaked + {b} else leaked;
    UncountedBy(w, OnlineCountedF(w.par, w.info, w.connected - {account}, account, done, false, leaked),
      OnlineCountedF(w.par, w.info[b := AfterSignOff(i)], w.connected - {account}, account, done + {b}, false, l),
      w.online, b, i.present == Offline, Present(i));
  }

  lemma SignedOffAgree(w: World, account: Account, done: set<Node>, leaked: set<Node>, b: Node)
    requires Pending(w, done, b) && b.kind.Buddy? && b.account == account && b !in leaked
    ensures var i, base := w.info[b], w.connected - {account};
      var l := if i.present == SigningOff then leaked + {b} else leaked;
      var f := OnlineCountedF(w.par, w.info, base, account, done, false, leaked);
      var g := OnlineCountedF(w.par, w.info[b := AfterSignOff(i)], base, account, done + {b}, false, l);
      AgreeBut(w, f, g, b) && f(b) == (i.present != Offline) && g(b) == (i.present == SigningOff)
  {
    forall n: Node | n in w.par && n != b
      ensures Done(w.par, done + {b}, n) == Done(w.par, done, n)
    {
      DoneMore(w, done, b, n);
    }
  }

  lemma UncountedBy(w: World, f: Node -> bool, g: Node -> bool, m: map<Node, int>, b: Node, off: bool, down: bool)
    requires WellFormed(w) && b in w.par && b.kind.Buddy? && Consistent(w.kids, f, m) && AgreeBut(w, f, g, b)
    requires f(b) == !off && g(b) == (!off && !down) && !(off && down)
    ensures Consistent(w.kids, g, if down then CountMoved(m, w.par[b], w.par[w.par[b]], false) else m)
  {
    FlippedConsistent(w, f, g, m, b);
  }

  // ------------------------------------------------------------------- start and end

  /** Nothing has been dealt with yet. */
  lemma Start(w: World, v: World, account: Account, on: bool)
    requires WellFormed(w) && SizesOK(w) && (account in w.connected) == !on
    requires v == w.(connected := if on then w.connected + {account} else w.connected - {account})
    ensures WellFormed(v) && Counted(v, account, {}, on)
    ensures OnlineOK(w) ==> OnlineCounted(v, account, {}, on, {})
  {
    var base := v.connected - {account};
    ConsistentAgree(w, ConnectedF(w.connected), CountedF(v.par, base, account, {}, on), w.current);
    if OnlineOK(w) {
      ConsistentAgree(w, OnlineF(w.info, w.connected), OnlineCountedF(v.par, v.info, base, account, {}, on, {}),
          w.online);
    }
  }

  ghost predicate AllDone(w: World, account: Account, done: set<Node>) {
    forall n: Node {:trigger n in w.par} :: n in w.par && Leaf(n) && n.account == account ==> Done(w.par, done, n)
  }

  lemma Finish(w: World, account: Account, done: set<Node>, on: bool)
    requires WellFormed(w) && AllDone(w, account, done) && Counted(w, account, done, on)
    requires (account in w.connected) == on
    ensures Consistent(w.kids, ConnectedF(w.connected), w.current)
  {
    ConsistentAgree(w, CountedF(w.par, w.connected - {account}, account, done, on), ConnectedF(w.connected), w.current);
  }

  lemma FinishOnline(w: World, account: Account, done: set<Node>, on: bool, leaked: set<Node>)
    requires WellFormed(w) && AllDone(w, account, done) && OnlineCounted(w, account, done, on, leaked)
    requires (account in w.connected) == on
    requires forall b: Node ::
        b in leaked ==> b in w.par && b.kind.Buddy? && b in w.info && w.info[b].present == Offline
    ensures Consistent(w.kids, OnlineF(w.info, w.connected), w.online) <==> leaked == {}
  {
    var f := OnlineCountedF(w.par, w.info, w.connected - {account}, account, done, on, leaked);
    var g := OnlineF(w.info, w.connected);
    if leaked == {} {
      ConsistentAgree(w, f, g, w.online);
    } else {
      var b :| b in leaked;
      var c: Node := w.par[b];
      var s := w.kids[c];
      var i :| 0 <= i < |s| && s[i] == b;
      forall j | 0 <= j < |s| ensures g(s[j]) ==> f(s[j]) { assert s[j] in s; }
      CountMore(s, f, g, i);
      assert w.online[c] != Tally(w.kids, g, c);
    }
  }

  lemma {:induction false} CountMore(s: seq<Node>, f: Node -> bool, g: Node -> bool, i: nat)
    requires i < |s| && f(s[i]) && !g(s[i])
    requires forall j :: 0 <= j < |s| ==> (g(s[j]) ==> f(s[j]))
    ensures Count(s, f) > Count(s, g)
  {
    CountAtLeast(s[1..], f, g);
    if i > 0 { CountMore(s[1..], f, g, i - 1); }
  }

  lemma {:induction false} CountAtLeast(s: seq<Node>, f: Node -> bool, g: Node -> bool)
    requires forall j :: 0 <= j < |s| ==> (g(s[j]) ==> f(s[j]))
    ensures Count(s, f) >= Count(s, g)
  {
    if s != [] { CountAtLeast(s[1..], f, g); }
  }

  // ----------------------------------------------------------------- the walk as a whole

  /** A buddy of the account that has signed off. */
  ghost predicate Touched(w: World, account: Account, done: set<Node>, on: bool, n: Node) {
    !on && n in w.par && n.kind.Buddy? && n.account == account && Done(w.par, done, n)
  }

  ghost function Lost(u: World, account: Account, done: set<Node>, on: bool): set<Node> {
    if on then {} else Leaked(u.par, u.info, account, done)
  }

  /** Only counters, priorities and, signing off, the state of the account's buddies change. */
  ghost predicate Walked(u: World, w: World, account: Account, done: set<Node>, on: bool) {
    && WellFormed(w) && w == u.(current := w.current, online := w.online, prio := w.prio, info := w.info)
    && w.info.Keys == u.info.Keys
    && forall n: Node {:trigger w.info[n]} :: n in u.info ==>
        w.info[n] == if Touched(u, account, done, on, n) then AfterSignOff(u.info[n]) else u.info[n]
  }

  /** w is u, in which the account has just signed on or off, with the nodes of done dealt with. */
  ghost predicate Passing(u: World, w: World, account: Account, done: set<Node>, on: bool, online: bool) {
    && Walked(u, w, account, done, on)
    && Counted(w, account, done, on)
    && (online ==> OnlineCounted(w, account, done, on, Lost(u, account, done, on)))
  }

  /** u: the world in which account has just signed on or off; online: the online counts were right before. */
  datatype Walk = Walk(u: World, account: Account, on: bool, online: bool)

  /** The buddies of an account that signs on are Offline. */
  ghost predicate AllOffline(u: World, account: Account) {
    forall b: Node {:trigger b in u.par} ::
        b in u.par && b.kind.Buddy? && b.account == account ==> b in u.info && u.info[b].present == Offline
  }

  lemma PassOn(u: World, w: World, account: Account, done: set<Node>, online: bool, b: Node)
    requires Passing(u, w, account, done, true, online) && Pending(w, done, b) && b.kind.Buddy? && b.account == account
    requires online ==> AllOffline(u, account)
    ensures Passing(u, SignedOn(w, b), account, done + {b}, true, online)
  {
    hide Counted, OnlineCounted;
    SignedOnStep(w, account, done, b);
    if online { SignedOnOnline(w, account, done, b); }
  }

  lemma LostMore(u: World, account: Account, done: set<Node>, b: Node)
    requires Pending(u, done, b) && b.kind.Buddy? && b.account == account
    ensures var l := Leaked(u.par, u.info, account, done);
      b !in l && Leaked(u.par, u.info, account, done + {b}) == if u.info[b].present == SigningOff then l + {b} else l
  {
    forall n: Node | n in u.par && n != b
      ensures Done(u.par, done + {b}, n) == Done(u.par, done, n)
    {
      DoneMore(u, done, b, n);
    }
  }

  lemma WalkOff(u: World, w: World, account: Account, done: set<Node>, b: Node)
    requires Walked(u, w, account, done, false) && WellFormed(u) && Pending(w, done, b) && b.kind.Buddy?
    requires b.account == account
    ensures Walked(u, SignedOff(w, b), account, done + {b}, false) && w.info[b] == u.info[b]
  {
    assert w.info[b] == u.info[b];
    forall n: Node | n in u.par && n != b
      ensures Done(u.par, done + {b}, n) == Done(u.par, done, n)
    {
      DoneMore(u, done, b, n);
    }
  }

  lemma PassOff(u: World, w: World, account: Account, done: set<Node>, online: bool, b: Node)
    requires Passing(u, w, account, done, false, online) && WellFormed(u) && Pending(w, done, b) && b.kind.Buddy?
    requires b.account == account
    ensures Passing(u, SignedOff(w, b), account, done + {b}, false, online)
  {
    WalkOff(u, w, account, done, b);
    SignedOffStep(w, account, done, b);
    if online {
      LostMore(u, account, done, b);
      SignedOffOnline(w, account, done, Leaked(u.par, u.info, account, done), b);
    }
  }

  /** Marking nodes that leave no buddy or chat of the account newly dealt with. */
  ghost predicate NothingNew(w: World, account: Account, done: set<Node>, more: set<Node>) {
    forall n: Node {:trigger n in w.par} ::
        n in w.par && Leaf(n) && n.account == account ==> Done(w.par, more, n) == Done(w.par, done, n)
  }

  lemma PassMark(u: World, w: World, account: Account, done: set<Node>, more: set<Node>, on: bool, online: bool)
    requires Passing(u, w, account, done, on, online) && WellFormed(u) && NothingNew(u, account, done, more)
    ensures Passing(u, w, account, more, on, online)
  {
    SameDone(w, account, done, more, on, Lost(u, account, done, on));
    assert Lost(u, account, done, on) == Lost(u, account, more, on);
  }

  lemma PassChat(u: World, w: World, account: Account, done: set<Node>, on: bool, online: bool, x: Node)
    requires Passing(u, w, account, done, on, online) && WellFormed(u) && Pending(w, done, x) && x.kind.Chat?
    requires x.account == account
    ensures Passing(u, ChatPassed(w, x, on), account, done + {x}, on, online)
  {
    ChatStep(w, account, done, on, x);
    ChatNotLost(u, account, done, on, x);
    if online { ChatStepOnline(w, account, done, on, Lost(u, account, done, on), x); }
  }

  lemma ChatNotLost(u: World, account: Account, done: set<Node>, on: bool, x: Node)
    requires Pending(u, done, x) && x.kind.Chat?
    ensures Lost(u, account, done + {x}, on) == Lost(u, account, done, on)
    ensures forall n: Node {:trigger n in u.par} ::
        n in u.par && n.kind.Buddy? ==> Done(u.par, done + {x}, n) == Done(u.par, done, n)
  {
    forall n: Node | n in u.par && n.kind.Buddy?
      ensures Done(u.par, done + {x}, n) == Done(u.par, done, n)
    {
      DoneMore(u, done, x, n);
    }
  }

  // ------------------------------------------------------------------- priority buddies

  /** No buddy in s belongs to account. */
  ghost predicate Unconcerned(s: seq<Node>, account: Account) {
    forall i {:trigger s[i]} :: 0 <= i < |s| ==> s[i].account != account
  }

  lemma UnconcernedSnoc(s: seq<Node>, i: nat, account: Account)
    requires i < |s| && Unconcerned(s[..i], account) && s[i].account != account
    ensures Unconcerned(s[..i + 1], account)
  {
    var t := s[..i + 1];
    forall k | 0 <= k < |t| ensures t[k].account != account { assert k < i ==> s[..i][k] == t[k]; }
  }

  /** c has the priority buddy it should have, or the one it had and no buddy of c is concerned. */
  ghost predicate PriorityPassed(u: World, w: World, account: Account, c: Node)
    requires c in u.kids
  {
    c in w.prio && (IsPriority(u.kids[c], u.info, u.connected, w.prio[c])
      || (c in u.prio && w.prio[c] == u.prio[c] && Unconcerned(u.kids[c], account)))
  }

  /** Only the state of connected buddies matters to a priority buddy. */
  lemma PriorityByConnected(s: seq<Node>, info: map<Node, Info>, info': map<Node, Info>, connected: set<Account>,
        connected': set<Account>, r: Node?)
    requires forall i {:trigger s[i]} :: 0 <= i < |s| ==>
      (s[i].account in connected <==> s[i].account in connected')
      && (s[i].account in connected ==>
          (s[i] in info <==> s[i] in info') && (s[i] in info ==> info[s[i]] == info'[s[i]]))
    ensures IsPriority(s, info, connected, r) ==> IsPriority(s, info', connected', r)
  {
    if IsPriority(s, info, connected, r) && r != null {
      var k :| 0 <= k < |s| && s[k] == r && IsFirstBest(s, info, connected, k);
      assert IsFirstBest(s, info', connected', k);
    }
  }

  lemma PriorityChosen(u: World, w: World, account: Account, done: set<Node>, on: bool, c: Node)
    requires Walked(u, w, account, done, on) && c in u.kids && (account in u.connected) == on
    ensures c in w.prio ==> (PriorityAt(w, c) <==> IsPriority(u.kids[c], u.info, u.connected, w.prio[c]))
  {
    if c in w.prio {
      forall i | 0 <= i < |u.kids[c]| && u.kids[c][i].account in u.connected && u.kids[c][i] in u.info
        ensures w.info[u.kids[c][i]] == u.info[u.kids[c][i]]
      {
      }
      PriorityByConnected(u.kids[c], u.info, w.info, u.connected, w.connected, w.prio[c]);
      PriorityByConnected(u.kids[c], w.info, u.info, w.connected, u.connected, w.prio[c]);
    }
  }

  lemma PassRechosen(k: Walk, w: World, v: World, done: set<Node>, c: Node, r: Node?)
    requires Passing(k.u, w, k.account, done, k.on, k.online) && v == w.(prio := w.prio[c := r]) && c in k.u.kids
    requires PriorityAt(v, c) && (k.account in k.u.connected) == k.on
    ensures Passing(k.u, v, k.account, done, k.on, k.online) && IsPriority(k.u.kids[c], k.u.info, k.u.connected, r)
  {
    PriorityChosen(k.u, v, k.account, done, k.on, c);
  }

  /** Every contact dealt with, every priority buddy is right if it was. */
  lemma PrioritiesPassed(w0: World, u: World, w: World, account: Account, done: set<Node>, on: bool)
    requires PrioritiesOK(w0) && u == w0.(connected := u.connected)
    requires u.connected - {account} == w0.connected - {account}
    requires Walked(u, w, account, done, on) && (account in u.connected) == on
    requires forall c: Node {:trigger c in u.kids} ::
        c in u.kids && c.kind.Contact? ==> PriorityPassed(u, w, account, c)
    ensures PrioritiesOK(w)
  {
    forall c: Node | c in w.kids && c.kind.Contact? ensures PriorityAt(w, c) {
      assert PriorityPassed(u, w, account, c);
      if Unconcerned(u.kids[c], account) && w.prio[c] == u.prio[c] {
        assert PriorityAt(w0, c);
        UnconcernedPriority(u.kids[c], u.info, w0.connected, u.connected, account, w.prio[c]);
      }
      PriorityChosen(u, w, account, done, on, c);
    }
  }

  lemma UnconcernedPriority(s: seq<Node>, info: map<Node, Info>, connected: set<Account>, connected': set<Account>,
        account: Account, r: Node?)
    requires Unconcerned(s, account) && connected - {account} == connected' - {account}
    requires IsPriority(s, info, connected, r)
    ensures IsPriority(s, info, connected', r)
  {
    forall i | 0 <= i < |s| ensures s[i].account in connected <==> s[i].account in connected' {
      assert s[i].account in connected - {account} <==> s[i].account in connected' - {account};
    }
    PriorityByConnected(s, info, info, connected, connected', r);
  }

  // ------------------------------------------------------------- the order of the walk

  ghost predicate Beneath(par: map<Node, Node?>, n: Node, p: Node) {
    n == p || (n in par && (par[n] == p || (par[n] != null && par[n] in par && par[par[n]] == p)))
  }

  /** p, what is above it and what is beneath it have not been dealt with. */
  ghost predicate Clear(par: map<Node, Node?>, done: set<Node>, p: Node) {
    (forall n: Node {:trigger n in done} ::
        n in done ==> !Beneath(par, n, p)) && (p in par && par[p] != null ==> par[p] !in done)
  }

  /** Nothing outside p has been added to done. */
  ghost predicate Within(par: map<Node, Node?>, done: set<Node>, more: set<Node>, p: Node) {
    done <= more && forall n: Node {:trigger n in more} :: n in more ==> n in done || Beneath(par, n, p)
  }

  ghost function Elems(s: seq<Node>): set<Node> {
    set n | n in s
  }

  lemma ElemsSnoc(done: set<Node>, s: seq<Node>, i: nat)
    requires i < |s|
    ensures done + Elems(s[..i + 1]) == done + Elems(s[..i]) + {s[i]}
  {
    assert s[..i + 1] == s[..i] + [s[i]];
  }

  lemma InPrefix(s: seq<Node>, i: nat)
    requires i < |s| && Distinct(s)
    ensures s[i] !in Elems(s[..i])
  {
  }

  /** The next buddy of contact c is still to be dealt with. */
  lemma BuddyPending(w: World, done: set<Node>, c: Node, i: nat)
    requires WellFormed(w) && c in w.par && c.kind.Contact? && Clear(w.par, done, c) && i < |w.kids[c]|
    ensures Pending(w, done + Elems(w.kids[c][..i]), w.kids[c][i])
    ensures w.kids[c][i].kind.Buddy? && w.par[w.kids[c][i]] == c
  {
    var b := w.kids[c][i];
    assert b in w.kids[c];
    InPrefix(w.kids[c], i);
    forall n: Node | n in Elems(w.kids[c][..i]) ensures n in w.par && n.kind.Buddy? { assert n in w.kids[c]; }
    assert Beneath(w.par, b, c);
  }

  lemma NotDone(w: World, done: set<Node>, c: Node)
    requires WellFormed(w) && c in w.par && c.kind.Contact? && Clear(w.par, done, c)
    ensures !Done(w.par, done, c)
  {
    assert Beneath(w.par, c, c);
  }

  lemma ContactMarked(w: World, account: Account, done: set<Node>, c: Node)
    requires WellFormed(w) && c in w.par && c.kind.Contact?
    ensures NothingNew(w, account, done + Elems(w.kids[c]), done + Elems(w.kids[c]) + {c})
    ensures Within(w.par, done, done + Elems(w.kids[c]) + {c}, c)
  {
    forall n: Node | n in Elems(w.kids[c]) ensures Beneath(w.par, n, c) {
    }
  }

  /** A leaf of another account is nothing new. */
  lemma OtherAccount(w: World, account: Account, done: set<Node>, b: Node)
    requires WellFormed(w) && b in w.par && Leaf(b) && b.account != account
    ensures NothingNew(w, account, done, done + {b})
  {
    forall n: Node | n in w.par && Leaf(n) && n.account == account
      ensures Done(w.par, done + {b}, n) == Done(w.par, done, n)
    {
      DoneMore(w, done, b, n);
    }
  }

  /** What has been dealt with by the time the walk of group g reaches child i. */
  ghost predicate GroupReached(w: World, done: set<Node>, more: set<Node>, g: Node, i: nat)
    requires g in w.kids && i <= |w.kids[g]|
  {
    && done <= more && (forall k {:trigger w.kids[g][k]} :: 0 <= k < i ==> w.kids[g][k] in more)
    && forall n: Node {:trigger n in more} :: n in more ==>
        n in done || n in w.kids[g][..i] || (n in w.par && w.par[n] != null && w.par[n] in w.kids[g][..i])
  }

  lemma ChildPending(w: World, done: set<Node>, more: set<Node>, g: Node, i: nat)
    requires WellFormed(w) && g in w.par && g.kind.Group? && Clear(w.par, done, g) && i < |w.kids[g]|
    requires GroupReached(w, done, more, g, i)
    ensures var x := w.kids[g][i];
      x in w.par && w.par[x] == g && (x.kind.Contact? || x.kind.Chat?) && Clear(w.par, more, x)
    ensures var x := w.kids[g][i]; if x.kind.Chat? then Pending(w, more, x) else x in w.kids
  {
    var s := w.kids[g];
    var x := s[i];
    assert x in s;
    InPrefix(s, i);
    forall k: Node | k in s[..i] ensures k in w.par && w.par[k] == g { assert k in s; }
    assert Beneath(w.par, g, g);
    forall n: Node | n in more ensures !Beneath(w.par, n, x) { assert n in done ==> !Beneath(w.par, n, g); }
  }

  lemma ChildReached(w: World, done: set<Node>, more: set<Node>, more': set<Node>, g: Node, i: nat)
    requires WellFormed(w) && g in w.par && g.kind.Group? && i < |w.kids[g]| && GroupReached(w, done, more, g, i)
    requires Within(w.par, more, more', w.kids[g][i]) && w.kids[g][i] in more'
    ensures GroupReached(w, done, more', g, i + 1)
  {
    var s := w.kids[g];
    assert s[i] in s && s[i] in w.par && w.par[s[i]] == g;
    assert s[..i + 1] == s[..i] + [s[i]];
    forall n: Node | n in more' && n !in more
      ensures n in s[..i + 1] || (n in w.par && w.par[n] != null && w.par[n] in s[..i + 1])
    {
      assert Beneath(w.par, n, s[i]);
    }
  }

  lemma GroupMarked(w: World, account: Account, done: set<Node>, more: set<Node>, g: Node)
    requires WellFormed(w) && g in w.par && g.kind.Group? && GroupReached(w, done, more, g, |w.kids[g]|)
    ensures NothingNew(w, account, more, more + {g}) && Within(w.par, done, more + {g}, g)
  {
    var s := w.kids[g];
    forall n: Node | n in s ensures n in more {
      var k :| 0 <= k < |s| && s[k] == n;
      assert w.kids[g][k] in more;
    }
    forall n: Node | n in more && n !in done ensures Beneath(w.par, n, g) {
      assert forall k: Node :: k in s[..|s|] ==> k in s;
    }
  }

  /** What has been dealt with by the time the walk of the list reaches group i. */
  ghost predicate ListReached(w: World, more: set<Node>, i: nat)
    requires null in w.kids && i <= |w.kids[null]|
  {
    && (forall k {:trigger w.kids[null][k]} :: 0 <= k < i ==> w.kids[null][k] in more)
    && forall k {:trigger w.kids[null][k]} :: i <= k < |w.kids[null]| ==> Clear(w.par, more, w.kids[null][k])
  }

  lemma GroupAt(w: World, i: nat)
    requires WellFormed(w) && i < |w.kids[null]|
    ensures var g := w.kids[null][i]; g in w.kids[null] && g in w.par && g.kind.Group? && w.par[g] == null
  {
    assert w.kids[null][i] in w.kids[null];
  }

  lemma GroupPending(w: World, more: set<Node>, i: nat)
    requires WellFormed(w) && i < |w.kids[null]| && ListReached(w, more, i)
    ensures var g := w.kids[null][i]; g in w.par && g.kind.Group? && w.par[g] == null && Clear(w.par, more, g)
  {
    GroupAt(w, i);
  }

  lemma BeneathOne(w: World, n: Node, g: Node, h: Node)
    requires WellFormed(w) && g in w.kids[null] && h in w.kids[null] && g != h && Beneath(w.par, n, g)
    ensures !Beneath(w.par, n, h)
  {
    assert g.kind.Group? && h.kind.Group?;
  }

  lemma GroupReachedNext(w: World, more: set<Node>, more': set<Node>, i: nat)
    requires WellFormed(w) && i < |w.kids[null]| && ListReached(w, more, i)
    requires Within(w.par, more, more', w.kids[null][i]) && w.kids[null][i] in more'
    ensures ListReached(w, more', i + 1)
  {
    GroupAt(w, i);
    forall k | i + 1 <= k < |w.kids[null]|
      ensures Clear(w.par, more', w.kids[null][k])
    {
      StillClear(w, more, more', i, k);
    }
  }

  lemma StillClear(w: World, more: set<Node>, more': set<Node>, i: nat, k: nat)
    requires WellFormed(w) && i < k < |w.kids[null]| && Clear(w.par, more, w.kids[null][k])
    requires Within(w.par, more, more', w.kids[null][i])
    ensures Clear(w.par, more', w.kids[null][k])
  {
    GroupAt(w, i);
    GroupAt(w, k);
    var g, h := w.kids[null][i], w.kids[null][k];
    forall n: Node | n in more' ensures !Beneath(w.par, n, h) {
      if Beneath(w.par, n, g) { BeneathOne(w, n, g, h); }
    }
  }

  lemma ListDone(w: World, account: Account, more: set<Node>)
    requires WellFormed(w) && ListReached(w, more, |w.kids[null]|)
    ensures AllDone(w, account, more)
    ensures forall c: Node {:trigger c in w.kids} ::
        c in w.kids && c.kind.Contact? ==> c in w.par && w.par[c] != null && w.par[c] in more
  {
    forall g: Node | g in w.kids[null] ensures g in more {
      var k :| 0 <= k < |w.kids[null]| && w.kids[null][k] == g;
    }
  }

  /** The contacts dealt with have the priority buddies they should have, the others those they had. */
  ghost predicate PrioritiesSoFar(k: Walk, w: World, done: set<Node>) {
    forall c: Node {:trigger c in k.u.kids} :: c in k.u.kids && c.kind.Contact? ==>
      if Done(k.u.par, done, c) then PriorityPassed(k.u, w, k.account, c)
      else c in w.prio && c in k.u.prio && w.prio[c] == k.u.prio[c]
  }

  lemma ContactPassed(k: Walk, w: World, v: World, done: set<Node>, more: set<Node>, c: Node, r: Node?)
    requires WellFormed(k.u) && c in k.u.par && c.kind.Contact? && PrioritiesSoFar(k, w, done)
    requires v.prio == w.prio[c := r] && PriorityPassed(k.u, v, k.account, c)
    requires Within(k.u.par, done, more, c) && c in more
    ensures PrioritiesSoFar(k, v, more)
  {
    forall d: Node | d in k.u.kids && d.kind.Contact? && d != c
      ensures Done(k.u.par, more, d) == Done(k.u.par, done, d)
    {
      assert d in k.u.par;
    }
  }

  lemma ChatPassedBy(k: Walk, w: World, v: World, done: set<Node>, x: Node)
    requires WellFormed(k.u) && x in k.u.par && x.kind.Chat? && PrioritiesSoFar(k, w, done) && v.prio == w.prio
    ensures PrioritiesSoFar(k, v, done + {x})
  {
    forall d: Node | d in k.u.kids && d.kind.Contact? ensures Done(k.u.par, done + {x}, d) == Done(k.u.par, done, d) {
      assert d in k.u.par;
    }
  }

  lemma GroupPassed(k: Walk, w: World, done: set<Node>, more: set<Node>, g: Node)
    requires WellFormed(k.u) && g in k.u.par && g.kind.Group? && PrioritiesSoFar(k, w, more)
    requires GroupReached(k.u, done, more, g, |k.u.kids[g]|)
    ensures PrioritiesSoFar(k, w, more + {g})
  {
    forall d: Node | d in k.u.kids && d.kind.Contact? ensures Done(k.u.par, more + {g}, d) == Done(k.u.par, more, d) {
      if k.u.par[d] == g {
        var i :| 0 <= i < |k.u.kids[g]| && k.u.kids[g][i] == d;
        assert k.u.kids[g][i] in more;
      }
    }
  }

  // ------------------------------------------------------------------ what the walk is for

  /** v is w with the account signed on (on) or off: the same tree and hash; signing off, every buddy of the
      account is Offline, available and not idle. */
  ghost predicate Signed(w: World, v: World, account: Account, on: bool) {
    && v.kids == w.kids && v.par == w.par && v.nodes == w.nodes && v.total == w.total && v.names == w.names
        && v.index == w.index
    && v.connected == (if on then w.connected + {account} else w.connected - {account})
    && v.info.Keys == w.info.Keys
    && forall n: Node {:trigger v.info[n]} :: n in w.info ==>
        v.info[n] ==
            if !on && n in w.par && n.kind.Buddy? && n.account == account then AfterSignOff(w.info[n]) else w.info[n]
  }

  ghost predicate WalkFrom(w: World, k: Walk) {
    && WellFormed(w) && SizesOK(w) && k.online == OnlineOK(w) && (k.account in w.connected) == !k.on
    && k.u == w.(connected := if k.on then w.connected + {k.account} else w.connected - {k.account})
  }

  lemma WalkBegins(w: World, k: Walk)
    requires WalkFrom(w, k)
    ensures WellFormed(k.u) && Passing(k.u, k.u, k.account, {}, k.on, k.online) && PrioritiesSoFar(k, k.u, {})
    ensures (k.account in k.u.connected) == k.on && (k.on && k.online ==> AllOffline(k.u, k.account))
  {
    hide Counted, OnlineCounted, WellFormed, SizesOK, Walked, PrioritiesSoFar, AllOffline, Consistent, OfflineOK;
    Start(w, k.u, k.account, k.on);
    NothingWalked(k, k.u);
    NothingLost(k.u, k.account, k.on);
    if k.on && k.online { AllStartOffline(w, k.u, k.account); }
  }

  lemma NothingWalked(k: Walk, u: World)
    requires WellFormed(u) && k.u == u
    ensures Walked(u, u, k.account, {}, k.on) && PrioritiesSoFar(k, u, {})
  {
  }

  lemma NothingLost(u: World, account: Account, on: bool)
    ensures Lost(u, account, {}, on) == {}
  {
  }

  lemma AllStartOffline(w: World, u: World, account: Account)
    requires OfflineOK(w) && account !in w.connected && u.par == w.par && u.info == w.info
    ensures AllOffline(u, account)
  {
  }

  ghost predicate WalkDone(k: Walk, w: World, done: set<Node>) {
    && Passing(k.u, w, k.account, done, k.on, k.online) && PrioritiesSoFar(k, w, done) && AllDone(k.u, k.account, done)
    && forall c: Node {:trigger c in k.u.kids} :: c in k.u.kids && c.kind.Contact? ==> Done(k.u.par, done, c)
  }

  lemma WalkSigned(w: World, k: Walk, v: World, done: set<Node>)
    requires WalkFrom(w, k) && WalkDone(k, v, done)
    ensures Signed(w, v, k.account, k.on)
  {
  }

  lemma WalkInv(w: World, k: Walk, v: World, done: set<Node>, norm: string -> string)
    requires WalkFrom(w, k) && WalkDone(k, v, done) && Inv(w, norm)
    ensures Inv(v, norm)
  {
    Finish(v, k.account, done, k.on);
  }

  lemma WalkPriorities(w: World, k: Walk, v: World, done: set<Node>)
    requires WalkFrom(w, k) && WalkDone(k, v, done) && PrioritiesOK(w)
    ensures PrioritiesOK(v)
  {
    PrioritiesPassed(w, k.u, v, k.account, done, k.on);
  }

  /** Some buddy of the account is signing off. */
  ghost predicate SomeSigningOff(w: World, account: Account) {
    exists b: Node {:trigger w.info[b]} ::
        b in w.par && b.kind.Buddy? && b.account == account && b in w.info && w.info[b].present == SigningOff
  }

  lemma WalkOnline(w: World, k: Walk, v: World, done: set<Node>)
    requires WalkFrom(w, k) && WalkDone(k, v, done) && OnlineOK(w)
    ensures OnlineOK(v) <==> k.on || !SomeSigningOff(w, k.account)
  {
    WalkSigned(w, k, v, done);
    var l := Lost(k.u, k.account, done, k.on);
    forall b: Node | b in l ensures b in v.par && b.kind.Buddy? && b in v.info && v.info[b].present == Offline {
      assert v.info[b] == AfterSignOff(w.info[b]);
    }
    FinishOnline(v, k.account, done, k.on, l);
    WalkOffline(w, k, v);
    LostAll(w, k, done);
  }

  lemma LostAll(w: World, k: Walk, done: set<Node>)
    requires WalkFrom(w, k) && AllDone(k.u, k.account, done)
    ensures Lost(k.u, k.account, done, k.on) == {} <==> k.on || !SomeSigningOff(w, k.account)
  {
    var l := Lost(k.u, k.account, done, k.on);
    if !k.on && SomeSigningOff(w, k.account) {
      var b :| b in w.par && b.kind.Buddy? && b.account == k.account && b in w.info && w.info[b].present == SigningOff;
      assert b in l;
    }
    if l != {} {
      var b :| b in l;
      assert w.info[b].present == SigningOff;
    }
  }

  lemma WalkOffline(w: World, k: Walk, v: World)
    requires WalkFrom(w, k) && Signed(w, v, k.account, k.on) && OfflineOK(w)
    ensures OfflineOK(v)
  {
  }

  /** Some buddy of the account has a pending timer. */
  ghost predicate SomeTimer(w: World, account: Account) {
    exists b: Node {:trigger w.info[b]} ::
        b in w.par && b.kind.Buddy? && b.account == account && b in w.info && w.info[b].timer
  }

  lemma SignedTimers(w: World, v: World, account: Account, on: bool)
    requires Signed(w, v, account, on) && TimersOK(w)
    ensures TimersOK(v) <==> on || !SomeTimer(w, account)
  {
    if !on && SomeTimer(w, account) {
      var b :| b in w.par && b.kind.Buddy? && b.account == account && b in w.info && w.info[b].timer;
      assert v.info[b] == AfterSignOff(w.info[b]);
      assert b in v.par;
    } else {
      forall b: Node | b in v.par && b.kind.Buddy?
        ensures b in v.info && (v.info[b].timer <==> v.info[b].present == SigningOn || v.info[b].present == SigningOff)
      {
        assert b in w.par && b in w.info;
        assert !on && b.account == account ==> !w.info[b].timer;
      }
    }
  }
}
