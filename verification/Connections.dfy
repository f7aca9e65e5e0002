/** The life of connections and accounts: connecting, the recursion of destroy and disconnect, and what
    the buddy list is told. */
module Connections {

  datatype State = Disconnected | Connected | Connecting

  class Account {
    var gc: Connection?

    constructor ()
      ensures gc == null
    {
      gc := null;
    }

    /** gaim_account_is_connected */
    predicate IsConnected()
      reads this, if gc == null then {} else {gc}
    {
      gc != null && gc.state != Disconnected
    }
  }

  class Connection {
    const account: Account
    const hasPlugin: bool
    var state: State

    constructor (account: Account, hasPlugin: bool)
      ensures this.account == account && this.hasPlugin == hasPlugin && state == Disconnected
    {
      this.account, this.hasPlugin, state := account, hasPlugin, Disconnected;
    }
  }

  // ------------------------------------------------------------- what the buddy list is told

  /** gaim_blist_add_account and gaim_blist_remove_account. */
  datatype Event = Add(account: Account) | Remove(account: Account)

  /** The last that was said about account a is that it signed on. */
  ghost predicate On(log: seq<Event>, a: Account) {
    log != [] && (if log[|log| - 1].account == a then log[|log| - 1].Add? else On(log[..|log| - 1], a))
  }

  /** For each account, sign-ons and sign-offs alternate, a sign-on first. */
  ghost predicate Alternates(log: seq<Event>) {
    log == [] || (Alternates(log[..|log| - 1])
        && (On(log[..|log| - 1], log[|log| - 1].account) <==> log[|log| - 1].Remove?))
  }

  lemma Said(log: seq<Event>, e: Event)
    ensures forall a: Account {:trigger On(log + [e], a)} ::
        On(log + [e], a) <==> if a == e.account then e.Add? else On(log, a)
    ensures Alternates(log + [e]) <==> Alternates(log) && (On(log, e.account) <==> e.Remove?)
  {
    assert (log + [e])[..|log|] == log;
  }

  // --------------------------------------------------------------------- the global lists

  ghost predicate Distinct(s: seq<Connection>) {
    forall i, j :: 0 <= i < j < |s| ==> s[i] != s[j]
  }

  /** g_list_remove: s without the first x. */
  function Without(s: seq<Connection>, x: Connection): seq<Connection> {
    if s == [] then [] else if s[0] == x then s[1..] else [s[0]] + Without(s[1..], x)
  }

  /** t has the members of s but x. */
  ghost predicate Minus(t: seq<Connection>, s: seq<Connection>, x: Connection) {
    && (forall y: Connection {:trigger y in t} :: y in t ==> y in s && y != x)
    && (forall y: Connection {:trigger y in s} :: y in s && y != x ==> y in t)
  }

  lemma {:induction false} WithoutIs(s: seq<Connection>, x: Connection)
    requires Distinct(s)
    ensures Distinct(Without(s, x)) && Minus(Without(s, x), s, x)
    ensures |Without(s, x)| == |s| - if x in s then 1 else 0
    ensures x !in s ==> Without(s, x) == s
  {
    if s != [] {
      var h, r := s[0], s[1..];
      assert h !in r;
      MembersCons(h, r);
      assert s == [h] + r;
      if h != x {
        WithoutIs(r, x);
        var t := Without(r, x);
        assert h !in t;
        MembersCons(h, t);
        DistinctCons(h, t);
      }
    }
  }

  lemma DistinctCons(h: Connection, t: seq<Connection>)
    requires Distinct(t) && h !in t
    ensures Distinct([h] + t)
  {
    var s := [h] + t;
    forall i, j | 0 <= i < j < |s| ensures s[i] != s[j] {
      assert s[j] == t[j - 1];
      assert i > 0 ==> s[i] == t[i - 1];
    }
  }

  ghost predicate Members(s: seq<Connection>, h: Connection, t: seq<Connection>) {
    && h in s
    && (forall y: Connection {:trigger y in s} :: y in s ==> y == h || y in t)
    && (forall y: Connection {:trigger y in t} :: y in t ==> y in s)
  }

  lemma HeadIn(s: seq<Connection>)
    ensures s != [] ==> s[0] in s
  {
  }

  lemma MembersCons(h: Connection, t: seq<Connection>)
    ensures Members([h] + t, h, t)
  {
  }

  class Core {
    var connections: seq<Connection>
    var connecting: seq<Connection>
    ghost const accounts: set<Account>
    ghost var live: set<Connection>     // not yet freed
    ghost var log: seq<Event>

    /** Everything but that the account of the connection loose may have let go of it. */
    ghost predicate ValidBut(loose: Connection?)
      reads this, accounts, live
    {
      && Distinct(connections) && Distinct(connecting)
      && (forall c: Connection {:trigger c in connections} :: c in connections ==> c in live)
      && (forall c: Connection {:trigger c in connecting} :: c in connecting ==> c in connections)
      && (forall c: Connection {:trigger c.state} :: c in live ==>
            (c in connections <==> c.state != Disconnected) && (c in connecting <==> c.state == Connecting))
      && (forall c: Connection {:trigger c.account} :: c in live ==> c.account in accounts)
      && (forall c: Connection {:trigger c.account} :: c in live && c != loose ==> c.account.gc == c)
      && (forall a: Account {:trigger a.gc} :: a in accounts && a.gc != null ==> a.gc in live && a.gc.account == a)
      && (loose != null ==> loose in live && loose.account.gc == null)
      && Alternates(log)
      && (forall c: Connection {:trigger c.account} :: c in live ==> (On(log, c.account) <==> c.state == Connected))
      && (forall a: Account {:trigger a.gc} ::
          a in accounts && a.gc == null && (loose == null || a != loose.account) ==> !On(log, a))
    }

    /** A connection is in connections exactly if it is not Disconnected, and in connecting exactly if
        it is Connecting, once; it is the connection of its account, and no account has two; the buddy
        list has been told alternately of sign-ons and sign-offs, and who is Connected is signed on. */
    ghost predicate Valid()
      reads this, accounts, live
    {
      ValidBut(null)
    }

    constructor (accounts: set<Account>)
      requires forall a: Account :: a in accounts ==> a.gc == null
      ensures Valid() && this.accounts == accounts && live == {} && log == []
    {
      connections, connecting := [], [];
      this.accounts, live, log := accounts, {}, [];
    }

    // ------------------------------------------------------------------------- connecting

    /** gaim_connection_set_state, without what it shows to the user. */
    method SetState(c: Connection, state: State)
      requires c in live
      modifies c`state, `connecting, `log
      ensures c.state == state
      ensures if state == old(c.state) then connecting == old(connecting) && log == old(log)
        else
          && connecting == (if state == Connecting then old(connecting) + [c] else Without(old(connecting), c))
          && log == if state == Connected then old(log) + [Add(c.account)] else old(log)
    {
      if c.state == state { return; }
      c.state := state;
      if c.state == Connecting { connecting := connecting + [c]; } else { connecting := Without(connecting, c); }
      if c.state == Connected { log := log + [Add(c.account)]; }
    }

    /** gaim_connection_new */
    method NewConnection(a: Account, hasPlugin: bool) returns (c: Connection)
      requires Valid() && a in accounts && a.gc == null
      modifies a`gc, `live
      ensures Valid() && fresh(c) && a.gc == c && c.account == a && c.hasPlugin == hasPlugin && c.state == Disconnected
      ensures live == old(live) + {c}
    {
      c := new Connection(a, hasPlugin);
      a.gc := c;
      live := live + {c};
    }

    /** The plugin reports that the login is done. */
    method LoggedIn(c: Connection)
      requires Valid() && c in live && c.state == Connecting
      modifies c`state, `connecting, `log
      ensures Valid() && c.state == Connected && log == old(log) + [Add(c.account)]
    {
      Said(log, Add(c.account));
      WithoutIs(connecting, c);
      SetState(c, Connected);
    }

    /** gaim_connection_connect: hasPassword says whether one is known or none is needed. */
    method Connect(c: Connection, hasPassword: bool)
      requires Valid() && c in live
      modifies this, c`state, c.account`gc
      ensures Valid()
      ensures if !c.hasPlugin || old(c.state) != Disconnected then
          live == old(live) && c.state == old(c.state) && log == old(log)
        else if !hasPassword then
          live == old(live) - {c} && c.account.gc == null && log == old(log)
        else
          live == old(live) && c.state == Connecting && log == old(log)
    {
      if !c.hasPlugin { return; }
      if c.state != Disconnected { return; }
      if !hasPassword {
        Destroy(c);
        return;
      }
      SetState(c, Connecting);
      connections := connections + [c];
    }

    /** gaim_account_connect. A connection whose plugin is missing stays the account's connection, Disconnected. */
    method AccountConnect(a: Account, hasPlugin: bool, hasPassword: bool) returns (c: Connection?)
      requires Valid() && a in accounts
      modifies this, a`gc
      ensures Valid() && log == old(log)
      ensures if old(a.gc) != null then
          c == null && live == old(live) && a.gc == old(a.gc)
        else
          && c != null && fresh(c) && c.account == a
          && (if !hasPlugin then a.gc == c && c.state == Disconnected
              else if !hasPassword then a.gc == null && c !in live
              else a.gc == c && c.state == Connecting)
    {
      if a.gc != null { return null; }
      c := NewConnection(a, hasPlugin);
      Connect(c, hasPassword);
    }

    // ---------------------------------------------------------------------- disconnecting

    /** c is gone, from both lists too; the buddy list has been told if c was Connected. */
    twostate predicate Gone(c: Connection)
      reads this, c.account
    {
      && live == old(live) - {c} && c.account.gc == null
      && connections == Without(old(connections), c) && connecting == Without(old(connecting), c)
      && log == if old(c.state) == Connected then old(log) + [Remove(c.account)] else old(log)
    }

    /** gaim_connection_destroy */
    method Destroy(c: Connection)
      requires c in live && (Valid() || (ValidBut(c) && c.state == Disconnected))
      modifies this, c`state, c.account`gc
      ensures Valid() && Gone(c)
      ensures old(c.state) == Disconnected ==> connections == old(connections) && connecting == old(connecting)
      decreases if c.state == Disconnected then 0 else 9
    {
      if c.state != Disconnected {
        Disconnect(c);
        return;
      }
      WithoutIs(connections, c);
      WithoutIs(connecting, c);
      c.account.gc := null;
      live := live - {c};
    }

    /** gaim_connection_disconnect: with its account still holding on to it, the account lets go first; a
        connection that is Disconnected and held by its account stays as it is. */
    method Disconnect(c: Connection)
      requires c in live && (Valid() || ValidBut(c))
      modifies this, c`state, c.account`gc
      ensures Valid()
      ensures if old(c.state) == Disconnected && old(c.account.gc) != null then
          live == old(live) && connections == old(connections) && connecting == old(connecting) && log == old(log)
          && c.state == Disconnected && c.account.gc == old(c.account.gc)
        else Gone(c)
      decreases (if c.account.gc != null then 6 else 0) + (if c.state != Disconnected then 2 else 1)
    {
      if c.account.gc != null {
        AccountDisconnect(c.account);
        return;
      }
      if c.state != Disconnected { Close(c); }
      Destroy(c);
    }

    /** gaim_account_disconnect: refused if the account is not connected. */
    method AccountDisconnect(a: Account)
      requires Valid() && a in accounts
      modifies this, a`gc, (if a.gc == null then {} else {a.gc})`state
      ensures Valid()
      ensures var c := old(a.gc);
        if c == null || old(c.state) == Disconnected then
          live == old(live) && connections == old(connections) && connecting == old(connecting) && log == old(log)
          && a.gc == c && (c != null ==> c.state == Disconnected)
        else Gone(c)
      decreases 5
    {
      if !a.IsConnected() { return; }
      var c := a.gc;
      a.gc := null;
      Disconnect(c);
    }

    /** The part of gaim_connection_disconnect that takes the connection down. */
    method Close(c: Connection)
      requires c in live && ValidBut(c) && c.state != Disconnected
      modifies this, c`state
      ensures ValidBut(c) && c.state == Disconnected && live == old(live)
      ensures connections == Without(old(connections), c) && connecting == Without(old(connecting), c)
      ensures log == if old(c.state) == Connected then old(log) + [Remove(c.account)] else old(log)
    {
      if c.state != Connecting {
        Said(log, Remove(c.account));
        log := log + [Remove(c.account)];
      }
      WithoutIs(connections, c);
      WithoutIs(connecting, c);
      connections := Without(connections, c);
      SetState(c, Disconnected);
    }

    /** Who is Connecting is in connections too. */
    lemma NoneConnecting()
      requires Valid() && connections == []
      ensures connecting == []
    {
      HeadIn(connecting);
    }

    /** gaim_connections_disconnect_all */
    method DisconnectAll()
      requires Valid()
      modifies this, live, accounts
      ensures Valid() && connections == [] && connecting == []
    {
      while connections != []
        invariant Valid() && live <= old(live)
        decreases |connections|
      {
        var c := connections[0];
        assert c in connections;
        WithoutIs(connections, c);
        Destroy(c);
      }
      NoneConnecting();
    }
  }
}
