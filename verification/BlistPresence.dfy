/** Presence, idleness and status of buddies; removal; accounts signing on and off. */
module BlistPresence {
  import opened BlistModel
  import opened BlistTally
  import opened BlistMoves
  import opened BlistGroups

  // ------------------------------------------------------------------ a buddy's state

  ghost function WithInfo(w: World, b: Node, i: Info): World {
    w.(info := w.info[b := i])
  }

  /** It may change the priority buddy of its own contact only. */
  lemma WithInfoPriorities(w: World, b: Node, i: Info)
    requires WellFormed(w) && b in w.par && b.kind.Buddy? && PrioritiesOK(w)
    ensures PrioritiesBut(WithInfo(w, b, i), w.par[b])
    ensures Rank(i) == Rank(w.info[b]) ==> PrioritiesOK(WithInfo(w, b, i))
  {
    var v := WithInfo(w, b, i);
    forall c: Node | c in v.kids && c.kind.Contact? && (c != w.par[b] || Rank(i) == Rank(w.info[b]))
      ensures PriorityAt(v, c)
    {
      assert PriorityAt(w, c);
      var s := w.kids[c];
      forall k | 0 <= k < |s| ensures s[k] in w.par && w.par[s[k]] == c { assert s[k] in s; }
      SameRanks(s, w.info, v.info, w.connected, w.prio[c]);
    }
  }

  lemma SameRanks(s: seq<Node>, info: map<Node, Info>, info': map<Node, Info>, connected: set<Account>, r: Node?)
    requires IsPriority(s, info, connected, r)
    requires forall i ::
        0 <= i < |s| ==> (s[i] in info <==> s[i] in info') && (s[i] in info ==> Rank(info'[s[i]]) == Rank(info[s[i]]))
    ensures IsPriority(s, info', connected, r)
  {
    if r != null {
      var k :| 0 <= k < |s| && s[k] == r && IsFirstBest(s, info, connected, k);
      assert IsFirstBest(s, info', connected, k);
    }
  }

  /** One member of contact c of group g enters (up) or leaves the online counts. */
  ghost function CountMoved(m: map<Node, int>, c: Node, g: Node, up: bool): map<Node, int>
    requires c in m && g in m
  {
    if up then Raised(m, c, g, true) else Lowered(m, c, g, true)
  }

  /** f and g differ on the buddy b only: the counts follow when b enters or leaves them. */
  lemma FlippedConsistent(w: World, f: Node -> bool, g: Node -> bool, m: map<Node, int>, b: Node)
    requires WellFormed(w) && b in w.par && b.kind.Buddy? && Consistent(w.kids, f, m) && AgreeBut(w, f, g, b)
    ensures Consistent(w.kids, g, if f(b) == g(b) then m else CountMoved(m, w.par[b], w.par[w.par[b]], g(b)))
  {
    BuddyFlipped(w, f, g, b);
  }

  /** The online counts follow a buddy whose presence turns to or from Offline. */
  lemma PresenceConsistent(w: World, b: Node, i: Info)
    requires WellFormed(w) && b in w.par && b.kind.Buddy? && Consistent(w.kids, OnlineF(w.info, w.connected), w.online)
    ensures var c := w.par[b]; var g := w.par[c]; var was, will := w.info[b].present != Offline, i.present != Offline;
      Consistent(w.kids, OnlineF(w.info[b := i], w.connected),
        if was == will then w.online else CountMoved(w.online, c, g, will))
  {
    FlippedConsistent(w, OnlineF(w.info, w.connected), OnlineF(w.info[b := i], w.connected), w.online, b);
  }

  /** A change of idleness or status leaves the online counts alone. */
  lemma WithInfoOnline(w: World, b: Node, i: Info)
    requires WellFormed(w) && b in w.par && b.kind.Buddy? && i.present == w.info[b].present && OnlineOK(w)
    ensures OnlineOK(WithInfo(w, b, i))
  {
    hide Consistent;
    PresenceConsistent(w, b, i);
  }

  /** A new status or idle time, with the priority buddy of the contact chosen anew. */
  ghost predicate Reranked(w: World, v: World, b: Node, i: Info) {
    && WellFormed(w) && b in w.par && b.kind.Buddy?
    && i.present == w.info[b].present && i.timer == w.info[b].timer
    && w.par[b] in v.prio && v == WithInfo(w, b, i).(prio := w.prio[w.par[b] := v.prio[w.par[b]]])
    && w.par[b] in v.kids && PriorityAt(v, w.par[b])
  }

  lemma RerankedInv(w: World, v: World, norm: string -> string, b: Node, i: Info)
    requires Inv(w, norm) && Reranked(w, v, b, i)
    ensures Inv(v, norm)
  {
  }

  lemma RerankedPriorities(w: World, v: World, b: Node, i: Info)
    requires Reranked(w, v, b, i) && PrioritiesOK(w)
    ensures PrioritiesOK(v)
  {
    WithInfoPriorities(w, b, i);
    PrioritiesBy(WithInfo(w, b, i), v, w.par[b], v.prio[w.par[b]]);
  }

  lemma RerankedOnline(w: World, v: World, b: Node, i: Info)
    requires Reranked(w, v, b, i) && OnlineOK(w)
    ensures OnlineOK(v)
  {
    WithInfoOnline(w, b, i);
    OnlineBy(WithInfo(w, b, i), v);
  }

  lemma RerankedTimers(w: World, v: World, b: Node, i: Info)
    requires Reranked(w, v, b, i) && TimersOK(w)
    ensures TimersOK(v)
  {
  }

  /** It keeps everything. */
  lemma RerankedKeeps(w: World, v: World, norm: string -> string, b: Node, i: Info)
    requires Inv(w, norm) && Reranked(w, v, b, i)
    ensures Inv(v, norm) && Keeps(w, v)
  {
    hide WellFormed, SizesOK, NamesOK, IndexOK, PrioritiesOK, OnlineOK, TimersOK, Reranked;
    RerankedInv(w, v, norm, b, i);
    if PrioritiesOK(w) { RerankedPriorities(w, v, b, i); }
    if OnlineOK(w) { RerankedOnline(w, v, b, i); }
    if TimersOK(w) { RerankedTimers(w, v, b, i); }
  }

  /** gaim_blist_update_buddy_presence: the new state of a buddy, and whether anything is done. */
  function AfterPresence(i: Info, conn: bool, presence: bool): (r: (Info, bool)) {
    var on := conn && Present(i);
    if !on && presence then (i.(present := SigningOn, timer := true), true)
    else if on && !presence then (i.(present := SigningOff, timer := true), true)
    else (i, false)
  }

  /** A buddy that appears signs on, one that disappears signs off, with a new timer; others stay as they are. */
  lemma PresenceIs(i: Info, conn: bool, presence: bool)
    ensures var on := conn && (i.present == Online || i.present == SigningOn);
      AfterPresence(i, conn, presence).0 ==
        if presence && !on then Info(SigningOn, i.idle, i.uc, true)
        else if on && !presence then Info(SigningOff, i.idle, i.uc, true)
        else i
  {
  }

  /** presence_update_timeout_cb */
  function AfterTimeout(i: Info): (r: Info)
    ensures Rank(r) == Rank(i) && !r.timer
  {
    if i.present == SigningOn then i.(present := Online, timer := false)
    else if i.present == SigningOff then i.(present := Offline, timer := false)
    else i.(timer := false)
  }

  ghost function PresenceUpdated(w: World, b: Node, presence: bool): World
    requires WellFormed(w) && b in w.par && b.kind.Buddy?
  {
    var i := w.info[b];
    var on := b.account in w.connected && Present(i);
    var v := WithInfo(w, b, AfterPresence(i, b.account in w.connected, presence).0);
    if !on && presence && i.present != SigningOff
    then v.(online := CountMoved(w.online, w.par[b], w.par[w.par[b]], true)) else v
  }

  ghost function TimedOut(w: World, b: Node): World
    requires WellFormed(w) && b in w.par && b.kind.Buddy?
  {
    var v := WithInfo(w, b, AfterTimeout(w.info[b]));
    if w.info[b].present == SigningOff
    then v.(online := CountMoved(w.online, w.par[b], w.par[w.par[b]], false)) else v
  }

  /** A presence update keeps the online counts right exactly if it does not bring up a buddy of
      an account that is not connected. */
  lemma PresenceUpdatedOnline(w: World, b: Node, presence: bool)
    requires WellFormed(w) && b in w.par && b.kind.Buddy? && OnlineOK(w)
    ensures OnlineOK(PresenceUpdated(w, b, presence)) <==> b.account in w.connected || !presence
  {
    PresenceUpdatedCounts(w, b, presence);
    PresenceUpdatedOffline(w, b, presence);
  }

  lemma PresenceUpdatedCounts(w: World, b: Node, presence: bool)
    requires WellFormed(w) && b in w.par && b.kind.Buddy? && OnlineOK(w)
    ensures var v := PresenceUpdated(w, b, presence); Consistent(v.kids, OnlineF(v.info, v.connected), v.online)
  {
    hide WellFormed, Consistent, OnlineF;
    PresenceUpdatedWorld(w, b, presence);
    PresenceConsistent(w, b, AfterPresence(w.info[b], b.account in w.connected, presence).0);
  }

  /** The update field by field; the online counts follow when the buddy was Offline and is so no more. */
  lemma PresenceUpdatedWorld(w: World, b: Node, presence: bool)
    requires WellFormed(w) && b in w.par && b.kind.Buddy? && OfflineOK(w)
    ensures var v, i := PresenceUpdated(w, b, presence), AfterPresence(w.info[b], b.account in w.connected, presence).0;
      && v.kids == w.kids && v.par == w.par && v.connected == w.connected && v.info == w.info[b := i]
      && v.online == if (w.info[b].present != Offline) == (i.present != Offline) then w.online
                     else CountMoved(w.online, w.par[b], w.par[w.par[b]], i.present != Offline)
  {
  }

  lemma PresenceUpdatedOffline(w: World, b: Node, presence: bool)
    requires WellFormed(w) && b in w.par && b.kind.Buddy? && OfflineOK(w)
    ensures OfflineOK(PresenceUpdated(w, b, presence)) <==> b.account in w.connected || !presence
  {
    hide WellFormed;
    PresenceUpdatedWorld(w, b, presence);
    var v := PresenceUpdated(w, b, presence);
    assert b in v.par;
  }

  lemma TimedOutOnline(w: World, b: Node)
    requires WellFormed(w) && b in w.par && b.kind.Buddy? && OnlineOK(w)
    ensures OnlineOK(TimedOut(w, b))
  {
    var i := AfterTimeout(w.info[b]);
    PresenceConsistent(w, b, i);
    assert TimedOut(w, b).info == w.info[b := i];
  }

  /** The update and the timeout leave b with a timer exactly if it is signing on or off. */
  lemma InfoTimers(w: World, b: Node, i: Info)
    requires WellFormed(w) && b in w.par && TimersOK(w) && TimerAt(w.info[b := i], b)
    ensures TimersOK(WithInfo(w, b, i))
  {
    var v := WithInfo(w, b, i);
    forall n: Node | n in v.par && n.kind.Buddy? ensures TimerAt(v.info, n) {
      assert n != b ==> TimerAt(w.info, n);
    }
  }

  lemma UpdatedTimers(w: World, b: Node, presence: bool)
    requires WellFormed(w) && b in w.par && b.kind.Buddy? && TimersOK(w)
    ensures TimersOK(PresenceUpdated(w, b, presence))
  {
    InfoTimers(w, b, AfterPresence(w.info[b], b.account in w.connected, presence).0);
  }

  lemma TimedOutTimers(w: World, b: Node)
    requires WellFormed(w) && b in w.par && b.kind.Buddy? && TimersOK(w)
    ensures TimersOK(TimedOut(w, b))
  {
    InfoTimers(w, b, AfterTimeout(w.info[b]));
  }

  /** The presence update case by case. */
  lemma PresenceUpdatedIs(w: World, b: Node, presence: bool)
    requires WellFormed(w) && b in w.par && b.kind.Buddy?
    ensures
      var i, v := w.info[b], PresenceUpdated(w, b, presence);
      var on := b.account in w.connected && Present(i);
      && v.info == w.info[b := AfterPresence(i, b.account in w.connected, presence).0]
      && (!on && presence ==> var u := WithInfo(w, b, i.(present := SigningOn, timer := true));
            v == if i.present == SigningOff then u
                 else u.(online := CountMoved(u.online, w.par[b], w.par[w.par[b]], true)))
      && (on && !presence ==> v == WithInfo(w, b, i.(present := SigningOff, timer := true)))
      && (on == presence ==> v == w)
  {
    assert w.info == w.info[b := w.info[b]];
  }

  lemma PresenceUpdatedWellFormed(w: World, b: Node, presence: bool)
    requires WellFormed(w) && b in w.par && b.kind.Buddy?
    ensures WellFormed(PresenceUpdated(w, b, presence))
  {
  }

  lemma PresenceInv(w: World, norm: string -> string, b: Node, presence: bool)
    requires Inv(w, norm) && b in w.par && b.kind.Buddy?
    ensures Inv(PresenceUpdated(w, b, presence), norm)
  {
  }

  lemma TimedOutInv(w: World, norm: string -> string, b: Node)
    requires Inv(w, norm) && b in w.par && b.kind.Buddy?
    ensures Inv(TimedOut(w, b), norm)
  {
  }

  lemma PresenceStill(w: World, norm: string -> string, b: Node, presence: bool)
    requires WellFormed(w) && b in w.par && b.kind.Buddy? && PresenceUpdated(w, b, presence) == w
    ensures OnlineOK(w) ==> b.account in w.connected || !presence
    ensures w.info == w.info[b := AfterPresence(w.info[b], b.account in w.connected, presence).0]
  {
    PresenceUpdatedIs(w, b, presence);
    if OnlineOK(w) { PresenceUpdatedOnline(w, b, presence); }
  }

  lemma PresencePriorities(w: World, b: Node, presence: bool)
    requires WellFormed(w) && b in w.par && b.kind.Buddy? && PrioritiesOK(w)
    ensures PrioritiesBut(PresenceUpdated(w, b, presence), w.par[b])
  {
    var i := AfterPresence(w.info[b], b.account in w.connected, presence).0;
    WithInfoPriorities(w, b, i);
    PrioritiesButBy(WithInfo(w, b, i), PresenceUpdated(w, b, presence), w.par[b]);
  }

  lemma PrioritiesButBy(w: World, v: World, c: Node?)
    requires PrioritiesBut(w, c) && v.kids == w.kids && v.info == w.info && v.connected == w.connected
    requires v.prio == w.prio
    ensures PrioritiesBut(v, c)
  {
    forall d: Node | d in v.kids && d.kind.Contact? && d != c ensures PriorityAt(v, d) { assert PriorityAt(w, d); }
  }

  /** The update with the priority buddy r of the contact chosen anew. */
  ghost predicate Rechosen(w: World, v: World, b: Node, presence: bool, r: Node?) {
    && WellFormed(w) && b in w.par && b.kind.Buddy?
    && v == PresenceUpdated(w, b, presence).(prio := w.prio[w.par[b] := r])
  }

  lemma RechosenInv(w: World, v: World, norm: string -> string, b: Node, presence: bool, r: Node?)
    requires Inv(w, norm) && Rechosen(w, v, b, presence, r)
    ensures Inv(v, norm)
  {
    PresenceInv(w, norm, b, presence);
    Relabelled(PresenceUpdated(w, b, presence), w.index, w.par[b], r);
  }

  lemma RechosenPriorities(w: World, v: World, b: Node, presence: bool, r: Node?)
    requires Rechosen(w, v, b, presence, r) && PrioritiesOK(w) && w.par[b] in v.kids && PriorityAt(v, w.par[b])
    ensures PrioritiesOK(v)
  {
    PresencePriorities(w, b, presence);
    PrioritiesBy(PresenceUpdated(w, b, presence), v, w.par[b], r);
  }

  lemma RechosenOnline(w: World, v: World, b: Node, presence: bool, r: Node?)
    requires Rechosen(w, v, b, presence, r) && OnlineOK(w)
    ensures OnlineOK(v) <==> b.account in w.connected || !presence
  {
    PresenceUpdatedOnline(w, b, presence);
    OnlineBy(PresenceUpdated(w, b, presence), v);
  }

  lemma RechosenRest(w: World, v: World, b: Node, presence: bool, r: Node?)
    requires Rechosen(w, v, b, presence, r)
    ensures v.kids == w.kids && v.info == w.info[b := AfterPresence(w.info[b], b.account in w.connected, presence).0]
    ensures TimersOK(w) ==> TimersOK(v)
  {
    if TimersOK(w) { UpdatedTimers(w, b, presence); }
  }

  /** What a presence update keeps, once the priority buddy r of the contact has been chosen anew. */
  lemma PresenceKeeps(w: World, v: World, norm: string -> string, b: Node, presence: bool, r: Node?)
    requires Inv(w, norm) && Rechosen(w, v, b, presence, r) && w.par[b] in v.kids && PriorityAt(v, w.par[b])
    ensures Inv(v, norm) && (PrioritiesOK(w) ==> PrioritiesOK(v)) && (TimersOK(w) ==> TimersOK(v))
    ensures OnlineOK(w) ==> (OnlineOK(v) <==> b.account in w.connected || !presence)
    ensures v.kids == w.kids && v.info == w.info[b := AfterPresence(w.info[b], b.account in w.connected, presence).0]
  {
    RechosenInv(w, v, norm, b, presence, r);
    RechosenRest(w, v, b, presence, r);
    if PrioritiesOK(w) { RechosenPriorities(w, v, b, presence, r); }
    if OnlineOK(w) { RechosenOnline(w, v, b, presence, r); }
  }

  lemma TimedOutPriorities(w: World, b: Node)
    requires WellFormed(w) && b in w.par && b.kind.Buddy? && PrioritiesOK(w)
    ensures PrioritiesOK(TimedOut(w, b))
  {
    var u, v := WithInfo(w, b, AfterTimeout(w.info[b])), TimedOut(w, b);
    WithInfoPriorities(w, b, AfterTimeout(w.info[b]));
    forall d: Node | d in v.kids && d.kind.Contact? ensures PriorityAt(v, d) { assert PriorityAt(u, d); }
  }

  /** The timeout keeps everything without choosing a new priority buddy: it changes no rank. */
  lemma TimeoutKeeps(w: World, norm: string -> string, b: Node)
    requires Inv(w, norm) && b in w.par && b.kind.Buddy?
    ensures Inv(TimedOut(w, b), norm) && Keeps(w, TimedOut(w, b))
    ensures TimedOut(w, b).kids == w.kids && TimedOut(w, b).info == w.info[b := AfterTimeout(w.info[b])]
  {
    hide SizesOK, NamesOK, IndexOK, OnlineOK, PrioritiesOK, TimersOK;
    TimedOutInv(w, norm, b);
    if PrioritiesOK(w) { TimedOutPriorities(w, b); }
    if OnlineOK(w) { TimedOutOnline(w, b); }
    if TimersOK(w) { TimedOutTimers(w, b); }
  }

  // ------------------------------------------------------------------------- removal

  ghost function BuddyRemovedW(w: World, norm: string -> string, b: Node): World
    requires WellFormed(w) && b in w.par && b.kind.Buddy?
  {
    Detached(w, b).(index := w.index - {Key(norm(b.name), b.account, w.par[w.par[b]])})
  }

  lemma RemovedPriorities(w: World, norm: string -> string, b: Node)
    requires WellFormed(w) && b in w.par && b.kind.Buddy? && PrioritiesOK(w)
    ensures var v, c := BuddyRemovedW(w, norm, b), w.par[b]; PrioritiesOK(v) <==> c !in v.kids || w.prio[c] != b
  {
    var v, c := BuddyRemovedW(w, norm, b), w.par[b];
    DetachedRest(w, b);
    DetachedPriorities(w, b);
    if c in v.kids {
      assert v.kids[c] == Without(w.kids[c], b);
      assert PriorityAt(w, c);
      PriorityWithout(w.kids[c], w.info, w.connected, w.prio[c], b);
      assert PriorityAt(v, c) <==> w.prio[c] != b;
    }
  }

  /** Taking b out leaves the priority buddy right exactly if it was another one. */
  lemma PriorityWithout(s: seq<Node>, info: map<Node, Info>, connected: set<Account>, r: Node?, b: Node)
    requires IsPriority(s, info, connected, r) && Distinct(s) && b in s
    ensures IsPriority(Without(s, b), info, connected, r) <==> r != b
  {
    WithoutMembers(s, b);
    if r != b {
      var i :| 0 <= i < |s| && s[i] == b;
      WithoutAt(s, i);
      PriorityCut(s, i, info, connected, r);
    }
  }

  lemma PriorityCut(s: seq<Node>, i: nat, info: map<Node, Info>, connected: set<Account>, r: Node?)
    requires i < |s| && IsPriority(s, info, connected, r) && r != s[i]
    ensures IsPriority(s[..i] + s[i + 1..], info, connected, r)
  {
    var t := s[..i] + s[i + 1..];
    if r != null {
      var k :| 0 <= k < |s| && s[k] == r && IsFirstBest(s, info, connected, k);
      var l := if k < i then k else k - 1;
      assert t[l] == r && IsFirstBest(t, info, connected, l);
    }
  }

  lemma RemovedTimers(w: World, norm: string -> string, b: Node)
    requires WellFormed(w) && b in w.par && b.kind.Buddy? && TimersOK(w)
    ensures TimersOK(BuddyRemovedW(w, norm, b))
  {
    DetachedRest(w, b);
    TimersStay(w, BuddyRemovedW(w, norm, b));
  }

  lemma RemovedOnline(w: World, norm: string -> string, b: Node)
    requires WellFormed(w) && SizesOK(w) && b in w.par && b.kind.Buddy? && OnlineOK(w)
    ensures OnlineOK(BuddyRemovedW(w, norm, b)) <==> w.info[b].present != SigningOff
  {
    var v := BuddyRemovedW(w, norm, b);
    DetachedRest(w, b);
    if w.info[b].present != SigningOff {
      DetachedOK(w, b);
      OnlineBy(Detached(w, b), v);
    } else {
      RemovedSigningOff(w, b);
      assert v.online == w.online && v.kids == Detached(w, b).kids && v.info == w.info && v.connected == w.connected;
    }
  }

  /** A buddy that is signing off takes its place in the recount with it, but not in the cache. */
  lemma RemovedSigningOff(w: World, b: Node)
    requires WellFormed(w) && b in w.par && b.kind.Buddy? && OnlineOK(w) && w.info[b].present == SigningOff
    ensures Detached(w, b).online == w.online
    ensures !Consistent(Detached(w, b).kids, OnlineF(w.info, w.connected), w.online)
  {
    SameOnline(w, b);
    var f := OnlineF(w.info, w.connected);
    BuddyRemoved(w, f, b);
    if Left(w, b).kids[w.par[b]] != [] { UncountStays(w, f, w.online, b); } else { UncountGoes(w, f, w.online, b); }
  }

  lemma UncountStays(w: World, f: Node -> bool, m: map<Node, int>, b: Node)
    requires WellFormed(w) && b in w.par && b.kind.Buddy? && Consistent(w.kids, f, m) && f(b)
    requires Left(w, b).kids[w.par[b]] != []
    ensures !Consistent(Detached(w, b).kids, f, m)
  {
    var c: Node := w.par[b];
    BuddyRemoved(w, f, b);
    assert Detached(w, b).kids == Removed(w, b).kids;
    assert c in Removed(w, b).kids && m[c] != Tally(Removed(w, b).kids, f, c);
  }

  lemma UncountGoes(w: World, f: Node -> bool, m: map<Node, int>, b: Node)
    requires WellFormed(w) && b in w.par && b.kind.Buddy? && Consistent(w.kids, f, m) && f(b)
    requires Left(w, b).kids[w.par[b]] == []
    ensures !Consistent(Detached(w, b).kids, f, m)
  {
    var c: Node := w.par[b];
    var g: Node := w.par[c];
    var l := Removed(w, b);
    BuddyRemoved(w, f, b);
    LeafRemoved(w, b);
    PrunedTally(l, f, c);
    assert Detached(w, b).kids == Pruned(l, c).kids;
    assert g in Pruned(l, c).kids && m[g] != Tally(Pruned(l, c).kids, f, g);
  }

  lemma PrunedTally(l: World, f: Node -> bool, c: Node)
    requires WellFormed(l) && c in l.par && c.kind.Contact? && l.kids[c] == []
    ensures l.par[c] in Pruned(l, c).kids && Tally(Pruned(l, c).kids, f, l.par[c]) == Tally(l.kids, f, l.par[c])
  {
    ContactRemoved(l, f, c);
    ContactLoosened(l, c);
    ContactDropped(Removed(l, c), f, c);
    assert l.par[c] in Pruned(l, c).kids;
  }

  /** The cached totalsize of a group is its number of contacts and chats. */
  ghost predicate GroupTotalAt(w: World, g: Node) {
    g in w.kids && g in w.total && w.total[g] == |w.kids[g]|
  }

  lemma ListsAbove(w: World, b: Node, c: Node, g: Node)
    requires WellFormed(w) && b in w.par && b.kind.Buddy? && w.par[b] == c && w.par[c] == g
    ensures c in w.kids && b in w.kids[c] && Distinct(w.kids[c]) && c != g && c in w.total
    ensures g in w.kids && c in w.kids[g] && Distinct(w.kids[g])
    ensures var l := Left(w, b);
      l.par == w.par - {b} && l.total == w.total[c := w.total[c] - 1] && l.kids == w.kids[c := Without(w.kids[c], b)]
  {
  }

  /** A contact that goes with its last buddy is still counted by its group. */
  lemma RemovedTotal(w: World, norm: string -> string, b: Node, c: Node, g: Node)
    requires WellFormed(w) && b in w.par && b.kind.Buddy? && w.par[b] == c && w.par[c] == g && GroupTotalAt(w, g)
    ensures GroupTotalAt(BuddyRemovedW(w, norm, b), g) <==> |w.kids[c]| > 1
  {
    ListsAbove(w, b, c, g);
    hide WellFormed, Left, Distinct, Without, Count;
    CountWithout(w.kids[c], b, _ => true);
    CountWithout(w.kids[g], c, _ => true);
  }

  lemma RemovedKeeps(w: World, norm: string -> string, b: Node)
    requires Inv(w, norm) && b in w.par && b.kind.Buddy?
    ensures var v, c := BuddyRemovedW(w, norm, b), w.par[b];
      && Inv(v, norm)
      && (PrioritiesOK(w) ==> (PrioritiesOK(v) <==> c !in v.kids || w.prio[c] != b))
      && (OnlineOK(w) ==> (OnlineOK(v) <==> w.info[b].present != SigningOff))
      && (TimersOK(w) ==> TimersOK(v))
  {
    if TimersOK(w) { RemovedTimers(w, norm, b); }
    DetachedOK(w, b);
    DetachedIndex(w, norm, b);
    DetachedNames(w, b);
    if PrioritiesOK(w) { RemovedPriorities(w, norm, b); }
    if OnlineOK(w) { RemovedOnline(w, norm, b); }
  }

  lemma ChatLiftedIndex(w: World, norm: string -> string, x: Node)
    requires WellFormed(w) && IndexOK(w, norm, w.index) && x in w.par && x.kind.Chat?
    ensures IndexOK(ChatLifted(w, x), norm, ChatLifted(w, x).index)
  {
    assert Childless(w.par, x);
    KeysRemoved(w.par, norm, x);
    assert x !in Keys(w.par, norm);
    assert Keys(w.par, norm) - {x} == Keys(w.par, norm);
  }

  lemma ChatLiftedRest(w: World, x: Node)
    requires WellFormed(w) && x in w.par && x.kind.Chat? && WellFormed(ChatLifted(w, x))
    ensures NamesOK(w) ==> NamesOK(ChatLifted(w, x))
    ensures PrioritiesOK(w) ==> PrioritiesOK(ChatLifted(w, x))
    ensures TimersOK(w) ==> TimersOK(ChatLifted(w, x))
  {
    assert ChatLifted(w, x).kids[null] == w.kids[null];
  }

  /** Removing a chat keeps everything. */
  lemma ChatLiftedInv(w: World, norm: string -> string, x: Node)
    requires Inv(w, norm) && x in w.par && x.kind.Chat?
    ensures Inv(ChatLifted(w, x), norm) && Keeps(w, ChatLifted(w, x))
  {
    ChatLiftedOK(w, x);
    ChatLiftedSizes(w, x);
    ChatLiftedIndex(w, norm, x);
    ChatLiftedRest(w, x);
    if OnlineOK(w) { ChatLiftedOnline(w, x); }
  }
}
