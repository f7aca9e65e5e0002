/** The pool of DNS children: lookups are given to idle children, to new ones while there are few, or queued. */
module DnsPools {

  /** A lookup that a caller has asked for, with its callback and its data. */
  type Lookup = nat

  /** A child process, by its process id. */
  type Child = nat

  const MAX_DNS_CHILDREN: nat := 2

  /** What the parent reads when a child's descriptor becomes readable. */
  datatype Answer = Resolved | DnsError | ReadError | Eof

  /** A call of gaim_gethostbyname_async: sends[i] says whether the i-th idle child would take the
      request, fork whether a new child could be made. */
  datatype Call = Call(lookup: Lookup, sends: seq<bool>, fork: bool)

  ghost predicate NoRepeats(s: seq<nat>) {
    forall i, j :: 0 <= i < j < |s| ==> s[i] != s[j]
  }

  ghost predicate Injective(m: map<Child, Lookup>) {
    forall c, d {:trigger m[c], m[d]} :: c in m && d in m && m[c] == m[d] ==> c == d
  }

  /** Every accepted lookup is in exactly one place, and once: queued, held by a child, or called back. */
  ghost predicate Partition(accepted: set<Lookup>, queue: seq<Lookup>, held: map<Child, Lookup>, called: seq<Lookup>) {
    && (forall l :: l in accepted <==> l in queue || l in held.Values || l in called)
    && (forall l :: l in queue ==> l !in held.Values && l !in called)
    && (forall l :: l in held.Values ==> l !in called)
    && NoRepeats(queue) && NoRepeats(called) && Injective(held)
  }

  lemma HeldMore(held: map<Child, Lookup>, c: Child, l: Lookup)
    requires Injective(held) && c !in held && l !in held.Values
    ensures held[c := l].Values == held.Values + {l} && Injective(held[c := l])
  {
    var m := held[c := l];
    forall x | x in held.Values + {l} ensures x in m.Values {
      if x in held.Values {
        var d :| d in held && held[d] == x;
        assert m[d] == x;
      } else {
        assert m[c] == x;
      }
    }
  }

  lemma HeldLess(held: map<Child, Lookup>, c: Child)
    requires Injective(held) && c in held
    ensures (held - {c}).Values == held.Values - {held[c]} && Injective(held - {c})
  {
    var m := held - {c};
    forall x | x in held.Values - {held[c]} ensures x in m.Values {
      var d :| d in held && held[d] == x;
      assert m[d] == x;
    }
  }

  /** A new lookup at the end of the queue, or held by another child. */
  lemma PartitionMore(accepted: set<Lookup>, queue: seq<Lookup>, held: map<Child, Lookup>, called: seq<Lookup>,
        l: Lookup, c: Child)
    requires Partition(accepted, queue, held, called) && l !in accepted && c !in held
    ensures Partition(accepted + {l}, queue + [l], held, called)
    ensures Partition(accepted + {l}, queue, held[c := l], called)
  {
    HeldMore(held, c, l);
  }

  /** A held lookup is called back. */
  lemma PartitionCalled(accepted: set<Lookup>, queue: seq<Lookup>, held: map<Child, Lookup>, called: seq<Lookup>,
        c: Child)
    requires Partition(accepted, queue, held, called) && c in held
    ensures Partition(accepted, queue, held - {c}, called + [held[c]])
  {
    HeldLess(held, c);
    assert held[c] in held.Values;
  }

  /** The first of the queue is given to a child. */
  lemma PartitionServed(accepted: set<Lookup>, queue: seq<Lookup>, held: map<Child, Lookup>, called: seq<Lookup>,
        c: Child)
    requires Partition(accepted, queue, held, called) && queue != [] && c !in held
    ensures Partition(accepted, queue[1..], held[c := queue[0]], called)
  {
    var l := queue[0];
    assert l in queue;
    HeldMore(held, c, l);
    assert forall x :: x in queue <==> x == l || x in queue[1..];
  }

  /** The place of the first child that will take the request, or the number of children. */
  function FirstAlive(free: seq<Child>, sends: seq<bool>): (k: nat)
    ensures k <= |free|
  {
    if free == [] then 0
    else if sends != [] && sends[0] then 0
    else 1 + FirstAlive(free[1..], if sends == [] then [] else sends[1..])
  }

  /** What the parent knows of its children and of the lookups that wait. */
  datatype State = State(free: seq<Child>, queue: seq<Lookup>, number: int, held: map<Child, Lookup>, nextPid: Child)

  /** There is an idle child that takes the request. */
  predicate Takes(s: State, call: Call) {
    FirstAlive(s.free, call.sends) < |s.free|
  }

  /** The idle children that do not take the request are gone; the first that does has it. */
  function Searched(s: State, call: Call): State {
    var k := FirstAlive(s.free, call.sends);
    if k < |s.free| then
      s.(free := s.free[k + 1..], number := s.number - k, held := s.held[s.free[k] := call.lookup])
    else s.(free := [], number := s.number - k)
  }

  /** Otherwise it goes to the end of the queue, or to a new child if there may be one more. */
  function Forked(s: State, call: Call): State {
    if s.number >= MAX_DNS_CHILDREN then s.(queue := s.queue + [call.lookup])
    else if call.fork then
      s.(number := s.number + 1, held := s.held[s.nextPid := call.lookup], nextPid := s.nextPid + 1)
    else s
  }

  /** A call of gaim_gethostbyname_async. */
  function Submitted(s: State, call: Call): State {
    if Takes(s, call) then Searched(s, call) else Forked(Searched(s, call), call)
  }

  /** The call cannot be taken by any child, and cannot wait for one either. */
  predicate Refused(s: State, call: Call) {
    !Takes(s, call) && Searched(s, call).number < MAX_DNS_CHILDREN && !call.fork
  }

  function AllSubmitted(s: State, calls: seq<Call>): State {
    if calls == [] then s else Submitted(AllSubmitted(s, calls[..|calls| - 1]), calls[|calls| - 1])
  }

  predicate Answers(answer: Answer) {
    answer == Resolved || answer == DnsError
  }

  /** After the callback of c's lookup, which makes the calls, and before c is dealt with. */
  function Waiting(s: State, c: Child, calls: seq<Call>): State {
    AllSubmitted(s.(held := s.held - {c}), calls)
  }

  /** What becomes of c: it takes the first of the queue, becomes idle, or is gone. */
  function Resumed(s: State, c: Child, answer: Answer, send: bool): State {
    if Answers(answer) && s.queue == [] then s.(free := s.free + [c])
    else if Answers(answer) && send then s.(queue := s.queue[1..], held := s.held[c := s.queue[0]])
    else s.(number := s.number - 1)
  }

  /** From s on, each of the first n calls has made of one state the next, and t is the last. */
  ghost predicate Traced(trace: seq<State>, s: State, calls: seq<Call>, n: nat, t: State) {
    && n <= |calls| && |trace| == n + 1 && trace[0] == s && trace[n] == t
    && forall i | 0 <= i < n :: trace[i + 1] == Submitted(trace[i], calls[i])
  }

  lemma TracedNone(s: State, calls: seq<Call>)
    ensures Traced([s], s, calls, 0, s)
  {
  }

  lemma TracedMore(trace: seq<State>, s: State, calls: seq<Call>, n: nat, t: State, u: State)
    requires Traced(trace, s, calls, n, t) && n < |calls| && u == Submitted(t, calls[n])
    ensures Traced(trace + [u], s, calls, n + 1, u)
  {
  }

  /** The lookups among those called for that are accepted. */
  function Admitted(s: State, calls: seq<Call>): set<Lookup> {
    if calls == [] then {}
    else
      var before, call := calls[..|calls| - 1], calls[|calls| - 1];
      Admitted(s, before) + if Refused(AllSubmitted(s, before), call) then {} else {call.lookup}
  }

  lemma SearchedKeeps(s: State, call: Call)
    ensures Searched(s, call).queue == s.queue && (s.free == [] ==> !Takes(s, call) && Searched(s, call) == s)
    ensures !Takes(s, call) ==> !Takes(Searched(s, call), call)
    ensures !Takes(s, call) ==> Searched(Searched(s, call), call) == Searched(s, call)
  {
  }

  /** The first idle child that takes the request is the first whose pipe does. */
  lemma {:induction false} FirstAliveIs(free: seq<Child>, sends: seq<bool>)
    ensures var k := FirstAlive(free, sends);
      && (forall j :: 0 <= j < k && j < |sends| ==> !sends[j])
      && (k < |free| ==> k < |sends| && sends[k])
  {
    if free != [] && !(sends != [] && sends[0]) {
      FirstAliveIs(free[1..], if sends == [] then [] else sends[1..]);
    }
  }

  /** Child k is the first whose pipe takes the request: it has the lookup, and those before it are gone. */
  lemma GivenTo(s: State, call: Call, k: nat)
    requires k < |s.free| && k < |call.sends| && call.sends[k] && forall j :: 0 <= j < k ==> !call.sends[j]
    ensures !Refused(s, call)
    ensures Submitted(s, call) ==
      State(s.free[k + 1..], s.queue, s.number - k, s.held[s.free[k] := call.lookup], s.nextPid)
  {
    FirstAliveIs(s.free, call.sends);
    var i := FirstAlive(s.free, call.sends);
    assert i == k;
  }

  /** No idle child takes it: all are gone, and if that leaves less than two, a new one has the lookup, or none. */
  lemma GivenToNone(s: State, call: Call)
    requires forall j :: 0 <= j < |s.free| && j < |call.sends| ==> !call.sends[j]
    ensures var n := s.number - |s.free|;
      && (Refused(s, call) <==> n < 2 && !call.fork)
      && Submitted(s, call) ==
        if n >= 2 then State([], s.queue + [call.lookup], n, s.held, s.nextPid)
        else if call.fork then State([], s.queue, n + 1, s.held[s.nextPid := call.lookup], s.nextPid + 1)
        else State([], s.queue, n, s.held, s.nextPid)
  {
    FirstAliveIs(s.free, call.sends);
  }

  class Pool {
    var free: seq<Child>             // idle children
    var queue: seq<Lookup>
    var number: int
    var held: map<Child, Lookup>     // the children the main loop watches, and what they look up
    var nextPid: Child

    ghost var finishing: set<Child>  // children whose answer is being handed on
    ghost var accepted: set<Lookup>
    ghost var called: seq<Lookup>    // the callbacks made, in their order
    ghost var enqueued: seq<Lookup>  // the lookups that were queued, in their order
    ghost var served: seq<Lookup>    // those of them that a child has taken, in their order

    ghost function Now(): State
      reads this
    {
      State(free, queue, number, held, nextPid)
    }

    /** The children are of one kind each, counted by number, and few. */
    ghost predicate ChildrenOK()
      reads this
    {
      && NoRepeats(free) && (forall c :: c in free ==> c !in held && c !in finishing && c < nextPid)
      && (forall c :: c in held ==> c !in finishing && c < nextPid) && (forall c :: c in finishing ==> c < nextPid)
      && number == |free| + |held| + |finishing| <= MAX_DNS_CHILDREN
    }

    ghost predicate Valid()
      reads this
    {
      && ChildrenOK()
      && Partition(accepted, queue, held, called)
      && (queue != [] ==> free == [])
      && enqueued == served + queue
    }

    /** While lookups wait there are as many children as there may be. */
    ghost predicate Fair()
      reads this
    {
      queue != [] ==> number >= MAX_DNS_CHILDREN
    }

    constructor ()
      ensures Valid() && Fair() && finishing == {} && accepted == {} && called == []
      ensures free == queue == enqueued == [] && held == map[] && number == 0 && nextPid == 0
    {
      free, queue, number, held, nextPid := [], [], 0, map[], 0;
      finishing, accepted, called, enqueued, served := {}, {}, [], [], [];
    }

    /** The first idle child that will take the request; those before it are freed. */
    method FindIdle(sends: seq<bool>) returns (found: bool, c: Child)
      requires Valid()
      modifies `free, `number
      ensures var k := FirstAlive(old(free), sends);
        if k < |old(free)| then
          found && c == old(free)[k] && free == old(free)[k + 1..] && number == old(number) - k
        else
          !found && free == [] && number == old(number) - k
    {
      found, c := false, 0;
      var i := 0;
      while free != [] && !found
        invariant i <= |old(free)|
        invariant found ==> 0 < i && c == old(free)[i - 1] && FirstAlive(old(free), sends) == i - 1
        invariant free == old(free)[i..] && number == old(number) - i + (if found then 1 else 0)
        invariant !found ==>
            FirstAlive(old(free), sends) == i + FirstAlive(free, sends[if i < |sends| then i else |sends|..])
        decreases |free|
      {
        c := free[0];
        free := free[1..];
        if i < |sends| && sends[i] { found := true; } else { number := number - 1; }
        i := i + 1;
      }
    }

    /** l, which has just come in, waits at the end of the queue. */
    method Enqueue(l: Lookup)
      requires Valid() && l !in accepted && free == []
      modifies `queue, `accepted, `enqueued
      ensures enqueued == old(enqueued) + [l]
      ensures Valid() && queue == old(queue) + [l] && accepted == old(accepted) + {l}
    {
      hide Partition;
      PartitionMore(accepted, queue, held, called, l, nextPid);
      queue := queue + [l];
      accepted, enqueued := accepted + {l}, enqueued + [l];
    }

    /** The child c, which is nothing else yet, takes l, which has just come in. */
    method Take(c: Child, l: Lookup)
      requires Partition(accepted, queue, held, called) && l !in accepted && c !in held
      modifies `held, `accepted
      ensures Partition(accepted, queue, held, called) && held == old(held)[c := l] && accepted == old(accepted) + {l}
    {
      hide Partition;
      PartitionMore(accepted, queue, held, called, l, c);
      held := held[c := l];
      accepted := accepted + {l};
    }

    /** An idle child is given the request, if one takes it. */
    method TakeIdle(call: Call) returns (found: bool)
      requires Valid() && call.lookup !in accepted
      modifies `free, `number, `held, `accepted
      ensures Valid() && Now() == Searched(old(Now()), call) && found == Takes(old(Now()), call)
      ensures accepted == old(accepted) + (if found then {call.lookup} else {}) && (!found ==> free == [])
    {
      hide Partition;
      assert forall i :: 0 <= i < |free| ==> free[i] in free;
      var c;
      found, c := FindIdle(call.sends);
      if found {
        Take(c, call.lookup);
      }
    }

    /** The rest of gaim_gethostbyname_async when no idle child has taken the request. */
    method ForkOrQueue(call: Call) returns (rc: int)
      requires Valid() && call.lookup !in accepted && free == []
      modifies `number, `queue, `held, `nextPid, `accepted, `enqueued
      ensures Valid()
      ensures Now() == Forked(old(Now()), call) && rc == if Refused(old(Now()), call) then -1 else 0
      ensures accepted == old(accepted) + if rc == 0 then {call.lookup} else {}
      ensures old(enqueued) <= enqueued
    {
      hide Partition;
      if number >= MAX_DNS_CHILDREN {
        Enqueue(call.lookup);
        return 0;
      }
      if !call.fork { return -1; }
      var c := nextPid;
      nextPid := nextPid + 1;
      number := number + 1;
      Take(c, call.lookup);
      return 0;
    }

    /** gaim_gethostbyname_async: 0 if the lookup is taken or queued, -1 if no child could be made. */
    method Submit(call: Call) returns (rc: int)
      requires Valid() && call.lookup !in accepted
      modifies `free, `number, `queue, `held, `nextPid, `accepted, `enqueued
      ensures Valid() && (old(Fair()) ==> Fair())
      ensures accepted == (old(accepted) + if rc == 0 then {call.lookup} else {}) && old(enqueued) <= enqueued
      ensures Now() == Submitted(old(Now()), call) && rc == if Refused(old(Now()), call) then -1 else 0
      ensures forall k | 0 <= k < |old(free)| && k < |call.sends| && call.sends[k] &&
          forall j | 0 <= j < k :: !call.sends[j] ::
        && rc == 0 && free == old(free)[k + 1..] && held == old(held)[old(free)[k] := call.lookup]
        && number == old(number) - k && queue == old(queue) && nextPid == old(nextPid)
      ensures (forall k :: 0 <= k < |old(free)| && k < |call.sends| ==> !call.sends[k]) ==>
        var n := old(number) - |old(free)|;
        && free == []
        && if n >= 2 then
             && rc == 0 && queue == old(queue) + [call.lookup] && number == n && held == old(held)
             && nextPid == old(nextPid)
           else if call.fork then
             && rc == 0 && queue == old(queue) && number == n + 1 && held == old(held)[old(nextPid) := call.lookup]
             && nextPid == old(nextPid) + 1
           else
             rc == -1 && queue == old(queue) && number == n && held == old(held) && nextPid == old(nextPid)
    {
      rc := Place(call);
      ghost var s := old(Now());
      forall k | 0 <= k < |s.free| && k < |call.sends| && call.sends[k] && forall j :: 0 <= j < k ==> !call.sends[j]
        ensures !Refused(s, call)
        ensures Submitted(s, call) ==
          State(s.free[k + 1..], s.queue, s.number - k, s.held[s.free[k] := call.lookup], s.nextPid)
      {
        GivenTo(s, call, k);
      }
      if forall k :: 0 <= k < |s.free| && k < |call.sends| ==> !call.sends[k] { GivenToNone(s, call); }
    }

    /** The same over the whole state, which is what callbacks go by. */
    method Place(call: Call) returns (rc: int)
      requires Valid() && call.lookup !in accepted
      modifies `free, `number, `queue, `held, `nextPid, `accepted, `enqueued
      ensures Valid() && (old(Fair()) ==> Fair())
      ensures accepted == (old(accepted) + if rc == 0 then {call.lookup} else {}) && old(enqueued) <= enqueued
      ensures Now() == Submitted(old(Now()), call) && rc == if Refused(old(Now()), call) then -1 else 0
    {
      hide Partition, Pool.ChildrenOK, Searched, Takes;
      SearchedKeeps(Now(), call);
      var found := TakeIdle(call);
      if found {
        return 0;
      }
      rc := ForkOrQueue(call);
    }

    /** req_free */
    method Discard(c: Child)
      requires Valid() && c in finishing
      modifies `number, `finishing
      ensures Valid() && number == old(number) - 1 && finishing == old(finishing) - {c}
    {
      number := number - 1;
      finishing := finishing - {c};
    }

    /** The first of the queue is taken by c. */
    method Serve(c: Child)
      requires Valid() && c in finishing && queue != []
      modifies `queue, `held, `finishing, `served
      ensures old(served) <= served
      ensures Valid() && finishing == old(finishing) - {c}
      ensures queue == old(queue)[1..] && held == old(held)[c := old(queue)[0]]
    {
      hide Partition;
      var r := queue[0];
      PartitionServed(accepted, queue, held, called, c);
      assert served + queue == served + [r] + queue[1..];
      queue := queue[1..];
      held := held[c := r];
      finishing, served := finishing - {c}, served + [r];
    }

    /** c becomes idle. */
    method Retire(c: Child)
      requires Valid() && c in finishing && queue == []
      modifies `free, `finishing
      ensures Valid() && finishing == old(finishing) - {c} && free == old(free) + [c]
    {
      hide Partition;
      free := free + [c];
      finishing := finishing - {c};
    }

    /** release_dns_child: the child gets the first of the queue, or becomes idle; send says whether it takes it. */
    method Release(c: Child, send: bool)
      requires Valid() && c in finishing
      modifies `free, `number, `queue, `held, `finishing, `served
      ensures old(served) <= served
      ensures Valid() && finishing == old(finishing) - {c}
      ensures if old(queue) == [] then
          queue == [] && free == old(free) + [c] && number == old(number) && held == old(held)
        else if send then
          queue == old(queue)[1..] && held == old(held)[c := old(queue)[0]] && number == old(number)
        else
          queue == old(queue) && number == old(number) - 1 && held == old(held)
    {
      hide Partition;
      if queue != [] {
        var r := queue[0];
        if !send {
          queue := queue[1..];
          queue := [r] + queue;
          assert queue == old(queue);
          Discard(c);
        } else {
          Serve(c);
        }
      } else {
        Retire(c);
      }
    }

    /** c's lookup is called back. */
    method Finish(c: Child)
      requires Valid() && c in held
      modifies `held, `finishing, `called
      ensures Valid() && held == old(held) - {c} && finishing == old(finishing) + {c}
      ensures called == old(called) + [old(held)[c]]
    {
      hide Partition;
      PartitionCalled(accepted, queue, held, called, c);
      called := called + [held[c]];
      held := held - {c};
      finishing := finishing + {c};
    }

    /** The callback of the lookup that c has answered; it may ask for more lookups. */
    method CallBack(c: Child, calls: seq<Call>) returns (ghost trace: seq<State>)
      requires Valid() && c in held
      requires forall i, j :: 0 <= i < j < |calls| ==> calls[i].lookup != calls[j].lookup
      requires forall i :: 0 <= i < |calls| ==> calls[i].lookup !in accepted
      modifies this
      ensures Valid() && finishing == old(finishing) + {c} && called == old(called) + [old(held)[c]]
      ensures served == old(served) && old(enqueued) <= enqueued && (old(Fair()) ==> Fair())
      ensures Now() == Waiting(old(Now()), c, calls)
      ensures Traced(trace, old(Now().(held := held - {c})), calls, |calls|, Now())
      ensures accepted == old(accepted) + Admitted(old(Now().(held := held - {c})), calls)
    {
      hide Partition, Pool.Valid, Submitted, Refused, Traced;
      ghost var start := Now().(held := held - {c});
      Finish(c);
      trace := [Now()];
      TracedNone(start, calls);
      var i := 0;
      while i < |calls|
        invariant i <= |calls| && Valid() && (old(Fair()) ==> Fair())
        invariant finishing == old(finishing) + {c} && called == old(called) + [old(held)[c]]
        invariant served == old(served) && old(enqueued) <= enqueued
        invariant Now() == AllSubmitted(start, calls[..i])
        invariant Traced(trace, start, calls, i, Now())
        invariant accepted == old(accepted) + Admitted(start, calls[..i])
        invariant forall k :: i <= k < |calls| ==> calls[k].lookup !in accepted
      {
        ghost var s := Now();
        var rc := Place(calls[i]);
        TracedMore(trace, start, calls, i, s, Now());
        trace := trace + [Now()];
        assert calls[..i + 1][..i] == calls[..i];
        i := i + 1;
      }
      assert calls[..i] == calls;
    }

    /** host_resolved: c's descriptor has become readable. If lookups still wait after the callback, they keep a child
        to wait for exactly when c has answered and takes the first of them. trace has the state of the pool once the
        lookup is off c's hands, and after each call of the callback. */
    method HostResolved(c: Child, answer: Answer, calls: seq<Call>, send: bool) returns (ghost trace: seq<State>)
      requires Valid() && c in held && finishing == {}
      requires forall i, j :: 0 <= i < j < |calls| ==> calls[i].lookup != calls[j].lookup
      requires forall i :: 0 <= i < |calls| ==> calls[i].lookup !in accepted
      modifies this
      ensures Valid() && finishing == {} && called == old(called) + [old(held)[c]]
      ensures old(served) <= served && old(enqueued) <= enqueued
      ensures Now() == Resumed(Waiting(old(Now()), c, calls), c, answer, send)
      ensures |trace| == |calls| + 1
      ensures trace[0] == State(old(free), old(queue), old(number), old(held) - {c}, old(nextPid))
      ensures forall i | 0 <= i < |calls| :: trace[i + 1] == Submitted(trace[i], calls[i])
      ensures var s := trace[|calls|];
        && nextPid == s.nextPid
        && if (answer == Resolved || answer == DnsError) && s.queue == [] then
             queue == [] && free == s.free + [c] && number == s.number && held == s.held
           else if (answer == Resolved || answer == DnsError) && send then
             queue == s.queue[1..] && free == s.free && number == s.number && held == s.held[c := s.queue[0]]
           else
             queue == s.queue && free == s.free && number == s.number - 1 && held == s.held
      ensures accepted == old(accepted) + Admitted(old(Now().(held := held - {c})), calls)
      ensures old(Fair()) ==> (Fair() <==> Waiting(old(Now()), c, calls).queue == [] || (Answers(answer) && send))
    {
      hide Partition, AllSubmitted, Admitted;
      trace := CallBack(c, calls);
      if Answers(answer) {
        Release(c, send);
      } else {
        Discard(c);
      }
    }
  }

  /** As many children as there may be are busy, and one lookup waits. */
  method Busy() returns (p: Pool)
    ensures fresh(p) && p.Valid() && p.Fair() && p.finishing == {} && p.accepted == {0, 1, 2}
    ensures p.Now() == State([], [2], 2, map[0 := 0, 1 := 1], 2)
  {
    hide Partition, Pool.ChildrenOK, Pool.Valid, Searched, Takes;
    p := new Pool();
    SearchedKeeps(p.Now(), Call(0, [], true));
    var r := p.Submit(Call(0, [], true));
    assert p.Now() == State([], [], 1, map[0 := 0], 1);
    SearchedKeeps(p.Now(), Call(1, [], true));
    r := p.Submit(Call(1, [], true));
    assert p.Now() == State([], [], 2, map[0 := 0, 1 := 1], 2);
    SearchedKeeps(p.Now(), Call(2, [], true));
    r := p.Submit(Call(2, [], true));
  }

  /** Children that die leave the queue without any child, and a lookup that comes in later goes ahead of it. */
  method Stranded() returns (p: Pool)
    ensures p.Valid() && !p.Fair() && p.queue == [2] && p.held == map[2 := 3]
  {
    hide Partition, Pool.ChildrenOK;
    p := Busy();
    ghost var t := p.HostResolved(0, Eof, [], true);
    t := p.HostResolved(1, Eof, [], true);
    assert p.Now() == State([], [2], 0, map[], 2);
    var r := p.Submit(Call(3, [], true));
    assert p.held == map[2 := 3];
  }
}
