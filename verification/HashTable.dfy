/** Expat's hash table: open addressing with descending linear probing, doubled at half load. */
module HashTables {

  /** A character of a key, which is a NUL-terminated string in memory. */
  newtype Byte = x: int | 1 <= x < 256 witness 1
  type Key = seq<Byte>

  const INIT_SIZE: nat := 64
  const ULONG: nat := 0x1_0000_0000_0000_0000

  class Named {
    const name: Key

    constructor (name: Key)
      ensures this.name == name
    {
      this.name := name;
    }
  }

  // ------------------------------------------------------------------ keys and hashes

  function Char(s: Key, i: nat): nat {
    if i < |s| then s[i] as nat else 0
  }

  /** keyeq on NUL-terminated strings. */
  method KeyEq(s1: Key, s2: Key) returns (r: bool)
    ensures r <==> s1 == s2
  {
    var i := 0;
    while Char(s1, i) == Char(s2, i)
      invariant i <= |s1| && i <= |s2|
      invariant forall k :: 0 <= k < i ==> s1[k] == s2[k]
      decreases |s1| - i
    {
      if Char(s1, i) == 0 { return true; }
      i := i + 1;
    }
    return false;
  }

  /** Times 33 plus the character, modulo 2^64. */
  function Hash(s: Key): (h: nat)
    ensures h < ULONG
  {
    if s == [] then 0 else (Hash(s[..|s| - 1]) * 33 + s[|s| - 1] as nat) % ULONG
  }

  /** The hash of "ab": 33 times 'a', and 'b'. */
  lemma HashSample()
    ensures Hash([97, 98]) == 3299
  {
    assert [97 as Byte, 98 as Byte][..1] == [97] && [97 as Byte][..0] == [];
    assert Hash([97]) == 97;
  }

  /** hash, with the shift and the sums of an unsigned 64-bit word. */
  method HashOf(s: Key) returns (h: nat)
    ensures h == Hash(s)
  {
    h := 0;
    var i := 0;
    while i < |s|
      invariant i <= |s| && h == Hash(s[..i])
    {
      assert s[..i + 1][..i] == s[..i];
      Wrapped(h * 32, h + s[i] as nat);
      h := (h * 32 % ULONG + h + s[i] as nat) % ULONG;
      i := i + 1;
    }
    assert s[..i] == s;
  }

  lemma Wrapped(a: nat, b: nat)
    ensures (a % ULONG + b) % ULONG == (a + b) % ULONG
  {
    var q := a / ULONG;
    assert a + b == a % ULONG + b + q * ULONG;
    Shifted(a % ULONG + b, q);
  }

  lemma {:induction false} Shifted(x: nat, q: nat)
    ensures (x + q * ULONG) % ULONG == x % ULONG
  {
    if q > 0 {
      Shifted(x, q - 1);
      assert x + q * ULONG == x + (q - 1) * ULONG + ULONG;
    }
  }

  // ------------------------------------------------------------------------ the slots

  /** a & b */
  function And(a: nat, b: nat): (r: nat)
    ensures r <= b
  {
    if a == 0 || b == 0 then 0 else 2 * And(a / 2, b / 2) + if a % 2 == 1 && b % 2 == 1 then 1 else 0
  }

  predicate PowerOfTwo(n: nat) {
    n == 1 || (n > 0 && n % 2 == 0 && PowerOfTwo(n / 2))
  }

  /** With the size less one as a mask, every slot of a table whose size is a power of two is used alike. */
  lemma {:induction false} MaskIsRemainder(a: nat, n: nat)
    requires PowerOfTwo(n)
    ensures And(a, n - 1) == a % n
  {
    if n > 1 {
      MaskIsRemainder(a / 2, n / 2);
      assert (n - 1) / 2 == n / 2 - 1;
      HalfRemainder(a, n / 2);
    }
  }

  lemma HalfRemainder(a: nat, m: nat)
    requires m > 0
    ensures a % (2 * m) == 2 * (a / 2 % m) + a % 2
  {
    var h := a / 2;
    var q, r := h / m, h % m;
    assert a == q * (2 * m) + (2 * r + a % 2) by {
      assert h == q * m + r;
    }
    RemainderIs(a, 2 * m, q, 2 * r + a % 2);
  }

  lemma RemainderIs(a: nat, n: nat, q: nat, r: nat)
    requires r < n && a == q * n + r
    ensures a % n == r
  {
    var x, y := a / n, a % n;
    assert a == x * n + y;
    if q > x {
      OneApart(q, x, n);
    } else if x > q {
      OneApart(x, q, n);
    }
  }

  lemma OneApart(q: nat, x: nat, n: nat)
    requires q > x
    ensures q * n >= x * n + n
  {
    assert q * n - x * n == (q - x) * n;
    assert (q - x) * n == n + (q - x - 1) * n;
  }

  function Home(name: Key, n: nat): (h: nat)
    requires n > 0
    ensures h < n
  {
    And(Hash(name), n - 1)
  }

  /** k is passed on the way down from h, round the end, before j is reached. */
  ghost predicate OnPath(h: int, j: int, k: int) {
    if j <= h then j < k <= h else k <= h || j < k
  }

  /** The way goes down: k is passed if it is less far below h, round the end, than j is. */
  lemma PathDown(h: int, j: int, k: int, n: int)
    requires 0 <= h < n && 0 <= j < n && 0 <= k < n
    ensures OnPath(h, j, k) <==> (if k <= h then h - k else h - k + n) < if j <= h then h - j else h - j + n
  {
  }

  /** Every slot passed on the way from h to j is occupied. */
  ghost predicate Reached(t: seq<Named?>, h: int, j: int) {
    forall k {:trigger t[k]} :: 0 <= k < |t| && OnPath(h, j, k) ==> t[k] != null
  }

  ghost predicate DistinctNames(t: seq<Named?>) {
    forall i, j {:trigger t[i], t[j]} ::
        0 <= i < |t| && 0 <= j < |t| && t[i] != null && t[j] != null && t[i].name == t[j].name ==> i == j
  }

  ghost predicate AllReached(t: seq<Named?>)
    requires |t| > 0
  {
    forall j {:trigger t[j]} :: 0 <= j < |t| && t[j] != null ==> Reached(t, Home(t[j].name, |t|), j)
  }

  ghost predicate SlotsOK(t: seq<Named?>) {
    |t| > 0 && DistinctNames(t) && AllReached(t)
  }

  /** The number of occupied slots. */
  ghost function Used(t: seq<Named?>): nat {
    if t == [] then 0 else Used(t[..|t| - 1]) + if t[|t| - 1] != null then 1 else 0
  }

  lemma {:induction false} UsedUpdate(t: seq<Named?>, i: nat, e: Named)
    requires i < |t| && t[i] == null
    ensures Used(t[i := e]) == Used(t) + 1
  {
    var n := |t| - 1;
    if i < n {
      UsedUpdate(t[..n], i, e);
      assert t[i := e][..n] == t[..n][i := e];
    } else {
      assert t[i := e][..n] == t[..n];
    }
  }

  lemma {:induction false} EmptySlot(t: seq<Named?>) returns (e: nat)
    requires Used(t) < |t|
    ensures e < |t| && t[e] == null
  {
    var n := |t| - 1;
    if t[n] == null { e := n; } else { e := EmptySlot(t[..n]); }
  }

  lemma {:induction false} NoneUsed(t: seq<Named?>)
    requires forall i :: 0 <= i < |t| ==> t[i] == null
    ensures Used(t) == 0
  {
    if t != [] { NoneUsed(t[..|t| - 1]); }
  }

  /** The map the slots stand for. */
  ghost function Contents(t: seq<Named?>): map<Key, Named>
    requires DistinctNames(t)
  {
    map j | 0 <= j < |t| && t[j] != null :: t[j].name := t[j]
  }

  /** A name that is not met on the way to an empty slot is nowhere. */
  lemma Missing(t: seq<Named?>, name: Key, i: nat)
    requires SlotsOK(t) && i < |t| && t[i] == null && Reached(t, Home(name, |t|), i)
    requires forall k {:trigger t[k]} ::
        0 <= k < |t| && OnPath(Home(name, |t|), i, k) && t[k] != null ==> t[k].name != name
    ensures name !in Contents(t)
  {
    forall j | 0 <= j < |t| && t[j] != null ensures t[j].name != name {
      assert Reached(t, Home(t[j].name, |t|), j);
    }
  }

  /** An entry put into the first empty slot on its path. */
  lemma Put(t: seq<Named?>, e: Named, i: nat)
    requires SlotsOK(t) && i < |t| && t[i] == null && Reached(t, Home(e.name, |t|), i) && e.name !in Contents(t)
    ensures SlotsOK(t[i := e]) && Used(t[i := e]) == Used(t) + 1 && Contents(t[i := e]) == Contents(t)[e.name := e]
  {
    UsedUpdate(t, i, e);
    PutContents(t, e, i);
    PutReached(t, e, i);
  }

  lemma PutContents(t: seq<Named?>, e: Named, i: nat)
    requires DistinctNames(t) && i < |t| && t[i] == null && e.name !in Contents(t)
    ensures DistinctNames(t[i := e]) && Contents(t[i := e]) == Contents(t)[e.name := e]
  {
    var u := t[i := e];
    assert u[i] == e;
    forall j | 0 <= j < |t| && t[j] != null ensures t[j].name != e.name && u[j] == t[j] {
      assert t[j].name in Contents(t);
    }
  }

  lemma PutReached(t: seq<Named?>, e: Named, i: nat)
    requires |t| > 0 && AllReached(t) && i < |t| && t[i] == null && Reached(t, Home(e.name, |t|), i)
    ensures AllReached(t[i := e])
  {
    var u := t[i := e];
    forall j | 0 <= j < |u| && u[j] != null ensures Reached(u, Home(u[j].name, |u|), j) {
      assert j != i ==> Reached(t, Home(t[j].name, |t|), j);
    }
  }

  lemma NothingIn(t: seq<Named?>)
    requires |t| > 0 && forall i :: 0 <= i < |t| ==> t[i] == null
    ensures SlotsOK(t) && Used(t) == 0 && Contents(t) == map[]
  {
    NoneUsed(t);
  }

  // ---------------------------------------------------------------------------- probing

  /** The steps left on the way down from i to e. */
  ghost function Distance(i: nat, e: nat, n: nat): nat
    requires i < n && e < n
  {
    if i >= e then i - e else i + n - e
  }

  /** The probe loop of an insertion: from h down to the first empty slot. */
  method Probe(v: array<Named?>, h: nat) returns (i: nat)
    requires h < v.Length && Used(v[..]) < v.Length
    ensures i < v.Length && v[i] == null && Reached(v[..], h, i)
  {
    ghost var e := EmptySlot(v[..]);
    i := h;
    while v[i] != null
      invariant i < v.Length && Reached(v[..], h, i)
      decreases Distance(i, e, v.Length)
    {
      i := if i == 0 then v.Length - 1 else i - 1;
    }
  }

  /** The probe loop of a lookup: to the entry of that name, or to the first empty slot. */
  method Find(v: array<Named?>, name: Key) returns (i: nat)
    requires v.Length > 0 && Used(v[..]) < v.Length && SlotsOK(v[..])
    ensures i < v.Length && Reached(v[..], Home(name, v.Length), i)
    ensures if v[i] == null then name !in Contents(v[..]) else name in Contents(v[..]) && Contents(v[..])[name] == v[i]
  {
    ghost var e := EmptySlot(v[..]);
    ghost var t := v[..];
    var h := HashOf(name);
    i := And(h, v.Length - 1);
    while v[i] != null
      invariant i < v.Length && Reached(t, Home(name, |t|), i)
      invariant forall k {:trigger t[k]} ::
          0 <= k < |t| && OnPath(Home(name, |t|), i, k) && t[k] != null ==> t[k].name != name
      decreases Distance(i, e, v.Length)
    {
      var same := KeyEq(name, v[i].name);
      if same {
        assert t[i].name == name;
        return;
      }
      i := if i == 0 then v.Length - 1 else i - 1;
    }
    Missing(t, name, i);
  }

  // ---------------------------------------------------------------------------- growing

  lemma {:induction false} UsedPrefix(t: seq<Named?>, i: nat)
    requires i <= |t|
    ensures Used(t[..i]) <= Used(t)
  {
    if i < |t| {
      UsedPrefix(t[..|t| - 1], i);
      assert t[..|t| - 1][..i] == t[..i];
    } else {
      assert t[..i] == t;
    }
  }

  /** One more slot of the old table taken into account. */
  lemma PrefixStep(t: seq<Named?>, i: nat)
    requires i < |t| && DistinctNames(t)
    ensures DistinctNames(t[..i]) && DistinctNames(t[..i + 1])
    ensures Used(t[..i + 1]) == Used(t[..i]) + if t[i] != null then 1 else 0
    ensures t[i] != null ==> t[i].name !in Contents(t[..i])
    ensures Contents(t[..i + 1]) == if t[i] == null then Contents(t[..i]) else Contents(t[..i])[t[i].name := t[i]]
  {
    assert t[..i + 1][..i] == t[..i];
    PrefixDistinct(t, i);
    PrefixDistinct(t, i + 1);
    assert t[..i + 1] == t[..i] + [t[i]];
    ContentsSnoc(t[..i], t[i]);
  }

  lemma PrefixDistinct(t: seq<Named?>, i: nat)
    requires i <= |t| && DistinctNames(t)
    ensures DistinctNames(t[..i])
  {
    var u := t[..i];
    forall j | 0 <= j < i ensures u[j] == t[j] {}
  }

  lemma InContents(t: seq<Named?>, j: nat)
    requires DistinctNames(t) && j < |t| && t[j] != null
    ensures t[j].name in Contents(t) && Contents(t)[t[j].name] == t[j]
  {
  }

  lemma WhereIn(t: seq<Named?>, k: Key) returns (j: nat)
    requires DistinctNames(t) && k in Contents(t)
    ensures j < |t| && t[j] != null && t[j].name == k && Contents(t)[k] == t[j]
  {
    j :| 0 <= j < |t| && t[j] != null && t[j].name == k;
  }

  lemma NameAt(t: seq<Named?>, i: nat, j: nat)
    requires DistinctNames(t) && i < j < |t| && t[i] != null && t[j] != null
    ensures t[i].name != t[j].name
  {
  }

  lemma ContentsSnoc(s: seq<Named?>, e: Named?)
    requires DistinctNames(s) && DistinctNames(s + [e])
    ensures e != null ==> e.name !in Contents(s)
    ensures Contents(s + [e]) == if e == null then Contents(s) else Contents(s)[e.name := e]
  {
    hide Contents, DistinctNames;
    var u, n := s + [e], |s|;
    forall k | k in Contents(s)
      ensures k in Contents(u) && Contents(u)[k] == Contents(s)[k] && (e != null ==> e.name != k)
    {
      var j := WhereIn(s, k);
      InContents(u, j);
      if e != null { NameAt(u, j, n); }
    }
    forall k | k in Contents(u) ensures k in Contents(s) || (e != null && e.name == k) {
      var j := WhereIn(u, k);
      if j < n { InContents(s, j); }
    }
    if e != null { InContents(u, n); }
  }

  /** The entries of v, moved to the empty table newV. */
  method Rehash(v: array<Named?>, newV: array<Named?>)
    requires v != newV && SlotsOK(v[..]) && newV.Length > 0 && Used(v[..]) < newV.Length
    requires forall i :: 0 <= i < newV.Length ==> newV[i] == null
    modifies newV
    ensures SlotsOK(newV[..]) && Used(newV[..]) == Used(v[..]) && Contents(newV[..]) == Contents(v[..])
  {
    ghost var t := v[..];
    NothingIn(newV[..]);
    var i := 0;
    while i < v.Length
      invariant i <= v.Length && v[..] == t && SlotsOK(newV[..]) && DistinctNames(t[..i])
      invariant Used(newV[..]) == Used(t[..i]) && Contents(newV[..]) == Contents(t[..i])
    {
      PrefixStep(t, i);
      if v[i] != null {
        UsedPrefix(t, i);
        var h := HashOf(v[i].name);
        var j := Probe(newV, And(h, newV.Length - 1));
        Put(newV[..], v[i], j);
        newV[j] := v[i];
      }
      i := i + 1;
    }
    assert t[..i] == t;
  }

  class HashTable {
    var v: array?<Named?>
    var size: nat
    var used: nat
    var usedLim: nat

    ghost predicate Valid()
      reads this, v
    {
      if size == 0 then
        v == null && used == 0 && usedLim == 0
      else
        && v != null && v.Length == size && size >= INIT_SIZE && PowerOfTwo(size)
        && usedLim == size / 2 && used == Used(v[..]) && used <= usedLim && SlotsOK(v[..])
    }

    /** The map from names to entries that the table holds. */
    ghost function Map(): map<Key, Named>
      requires Valid()
      reads this, v
    {
      if size == 0 then map[] else Contents(v[..])
    }

    /** hashTableInit */
    constructor ()
      ensures Valid() && Map() == map[]
    {
      size, usedLim, used, v := 0, 0, 0, null;
    }

    /** Twice as many slots, with the same entries. */
    method Grow()
      requires Valid() && size > 0 && used == usedLim
      modifies this
      ensures Valid() && Map() == old(Map()) && v != null && fresh(v)
      ensures size == 2 * old(size) && used == old(used) && used < usedLim
    {
      hide And, DistinctNames, AllReached, Used, Contents, Reached;
      var newSize := size * 2;
      var newV := new Named?[newSize](_ => null);
      Rehash(v, newV);
      v, size, usedLim := newV, newSize, newSize / 2;
      assert PowerOfTwo(newSize / 2);
    }

    /** A new entry in the empty slot i. */
    method Insert(name: Key, i: nat) returns (r: Named)
      requires Valid() && size > 0 && used < usedLim && i < size && v[i] == null
      requires Reached(v[..], Home(name, size), i) && name !in Map()
      modifies this, v
      ensures Valid() && fresh(r) && r.name == name && Map() == old(Map())[name := r]
      ensures v == old(v) && size == old(size)
    {
      r := new Named(name);
      Put(v[..], r, i);
      v[i] := r;
      assert v[..] == old(v[..])[i := r];
      used := used + 1;
    }

    /** The first slots. */
    method Start()
      requires Valid() && size == 0
      modifies this
      ensures Valid() && Map() == map[] && v != null && fresh(v) && size == INIT_SIZE && used < usedLim
      ensures forall k :: 0 <= k < v.Length ==> v[k] == null
    {
      v := new Named?[INIT_SIZE](_ => null);
      NothingIn(v[..]);
      size := INIT_SIZE;
      usedLim := INIT_SIZE / 2;
    }

    /** lookup: tableAlloc and entryAlloc say whether an allocation of slots or of an entry would succeed. */
    method Lookup(name: Key, createSize: nat, tableAlloc: bool, entryAlloc: bool) returns (r: Named?)
      requires Valid()
      modifies this, v
      ensures Valid()
      ensures if name in old(Map()) then
          r == old(Map())[name] && Map() == old(Map())
        else if createSize == 0 || !entryAlloc || (!tableAlloc && old(size == 0 || used == usedLim)) then
          r == null && Map() == old(Map())
        else
          r != null && fresh(r) && r.name == name && Map() == old(Map())[name := r]
    {
      hide And, PowerOfTwo, DistinctNames, AllReached, Used, Contents;
      var i: nat;
      if size == 0 {
        if createSize == 0 { return null; }
        if !tableAlloc { return null; }
        Start();
        var h := HashOf(name);
        i := And(h, size - 1);
      } else {
        i := Find(v, name);
        if v[i] != null { return v[i]; }
        if createSize == 0 { return null; }
        if used == usedLim {
          if !tableAlloc { return null; }
          Grow();
          var h := HashOf(name);
          i := Probe(v, And(h, size - 1));
        }
      }
      if !entryAlloc { return null; }
      r := Insert(name, i);
    }
  }

  // --------------------------------------------------------------------------- iteration

  /** The entries in the order of their slots. */
  ghost function Entries(t: seq<Named?>): seq<Named> {
    if t == [] then [] else (if t[0] != null then [t[0]] else []) + Entries(t[1..])
  }

  class HashTableIter {
    const slots: array?<Named?>
    const end: nat
    var p: nat

    ghost predicate Valid()
      reads this
    {
      p <= end && (if slots == null then end == 0 else end == slots.Length)
    }

    /** The slots still to be looked at. */
    ghost function Ahead(): seq<Named?>
      requires Valid()
      reads this, slots
    {
      if slots == null then [] else slots[..][p..]
    }

    /** The entries still to come. */
    ghost function Rest(): seq<Named>
      requires Valid()
      reads this, slots
    {
      Entries(Ahead())
    }

    /** hashTableIterInit */
    constructor (table: HashTable)
      requires table.Valid()
      ensures Valid() && slots == table.v
      ensures Rest() == if table.v == null then [] else Entries(table.v[..])
    {
      slots := table.v;
      end := table.size;
      p := 0;
      new;
      if slots != null { assert slots[..][0..] == slots[..]; }
    }

    /** hashTableIterNext */
    method Next() returns (r: Named?)
      requires Valid()
      modifies this
      ensures Valid()
      ensures if old(Rest()) == [] then r == null && Rest() == [] else r == old(Rest())[0] && Rest() == old(Rest())[1..]
    {
      while p != end
        invariant Valid() && Rest() == old(Rest())
        decreases end - p
      {
        var tem := slots[p];
        ghost var s := Ahead();
        p := p + 1;
        assert Ahead() == s[1..];
        if tem != null { return tem; }
      }
      return null;
    }
  }

  /** The iterator meets every entry of the table exactly once. */
  lemma {:induction false} EntriesOnce(t: seq<Named?>)
    requires DistinctNames(t)
    ensures |Entries(t)| == |Contents(t)|
    ensures forall i, j :: 0 <= i < j < |Entries(t)| ==> Entries(t)[i] != Entries(t)[j]
    ensures forall e: Named :: e in Entries(t) <==> e.name in Contents(t) && Contents(t)[e.name] == e
  {
    if t != [] {
      var u := t[1..];
      forall i, j | 0 <= i < |u| && 0 <= j < |u| && u[i] != null && u[j] != null && u[i].name == u[j].name
        ensures i == j
      {
        assert t[i + 1] == u[i] && t[j + 1] == u[j];
      }
      EntriesOnce(u);
      ContentsCons(t);
    }
  }

  lemma ContentsCons(t: seq<Named?>)
    requires DistinctNames(t) && t != [] && DistinctNames(t[1..])
    ensures Contents(t) == if t[0] == null then Contents(t[1..]) else Contents(t[1..])[t[0].name := t[0]]
    ensures t[0] != null ==> t[0].name !in Contents(t[1..])
  {
    var u := t[1..];
    forall j | 0 <= j < |u| ensures u[j] == t[j + 1] {}
    forall j | 0 <= j < |t| && t[j] != null
      ensures j > 0 ==> t[j].name in Contents(u) && Contents(u)[t[j].name] == t[j]
    {
      if j > 0 { assert u[j - 1] == t[j]; }
    }
  }
}
