/**
 The hash table (src/foundation/hashtable.c): open addressing, doubling, and deletion that shifts entries back
 instead of leaving tombstones. For every hash function it behaves as a finite map.
 */
module HashTable {
  import opened Int64

  datatype Slot<V> = Empty | Used(key: string, hash: nat, value: V)

  datatype Option<V> = None | Some(value: V)

  const INITIAL_CAP := 16

  // ---- positions on the circle ----

  /** hash & (capacity - 1), which is the remainder because capacities are powers of two. */
  function Home(hash: nat, n: nat): (i: nat)
    requires n > 0
    ensures i < n
  {
    hash % n
  }

  lemma {:induction false} MaskIsMod(x: nat, k: nat, n: nat)
    requires k <= n
    ensures BitwiseN(AND, x, Pow2(k) - 1, n) == x % Pow2(k)
    decreases n
  {
    if k == 0 {
      NoBits(x, n);
    } else {
      var p := Pow2(k - 1);
      assert (2 * p - 1) / 2 == p - 1 && (2 * p - 1) % 2 == 1;
      MaskIsMod(x / 2, k - 1, n - 1);
      HalfMod(x, p);
    }
  }

  lemma {:induction false} NoBits(x: nat, n: nat)
    ensures BitwiseN(AND, x, 0, n) == 0
    decreases n
  {
    if n > 0 { NoBits(x / 2, n - 1); }
  }

  lemma HalfMod(x: nat, p: nat)
    requires p > 0
    ensures x % (2 * p) == x % 2 + 2 * ((x / 2) % p)
  {
    var q, r := x / 2 / p, (x / 2) % p;
    assert x / 2 == q * p + r;
    assert x == (2 * p) * q + (x % 2 + 2 * r);
    ModIs(x, 2 * p, q, x % 2 + 2 * r);
  }

  lemma ModIs(x: nat, m: nat, q: nat, r: nat)
    requires x == m * q + r && r < m
    ensures x % m == r
  {
    var d := x / m - q;
    assert x % m == r - m * d;
    Multiple(m, d);
  }

  lemma Multiple(m: nat, d: int)
    requires m > 0
    ensures d > 0 ==> m * d >= m
    ensures d < 0 ==> m * d <= -(m as int)
  {
    if d > 0 { Grows(m, d); }
    if d < 0 {
      Grows(m, -d);
      Signs(m, -d);
    }
  }

  lemma Grows(m: nat, d: nat)
    requires d > 0
    ensures m * d >= m
  {
    NonNegative(m, d - 1);
    assert m * d == m + m * (d - 1);
  }

  function Next(i: nat, n: nat): (j: nat)
    requires i < n
    ensures j < n
  {
    if i + 1 == n then 0 else i + 1
  }

  /** Steps from `a` forward to `b`. */
  function Dist(a: nat, b: nat, n: nat): (d: nat)
    requires a < n && b < n
    ensures d < n && (d == 0 <==> a == b)
  {
    if a <= b then b - a else b + n - a
  }

  // ---- the invariant ----

  predicate Hashed<V>(s: seq<Slot<V>>, h: string -> nat) {
    forall i :: 0 <= i < |s| && s[i].Used? ==> s[i].hash == h(s[i].key)
  }

  predicate Distinct<V>(s: seq<Slot<V>>) {
    forall i, j :: 0 <= i < |s| && 0 <= j < |s| && s[i].Used? && s[j].Used? && s[i].key == s[j].key ==> i == j
  }

  /** `j` lies on the probe path of the entry in slot `i`, before it. */
  predicate OnPath<V>(s: seq<Slot<V>>, i: nat, j: nat)
    requires i < |s| && j < |s| && s[i].Used?
  {
    var home := Home(s[i].hash, |s|);
    Dist(home, j, |s|) < Dist(home, i, |s|)
  }

  /** No probe path has a gap. */
  predicate NoGaps<V>(s: seq<Slot<V>>) {
    forall i, j :: 0 <= i < |s| && 0 <= j < |s| && s[i].Used? && OnPath(s, i, j) ==> s[j].Used?
  }

  ghost predicate Holds<V(!new)>(s: seq<Slot<V>>, m: map<string, V>) {
    && (forall i :: 0 <= i < |s| && s[i].Used? ==> s[i].key in m && m[s[i].key] == s[i].value)
    && (forall k :: k in m ==> exists i :: 0 <= i < |s| && s[i].Used? && s[i].key == k)
  }

  ghost predicate TableOk<V(!new)>(s: seq<Slot<V>>, h: string -> nat, m: map<string, V>) {
    |s| > 0 && Hashed(s, h) && Distinct(s) && NoGaps(s) && Holds(s, m)
  }

  /** Capacities start at 16 and double. */
  ghost predicate IsCap(n: nat) {
    exists k: nat :: n == INITIAL_CAP * Pow2(k)
  }

  lemma CapFactor(n: nat)
    requires IsCap(n)
    ensures n >= 16 && IsCap(2 * n)
  {
    var k: nat :| n == INITIAL_CAP * Pow2(k);
    hide IsCap;
    CapDoubles(k);
  }

  lemma CapQuarter(n: nat) returns (q: nat)
    requires IsCap(n)
    ensures n == 4 * q
  {
    var k: nat :| n == INITIAL_CAP * Pow2(k);
    q := 4 * Pow2(k);
  }

  lemma CapDoubles(k: nat)
    ensures IsCap(2 * (INITIAL_CAP * Pow2(k)))
  {
    assert 2 * (INITIAL_CAP * Pow2(k)) == INITIAL_CAP * Pow2(k + 1);
  }

  /** A capacity is a power of two, so masking the hash gives its home slot, in words of any width that holds the mask. */
  lemma SlotByMask(hash: nat, cap: nat, width: nat) returns (k: nat)
    requires IsCap(cap)
    ensures cap == Pow2(k) && (k <= width ==> BitwiseN(AND, hash, cap - 1, width) == Home(hash, cap))
  {
    var j: nat :| cap == INITIAL_CAP * Pow2(j);
    k := j + 4;
    assert Pow2(j + 4) == 2 * Pow2(j + 3) == 4 * Pow2(j + 2) == 8 * Pow2(j + 1);
    if k <= width { MaskIsMod(hash, k, width); }
  }

  lemma FirstCap()
    ensures IsCap(INITIAL_CAP)
  {
    assert INITIAL_CAP == INITIAL_CAP * Pow2(0);
  }

  /** At most three quarters of the slots are used. */
  ghost predicate Loaded(count: nat, cap: nat) {
    IsCap(cap) && count * 4 <= cap * 3
  }

  lemma LoadedCap(count: nat, n: nat)
    requires Loaded(count, n)
    ensures IsCap(n) && n >= 16
  {
    CapFactor(n);
  }

  lemma LoadedOne(count: nat, n: nat)
    requires IsCap(n) && count * 4 < n * 3
    ensures count < n && Loaded(count, n) && Loaded(count + 1, n)
  {
    hide IsCap;
    var q := CapQuarter(n);
    assert count + 1 <= 3 * q;
  }

  lemma LoadedTwice(count: nat, n: nat)
    requires IsCap(2 * n) && count * 4 <= n * 3
    ensures Loaded(count, 2 * n) && count * 8 <= 2 * n * 3
  {
    hide IsCap;
  }

  // ---- a table that is not full has an empty slot ----

  lemma {:induction false} KeysCount<V(!new)>(s: seq<Slot<V>>, n: nat) returns (keys: set<string>)
    requires n <= |s| && Distinct(s) && forall i :: 0 <= i < |s| ==> s[i].Used?
    ensures |keys| == n && forall k :: k in keys <==> exists i :: 0 <= i < n && s[i].key == k
    decreases n
  {
    if n == 0 {
      keys := {};
    } else {
      keys := KeysCount(s, n - 1);
      keys := keys + {s[n - 1].key};
    }
  }

  lemma FullCount<V(!new)>(s: seq<Slot<V>>, m: map<string, V>)
    requires Distinct(s) && Holds(s, m) && forall i :: 0 <= i < |s| ==> s[i].Used?
    ensures |m| == |s|
  {
    var keys := KeysCount(s, |s|);
    assert keys == m.Keys;
  }

  lemma EmptySlot<V(!new)>(s: seq<Slot<V>>, h: string -> nat, m: map<string, V>) returns (e: nat)
    requires TableOk(s, h, m) && |m| < |s|
    ensures e < |s| && s[e].Empty?
  {
    if forall i :: 0 <= i < |s| ==> s[i].Used? { FullCount(s, m); }
    e :| e < |s| && s[e].Empty?;
  }

  lemma FreshTable<V(!new)>(s: seq<Slot<V>>, h: string -> nat)
    requires |s| > 0 && forall i :: 0 <= i < |s| ==> s[i].Empty?
    ensures TableOk(s, h, map[])
  {
  }

  // ---- probing ----

  /** The slots from `home` up to, but not including, `i` are used by other keys. */
  predicate Probed<V>(s: seq<Slot<V>>, key: string, home: nat, i: nat) {
    home < |s| && i < |s|
    && forall j :: 0 <= j < |s| && Dist(home, j, |s|) < Dist(home, i, |s|) ==> s[j].Used? && s[j].key != key
  }

  lemma ProbeStep<V(!new)>(s: seq<Slot<V>>, key: string, home: nat, i: nat, e: nat)
    requires Probed(s, key, home, i) && s[i].Used? && s[i].key != key && e < |s| && s[e].Empty?
    ensures Probed(s, key, home, Next(i, |s|)) && Dist(home, Next(i, |s|), |s|) == Dist(home, i, |s|) + 1
  {
    assert Dist(home, e, |s|) > Dist(home, i, |s|);
  }

  /** A probe that ends at an empty slot has shown that the key is absent. */
  lemma ProbeMiss<V(!new)>(s: seq<Slot<V>>, h: string -> nat, m: map<string, V>, key: string, i: nat)
    requires TableOk(s, h, m) && Probed(s, key, Home(h(key), |s|), i) && s[i].Empty?
    ensures key !in m
  {
    forall k | 0 <= k < |s| && s[k].Used? ensures s[k].key != key {
      assert !OnPath(s, k, i);
    }
  }

  lemma AddAt<V(!new)>(s: seq<Slot<V>>, h: string -> nat, m: map<string, V>, key: string, v: V, i: nat)
    requires TableOk(s, h, m) && Probed(s, key, Home(h(key), |s|), i) && s[i].Empty?
    ensures TableOk(s[i := Used(key, h(key), v)], h, m[key := v]) && key !in m
  {
    ProbeMiss(s, h, m, key, i);
    var t, m1 := s[i := Used(key, h(key), v)], m[key := v];
    forall a, b | 0 <= a < |t| && 0 <= b < |t| && t[a].Used? && OnPath(t, a, b) ensures t[b].Used? {
      if a != i { assert OnPath(s, a, b); }
    }
    forall k | k in m1 ensures exists a :: 0 <= a < |t| && t[a].Used? && t[a].key == k {
      if k == key {
        assert t[i].key == k;
      } else {
        var a :| 0 <= a < |s| && s[a].Used? && s[a].key == k;
        assert t[a].key == k;
      }
    }
  }

  lemma ReplaceAt<V(!new)>(s: seq<Slot<V>>, h: string -> nat, m: map<string, V>, v: V, i: nat)
    requires TableOk(s, h, m) && i < |s| && s[i].Used?
    ensures s[i].key in m && m[s[i].key] == s[i].value
    ensures TableOk(s[i := s[i].(value := v)], h, m[s[i].key := v])
  {
    var t, m1 := s[i := s[i].(value := v)], m[s[i].key := v];
    forall a, b | 0 <= a < |t| && 0 <= b < |t| && t[a].Used? && OnPath(t, a, b) ensures t[b].Used? {
      assert OnPath(s, a, b);
    }
    forall k | k in m1 ensures exists a :: 0 <= a < |t| && t[a].Used? && t[a].key == k {
      var a :| 0 <= a < |s| && s[a].Used? && s[a].key == k;
      assert t[a].key == k;
    }
  }

  // ---- deletion ----

  /** No probe path has a gap other than the hole. */
  predicate NoOtherGap<V>(t: seq<Slot<V>>, hole: nat) {
    forall i, j :: 0 <= i < |t| && 0 <= j < |t| && j != hole && t[i].Used? && OnPath(t, i, j) ==> t[j].Used?
  }

  /** Only entries from `scan` on may still have the hole on their path; the slots from the hole to `scan` are used. */
  predicate Passed<V>(t: seq<Slot<V>>, hole: nat, scan: nat)
    requires hole < |t| && scan < |t|
  {
    && (forall j :: 0 <= j < |t| && 0 < Dist(hole, j, |t|) < Dist(hole, scan, |t|) ==> t[j].Used?)
    && (forall i :: 0 <= i < |t| && t[i].Used? && OnPath(t, i, hole) ==> Dist(hole, i, |t|) >= Dist(hole, scan, |t|))
  }

  /** The hole, `scan` and an empty slot `e` that has not been passed. */
  predicate Ahead<V>(t: seq<Slot<V>>, hole: nat, scan: nat, e: nat) {
    && hole < |t| && scan < |t| && e < |t| && t[hole].Empty? && t[e].Empty? && e != hole
    && 0 < Dist(hole, scan, |t|) <= Dist(hole, e, |t|)
  }

  ghost predicate Content<V(!new)>(t: seq<Slot<V>>, h: string -> nat, m: map<string, V>) {
    Hashed(t, h) && Distinct(t) && Holds(t, m)
  }

  /** The table `t` while a hole moves forward. */
  ghost predicate Shifting<V(!new)>(t: seq<Slot<V>>, h: string -> nat, m: map<string, V>, hole: nat, scan: nat, e: nat) {
    Ahead(t, hole, scan, e) && Content(t, h, m) && NoOtherGap(t, hole) && Passed(t, hole, scan)
  }

  lemma StartShift<V(!new)>(s: seq<Slot<V>>, h: string -> nat, m: map<string, V>, i: nat, e: nat)
    requires TableOk(s, h, m) && i < |s| && s[i].Used? && e < |s| && s[e].Empty?
    ensures Shifting(s[i := Empty], h, m - {s[i].key}, i, Next(i, |s|), e)
  {
    var t, n := s[i := Empty], m - {s[i].key};
    forall a, b | 0 <= a < |t| && 0 <= b < |t| && t[a].Used? && OnPath(t, a, b) && b != i ensures t[b].Used? {
      assert OnPath(s, a, b);
    }
    forall k | k in n ensures exists a :: 0 <= a < |t| && t[a].Used? && t[a].key == k {
      var a :| 0 <= a < |s| && s[a].Used? && s[a].key == k;
      assert t[a].key == k;
    }
  }

  /** The source's test, on positions without wraparound, is whether the hole lies on the entry's path. */
  predicate ShouldShift(natural: nat, hole: nat, scan: nat) {
    if scan > hole then natural <= hole || natural > scan else natural > scan && natural <= hole
  }

  lemma ShouldShiftIs<V(!new)>(t: seq<Slot<V>>, hole: nat, scan: nat)
    requires hole < |t| && scan < |t| && hole != scan && t[scan].Used?
    ensures ShouldShift(Home(t[scan].hash, |t|), hole, scan) <==> OnPath(t, scan, hole)
  {
  }

  lemma KeepEntry<V(!new)>(t: seq<Slot<V>>, h: string -> nat, m: map<string, V>, hole: nat, scan: nat, e: nat)
    requires Shifting(t, h, m, hole, scan, e) && t[scan].Used? && !OnPath(t, scan, hole)
    ensures Shifting(t, h, m, hole, Next(scan, |t|), e)
    ensures Dist(Next(scan, |t|), e, |t|) < Dist(scan, e, |t|)
  {
    hide Content, NoOtherGap;
    var n := |t|;
    assert scan != e && Next(scan, n) != hole;
    assert Dist(hole, Next(scan, n), n) == Dist(hole, scan, n) + 1;
  }

  lemma MoveContent<V(!new)>(t: seq<Slot<V>>, h: string -> nat, m: map<string, V>, hole: nat, scan: nat)
    requires hole < |t| && scan < |t| && hole != scan && t[hole].Empty? && Content(t, h, m)
    ensures Content(t[hole := t[scan]][scan := Empty], h, m)
  {
    var r := t[hole := t[scan]][scan := Empty];
    forall k | k in m ensures exists a :: 0 <= a < |r| && r[a].Used? && r[a].key == k {
      var a :| 0 <= a < |t| && t[a].Used? && t[a].key == k;
      if a == scan { assert r[hole].key == k; } else { assert r[a].key == k; }
    }
  }

  lemma MoveGaps<V(!new)>(t: seq<Slot<V>>, hole: nat, scan: nat)
    requires hole < |t| && scan < |t| && hole != scan && t[scan].Used? && OnPath(t, scan, hole) && NoOtherGap(t, hole)
    ensures NoOtherGap(t[hole := t[scan]][scan := Empty], scan)
  {
    var r := t[hole := t[scan]][scan := Empty];
    forall i, j | 0 <= i < |r| && 0 <= j < |r| && j != scan && r[i].Used? && OnPath(r, i, j) ensures r[j].Used? {
      if i == hole {
        assert OnPath(t, scan, j);
      } else {
        assert OnPath(t, i, j);
      }
    }
  }

  lemma MoveEntry<V(!new)>(t: seq<Slot<V>>, h: string -> nat, m: map<string, V>, hole: nat, scan: nat, e: nat)
    requires Shifting(t, h, m, hole, scan, e) && t[scan].Used? && OnPath(t, scan, hole)
    ensures Shifting(t[hole := t[scan]][scan := Empty], h, m, scan, Next(scan, |t|), e)
    ensures Dist(Next(scan, |t|), e, |t|) < Dist(scan, e, |t|)
  {
    hide Content, NoOtherGap, OnPath;
    assert scan != e;
    MoveContent(t, h, m, hole, scan);
    MoveGaps(t, hole, scan);
    var r := t[hole := t[scan]][scan := Empty];
    assert Dist(scan, Next(scan, |t|), |t|) == 1;
  }

  /** At an empty slot nothing behind the hole still needs it. */
  lemma EndShift<V(!new)>(t: seq<Slot<V>>, h: string -> nat, m: map<string, V>, hole: nat, scan: nat, e: nat)
    requires Shifting(t, h, m, hole, scan, e) && t[scan].Empty?
    ensures TableOk(t, h, m)
  {
    var n := |t|;
    forall i, j | 0 <= i < n && 0 <= j < n && t[i].Used? && OnPath(t, i, j) ensures t[j].Used? {
      if j == hole {
        assert Dist(hole, i, n) >= Dist(hole, scan, n) && i != scan;
        assert OnPath(t, i, scan);
      }
    }
  }

  // ---- the table ----

  class Table<V(!new)> {
    var entries: array<Slot<V>>
    var count: nat
    const hash: string -> nat
    ghost var contents: map<string, V>

    ghost predicate Valid()
      reads this, entries
    {
      TableOk(entries[..], hash, contents) && count == |contents| && Loaded(count, entries.Length)
    }

    constructor (hash: string -> nat)
      ensures Valid() && contents == map[] && this.hash == hash && fresh(entries)
    {
      entries := new Slot<V>[INITIAL_CAP](_ => Empty);
      count := 0;
      this.hash := hash;
      contents := map[];
      new;
      FreshTable(entries[..], hash);
      FirstCap();
    }

    /** Probe for the key: its slot, or the empty slot where it would go. */
    method Probe(key: string) returns (i: nat)
      requires TableOk(entries[..], hash, contents) && |contents| < entries.Length
      ensures i < entries.Length && Probed(entries[..], key, Home(hash(key), entries.Length), i)
      ensures entries[i].Used? ==> entries[i].key == key
    {
      hide OnPath, NoGaps, Distinct, Holds;
      var h := hash(key);
      var n := entries.Length;
      ghost var s, home := entries[..], Home(h, n);
      ghost var e := EmptySlot(s, hash, contents);
      i := Home(h, n);
      while entries[i].Used? && !(entries[i].hash == h && entries[i].key == key)
        invariant i < n && Probed(s, key, home, i)
        decreases n - Dist(home, i, n)
      {
        assert s[i] == entries[i];
        ProbeStep(s, key, home, i, e);
        i := Next(i, n);
      }
    }

    method Get(key: string) returns (r: Option<V>)
      requires Valid()
      ensures r == if key in contents then Some(contents[key]) else None
    {
      CapFactor(entries.Length);
      var i := Probe(key);
      if entries[i].Empty? {
        ProbeMiss(entries[..], hash, contents, key, i);
        return None;
      }
      assert entries[..][i] == entries[i];
      return Some(entries[i].value);
    }

    /** The probing half of ht_set. */
    method Put(key: string, value: V) returns (old_: Option<V>)
      requires TableOk(entries[..], hash, contents) && count == |contents| < entries.Length
      modifies this`count, this`contents, entries
      ensures TableOk(entries[..], hash, contents) && count == |contents|
      ensures contents == old(contents)[key := value]
      ensures old_ == if key in old(contents) then Some(old(contents)[key]) else None
    {
      hide TableOk, Probed;
      var i := Probe(key);
      ghost var s := entries[..];
      assert s[i] == entries[i];
      if entries[i].Empty? {
        AddAt(s, hash, contents, key, value, i);
        entries[i] := Used(key, hash(key), value);
        count := count + 1;
        assert entries[..] == s[i := Used(key, hash(key), value)];
        old_ := None;
      } else {
        ReplaceAt(s, hash, contents, value, i);
        old_ := Some(entries[i].value);
        entries[i] := entries[i].(value := value);
        assert entries[..] == s[i := s[i].(value := value)];
      }
      contents := contents[key := value];
    }

    /** One slot of the old table, put into the new one. */
    method Reinsert(slot: Slot<V>)
      requires TableOk(entries[..], hash, contents) && count == |contents| < entries.Length
      modifies this`count, this`contents, entries
      ensures TableOk(entries[..], hash, contents) && count == |contents|
      ensures contents == if slot.Used? then old(contents)[slot.key := slot.value] else old(contents)
    {
      hide TableOk;
      if slot.Used? { var was := Put(slot.key, slot.value); }
    }

    /** The loop of ht_resize: every entry of the old array is inserted into the new, empty one. */
    method Rehash(previous: array<Slot<V>>, ghost m: map<string, V>)
      requires previous != entries && previous.Length < entries.Length && MapOf(previous[..], previous.Length) == m
      requires TableOk(entries[..], hash, contents) && contents == map[] && count == 0
      modifies this`count, this`contents, entries
      ensures TableOk(entries[..], hash, contents) && count == |contents| && contents == m
    {
      hide TableOk, MapOf;
      ghost var s := previous[..];
      MapStart(s);
      var i := 0;
      while i < previous.Length
        invariant i <= previous.Length
        invariant TableOk(entries[..], hash, contents) && count == |contents| && contents == MapOf(s, i)
        modifies this`count, this`contents, entries
      {
        MapSize(s, i);
        MapStep(s, i);
        assert previous[i] == s[i];
        Reinsert(previous[i]);
        i := i + 1;
      }
    }

    /** ht_resize. Re-inserting never asks for another resize, because the new table is at most three eighths full. */
    method Resize()
      requires Valid()
      modifies this
      ensures Valid() && contents == old(contents) && fresh(entries) && entries.Length == 2 * old(entries.Length)
      ensures count * 8 <= entries.Length * 3
    {
      var previous, n := entries, entries.Length;
      ghost var m := contents;
      MapWhole(entries[..], contents);
      LoadedCap(count, n);
      CapFactor(n);
      assert count == |m| && count * 4 <= n * 3;
      hide TableOk, IsCap, MapOf, Loaded;
      entries := new Slot<V>[2 * n](_ => Empty);
      count := 0;
      contents := map[];
      FreshTable(entries[..], hash);
      Rehash(previous, m);
      LoadedTwice(count, n);
    }

    /** ht_set, with the value it replaces. */
    method Set(key: string, value: V) returns (old_: Option<V>)
      requires Valid()
      modifies this, entries
      ensures Valid() && (entries == old(entries) || fresh(entries))
      ensures contents == old(contents)[key := value]
      ensures old_ == if key in old(contents) then Some(old(contents)[key]) else None
    {
      LoadedCap(count, entries.Length);
      if count * 4 >= entries.Length * 3 {
        Resize();
        LoadedCap(count, entries.Length);
      }
      hide TableOk, IsCap, Loaded;
      LoadedOne(count, entries.Length);
      old_ := Put(key, value);
      assert count == old(|contents|) || count == old(|contents|) + 1;
    }

    /** ht_remove, with the value it takes out. */
    method Remove(key: string) returns (r: Option<V>)
      requires Valid()
      modifies this, entries
      ensures Valid() && entries == old(entries) && contents == old(contents) - {key}
      ensures r == if key in old(contents) then Some(old(contents)[key]) else None
    {
      hide TableOk, Shifting, OnPath, Home;
      CapFactor(entries.Length);
      var i := Probe(key);
      var n := entries.Length;
      ghost var s := entries[..];
      assert s[i] == entries[i];
      if entries[i].Empty? {
        ProbeMiss(s, hash, contents, key, i);
        return None;
      }
      ReplaceAt(s, hash, contents, entries[i].value, i);
      r := Some(entries[i].value);
      count := count - 1;
      ghost var e := EmptySlot(s, hash, contents);
      StartShift(s, hash, contents, i, e);
      contents := contents - {key};
      var hole: nat, scan: nat := i, Next(i, n);
      ghost var t := s[i := Empty];
      while entries[scan].Used?
        invariant hole < n && scan < n && |t| == n && hole != scan && e < n && entries == old(entries)
        invariant Shifting(t, hash, contents, hole, scan, e)
        invariant forall j :: 0 <= j < n && j != hole ==> entries[j] == t[j]
        decreases Dist(scan, e, n)
        modifies entries
      {
        assert entries[scan] == t[scan];
        ShouldShiftIs(t, hole, scan);
        if ShouldShift(Home(entries[scan].hash, n), hole, scan) {
          MoveEntry(t, hash, contents, hole, scan, e);
          t := t[hole := t[scan]][scan := Empty];
          entries[hole] := entries[scan];
          hole := scan;
        } else {
          KeepEntry(t, hash, contents, hole, scan, e);
        }
        scan := Next(scan, n);
        ShiftingFacts(t, hash, contents, hole, scan, e);
      }
      EndShift(t, hash, contents, hole, scan, e);
      entries[hole] := Empty;
      ShiftingFacts(t, hash, contents, hole, scan, e);
      assert entries[..] == t;
    }

    /** ht_foreach visits every entry once, until the callback asks to stop. */
    method Foreach(stop: (string, V) -> bool) returns (visited: seq<(string, V)>)
      requires Valid()
      ensures forall i :: 0 <= i < |visited| ==> visited[i].0 in contents && contents[visited[i].0] == visited[i].1
      ensures forall i, j :: 0 <= i < j < |visited| ==> visited[i].0 != visited[j].0
      ensures forall i :: 0 <= i < |visited| - 1 ==> !stop(visited[i].0, visited[i].1)
      ensures (forall v :: v in visited ==> !stop(v.0, v.1)) ==> forall k :: k in contents ==> (k, contents[k]) in visited
    {
      hide Loaded, TableOk, Visits;
      ghost var s := entries[..];
      ghost var at: seq<nat> := [];
      visited := [];
      var i := 0;
      NoVisits(s, at, visited);
      while i < entries.Length
        invariant i <= entries.Length && Visits(s, at, visited, i)
        invariant forall v :: v in visited ==> !stop(v.0, v.1)
      {
        assert s[i] == entries[i];
        VisitStep(s, at, visited, i);
        if entries[i].Used? {
          var v := (entries[i].key, entries[i].value);
          ghost var before := visited;
          visited, at := visited + [v], at + [i];
          if stop(v.0, v.1) {
            VisitsOnce(s, hash, contents, at, visited, i + 1);
            return;
          }
        }
        i := i + 1;
      }
      VisitsOnce(s, hash, contents, at, visited, i);
      VisitsAll(s, hash, contents, at, visited);
    }
  }

  /** The entries of the first `n` slots, `at` being their slots, in order. */
  ghost predicate Visits<V(!new)>(s: seq<Slot<V>>, at: seq<nat>, visited: seq<(string, V)>, n: nat) {
    && |at| == |visited| && n <= |s|
    && (forall a :: 0 <= a < |at| ==> at[a] < n && s[at[a]].Used? && visited[a] == (s[at[a]].key, s[at[a]].value))
    && (forall a, b :: 0 <= a < b < |at| ==> at[a] < at[b])
    && (forall j :: 0 <= j < n && s[j].Used? ==> j in at)
  }

  lemma NoVisits<V(!new)>(s: seq<Slot<V>>, at: seq<nat>, visited: seq<(string, V)>)
    requires at == [] && visited == []
    ensures Visits(s, at, visited, 0)
  {
  }

  lemma VisitStep<V(!new)>(s: seq<Slot<V>>, at: seq<nat>, visited: seq<(string, V)>, n: nat)
    requires Visits(s, at, visited, n) && n < |s|
    ensures if s[n].Used? then Visits(s, at + [n], visited + [(s[n].key, s[n].value)], n + 1)
            else Visits(s, at, visited, n + 1)
  {
    if s[n].Used? {
      var at1 := at + [n];
      assert at1[|at|] == n;
      assert forall j :: j in at ==> j in at1;
    }
  }

  lemma VisitsOnce<V(!new)>(s: seq<Slot<V>>, h: string -> nat, m: map<string, V>, at: seq<nat>, visited: seq<(string, V)>, n: nat)
    requires TableOk(s, h, m) && Visits(s, at, visited, n)
    ensures forall i :: 0 <= i < |visited| ==> visited[i].0 in m && m[visited[i].0] == visited[i].1
    ensures forall i, j :: 0 <= i < j < |visited| ==> visited[i].0 != visited[j].0
  {
    forall i, j | 0 <= i < j < |visited| ensures visited[i].0 != visited[j].0 {
      assert s[at[i]].key == visited[i].0 && s[at[j]].key == visited[j].0;
    }
  }

  lemma VisitsAll<V(!new)>(s: seq<Slot<V>>, h: string -> nat, m: map<string, V>, at: seq<nat>, visited: seq<(string, V)>)
    requires TableOk(s, h, m) && Visits(s, at, visited, |s|)
    ensures forall k :: k in m ==> (k, m[k]) in visited
  {
    forall k | k in m ensures (k, m[k]) in visited {
      var i :| 0 <= i < |s| && s[i].Used? && s[i].key == k;
      var a :| 0 <= a < |at| && at[a] == i;
      assert visited[a] == (k, m[k]);
    }
  }

  lemma ShiftingFacts<V(!new)>(t: seq<Slot<V>>, h: string -> nat, m: map<string, V>, hole: nat, scan: nat, e: nat)
    requires Shifting(t, h, m, hole, scan, e)
    ensures hole < |t| && scan < |t| && e < |t| && hole != scan && t[hole].Empty?
  {
  }

  /** The entries in the first `n` slots. */
  function MapOf<V>(s: seq<Slot<V>>, n: nat): map<string, V>
    requires n <= |s|
  {
    if n == 0 then map[]
    else if s[n - 1].Used? then MapOf(s, n - 1)[s[n - 1].key := s[n - 1].value]
    else MapOf(s, n - 1)
  }

  lemma MapStart<V>(s: seq<Slot<V>>)
    ensures MapOf(s, 0) == map[]
  {
  }

  lemma MapStep<V>(s: seq<Slot<V>>, n: nat)
    requires n < |s|
    ensures MapOf(s, n + 1) == if s[n].Used? then MapOf(s, n)[s[n].key := s[n].value] else MapOf(s, n)
  {
  }

  lemma {:induction false} MapSize<V>(s: seq<Slot<V>>, n: nat)
    requires n <= |s|
    ensures |MapOf(s, n)| <= n
    decreases n
  {
    if n > 0 {
      MapSize(s, n - 1);
      var m := MapOf(s, n - 1);
      if s[n - 1].Used? {
        var k := s[n - 1].key;
        assert m[k := s[n - 1].value].Keys == m.Keys + {k};
      }
    }
  }

  lemma {:induction false} MapAt<V(!new)>(s: seq<Slot<V>>, n: nat)
    requires n <= |s| && Distinct(s)
    ensures forall i :: 0 <= i < n && s[i].Used? ==> s[i].key in MapOf(s, n) && MapOf(s, n)[s[i].key] == s[i].value
    ensures forall k :: k in MapOf(s, n) ==> exists i :: 0 <= i < n && s[i].Used? && s[i].key == k
    decreases n
  {
    if n > 0 {
      MapAt(s, n - 1);
      forall k | k in MapOf(s, n) ensures exists i :: 0 <= i < n && s[i].Used? && s[i].key == k {
        if !(s[n - 1].Used? && s[n - 1].key == k) {
          assert k in MapOf(s, n - 1);
          var i :| 0 <= i < n - 1 && s[i].Used? && s[i].key == k;
        }
      }
    }
  }

  lemma MapWhole<V(!new)>(s: seq<Slot<V>>, m: map<string, V>)
    requires Distinct(s) && Holds(s, m)
    ensures MapOf(s, |s|) == m
  {
    MapAt(s, |s|);
    forall k ensures k in m <==> k in MapOf(s, |s|) {
    }
  }
}
