/**
 * The specification of the compiled-code cache of `plugins/lib/worker-pool.ts`: a
 * JavaScript `Map` in insertion order, bounded in bytes, with sliding expiry and
 * least-recently-used eviction.
 */
module CacheSpec {
  import opened Options
  import opened JsMap

  /** What the map holds for a path; `size` is the code's length in bytes. */
  datatype Compiled = Compiled(code: string, timestamp: int, size: nat)

  type Slot = Entry<Compiled>

  /** The slot with its time of last use renewed. */
  function Touch(x: Slot, now: int): Slot {
    Entry(x.key, x.value.(timestamp := now))
  }

  function Total(s: seq<Slot>): nat {
    if s == [] then 0 else s[0].value.size + Total(s[1..])
  }

  /** Length of a character's UTF-8 encoding. */
  function Utf8Bytes(c: char): nat {
    var n := c as int;
    if n < 0x80 then 1 else if n < 0x800 then 2 else if n < 0x1_0000 then 3 else 4
  }

  function ByteLength(code: string): nat {
    if code == "" then 0 else Utf8Bytes(code[0]) + ByteLength(code[1..])
  }

  lemma {:induction false} TotalAppend(a: seq<Slot>, b: seq<Slot>)
    ensures Total(a + b) == Total(a) + Total(b)
    decreases |a|
  {
    if a == [] {
      assert a + b == b;
    } else {
      assert (a + b)[1..] == a[1..] + b;
      TotalAppend(a[1..], b);
    }
  }

  lemma {:induction false} TotalSplit(s: seq<Slot>, i: nat)
    requires i < |s|
    ensures Total(s) == Total(s[..i]) + s[i].value.size + Total(s[i + 1..])
  {
    assert s == s[..i] + ([s[i]] + s[i + 1..]);
    TotalAppend(s[..i], [s[i]] + s[i + 1..]);
    assert ([s[i]] + s[i + 1..])[1..] == s[i + 1..];
  }

  lemma {:induction false} DropTotal(s: seq<Slot>, i: nat)
    requires i < |s|
    ensures Total(Drop(s, i)) == Total(s) - s[i].value.size
    ensures Distinct(s) ==> Distinct(Drop(s, i))
  {
    TotalSplit(s, i);
    TotalAppend(s[..i], s[i + 1..]);
  }

  lemma {:induction false} PutTotal(s: seq<Slot>, x: Slot)
    requires Distinct(s)
    ensures Distinct(Put(s, x))
    ensures var i := Find(s, x.key);
      Total(Put(s, x)) == Total(s) + x.value.size - if i < |s| then s[i].value.size else 0
  {
    var i := Find(s, x.key);
    if i < |s| {
      var t := s[i := x];
      TotalSplit(s, i);
      TotalSplit(t, i);
      assert t[..i] == s[..i] && t[i + 1..] == s[i + 1..];
    } else {
      TotalAppend(s, [x]);
      assert [x][1..] == [];
    }
  }

  // ------------------------------------------------------------------ eviction

  /** Position of the least recently used entry; among equals, of the first inserted. */
  function Oldest(s: seq<Slot>): (i: nat)
    requires s != []
    ensures i < |s|
  {
    if |s| == 1 then 0
    else
      var j := 1 + Oldest(s[1..]);
      if s[0].value.timestamp <= s[j].value.timestamp then 0 else j
  }

  lemma {:induction false} OldestIsOldest(s: seq<Slot>, j: nat)
    requires j < |s|
    ensures s[Oldest(s)].value.timestamp <= s[j].value.timestamp
    ensures j < Oldest(s) ==> s[Oldest(s)].value.timestamp < s[j].value.timestamp
    decreases |s|
  {
    if |s| == 1 {
    } else {
      OldestIsOldest(s[1..], if j == 0 then 0 else j - 1);
    }
  }

  /** Remove the `n` oldest entries, one at a time. */
  function Evict(s: seq<Slot>, n: nat): seq<Slot>
    decreases n
  {
    if n == 0 || s == [] then s else Evict(Drop(s, Oldest(s)), n - 1)
  }

  /** Oldest first, ties in insertion order: what the stable `sort` on timestamps yields. */
  function Sorted(s: seq<Slot>): (r: seq<Slot>)
    ensures |r| == |s|
    decreases |s|
  {
    if s == [] then [] else [s[Oldest(s)]] + Sorted(Drop(s, Oldest(s)))
  }

  /** `a` comes before `b` in a stable sort of `s` by timestamp. */
  ghost predicate Before(s: seq<Slot>, a: Slot, b: Slot) {
    a.value.timestamp < b.value.timestamp || (a.value.timestamp == b.value.timestamp && Find(s, a.key) < Find(s, b.key))
  }

  lemma DropElements(s: seq<Slot>, i: nat)
    requires Distinct(s) && i < |s|
    ensures forall x :: x in Drop(s, i) <==> x in s && x != s[i]
    ensures multiset(s) == multiset(Drop(s, i)) + multiset{s[i]}
  {
    assert s == s[..i] + [s[i]] + s[i + 1..];
    forall x | x in s && x != s[i] ensures x in Drop(s, i) {
      var j :| 0 <= j < |s| && s[j] == x;
      assert x == Drop(s, i)[if j < i then j else j - 1];
    }
  }

  /** Dropping an entry keeps the relative order of the others. */
  lemma DropKeepsBefore(s: seq<Slot>, i: nat, a: Slot, b: Slot)
    requires Distinct(s) && i < |s| && a in Drop(s, i) && b in Drop(s, i)
    ensures Before(Drop(s, i), a, b) <==> Before(s, a, b)
  {
    DropFind(s, i, a);
    DropFind(s, i, b);
  }

  lemma {:induction false} DropFind(s: seq<Slot>, i: nat, a: Slot)
    requires Distinct(s) && i < |s| && a in Drop(s, i)
    ensures var j := Find(s, a.key); j < |s| && j != i && Find(Drop(s, i), a.key) == if j < i then j else j - 1
  {
    var k :| 0 <= k < |Drop(s, i)| && Drop(s, i)[k] == a;
    DropTotal(s, i);
    FindDistinct(Drop(s, i), k);
    FindDistinct(s, if k < i then k else k + 1);
  }

  /** The entry evicted first comes before all others. */
  lemma {:induction false} OldestFirst(s: seq<Slot>, b: Slot)
    requires Distinct(s) && s != [] && b in Drop(s, Oldest(s))
    ensures Before(s, s[Oldest(s)], b)
  {
    var o := Oldest(s);
    DropFind(s, o, b);
    FindDistinct(s, o);
    DropElements(s, o);
    KeyIdentifies(s, b);
    OldestIsOldest(s, Find(s, b.key));
  }

  lemma {:induction false} SortedIsPermutation(s: seq<Slot>)
    requires Distinct(s)
    ensures multiset(Sorted(s)) == multiset(s)
    ensures forall x :: x in Sorted(s) <==> x in s
    decreases |s|
  {
    if s == [] {
    } else {
      var o := Oldest(s);
      DropTotal(s, o);
      DropElements(s, o);
      SortedIsPermutation(Drop(s, o));
    }
  }

  /** `Sorted` is a stable sort by timestamp. */
  lemma {:induction false} SortedIsStable(s: seq<Slot>, i: nat, j: nat)
    requires Distinct(s) && i < j < |s|
    ensures Before(s, Sorted(s)[i], Sorted(s)[j])
    decreases |s|
  {
    var o := Oldest(s);
    var rest := Drop(s, o);
    DropTotal(s, o);
    SortedTail(s);
    if i == 0 {
      OldestFirst(s, Sorted(s)[j]);
    } else {
      SortedIsStable(rest, i - 1, j - 1);
      DropKeepsBefore(s, o, Sorted(s)[i], Sorted(s)[j]);
    }
  }

  lemma {:induction false} SortedTail(s: seq<Slot>)
    requires Distinct(s) && s != []
    ensures var rest := Drop(s, Oldest(s));
      && Sorted(s)[0] == s[Oldest(s)]
      && forall k :: 0 < k < |s| ==> Sorted(s)[k] == Sorted(rest)[k - 1] && Sorted(s)[k] in rest
  {
    DropTotal(s, Oldest(s));
    SortedIsPermutation(Drop(s, Oldest(s)));
  }

  lemma {:induction false} KeyIdentifies(s: seq<Slot>, x: Slot)
    requires Distinct(s) && x in s
    ensures Find(s, x.key) < |s| && s[Find(s, x.key)] == x
  {
    var i :| 0 <= i < |s| && s[i] == x;
    FindDistinct(s, i);
  }

  /** Exactly the `n` oldest go, ties in insertion order; the ledger of sizes is exact. */
  lemma {:induction false} EvictLaws(s: seq<Slot>, n: nat)
    requires Distinct(s)
    ensures Distinct(Evict(s, n))
    ensures |Evict(s, n)| == if n < |s| then |s| - n else 0
    ensures forall x :: x in Evict(s, n) ==> x in s
    ensures forall x, y :: x in Evict(s, n) && y in s && y !in Evict(s, n) ==> Before(s, y, x)
    decreases n
  {
    if n == 0 || s == [] {
    } else {
      var o := Oldest(s);
      var rest := Drop(s, o);
      DropTotal(s, o);
      DropElements(s, o);
      EvictLaws(rest, n - 1);
      forall x, y | x in Evict(s, n) && y in s && y !in Evict(s, n) ensures Before(s, y, x) {
        assert x in rest;
        if y == s[o] {
          OldestFirst(s, x);
        } else {
          DropKeepsBefore(s, o, y, x);
        }
      }
    }
  }

  lemma {:induction false} EvictTwice(s: seq<Slot>, m: nat, n: nat)
    ensures Evict(Evict(s, m), n) == Evict(s, m + n)
    decreases m
  {
    if m == 0 || s == [] {
    } else {
      EvictTwice(Drop(s, Oldest(s)), m - 1, n);
    }
  }

  // ------------------------------------------------------------------ operations

  predicate Expired(x: Slot, now: int, maxAge: int) {
    now - x.value.timestamp > maxAge
  }

  /** The expiry sweep. */
  function Unexpired(s: seq<Slot>, now: int, maxAge: int): seq<Slot> {
    if s == [] then []
    else if Expired(s[0], now, maxAge) then Unexpired(s[1..], now, maxAge)
    else [s[0]] + Unexpired(s[1..], now, maxAge)
  }

  /** A hit moves the entry's timestamp; an expired entry is removed. */
  function AfterGet(s: seq<Slot>, key: string, now: int, maxAge: int): seq<Slot> {
    var i := Find(s, key);
    if i == |s| then s
    else if Expired(s[i], now, maxAge) then Drop(s, i)
    else s[i := Touch(s[i], now)]
  }

  function Lookup(s: seq<Slot>, key: string, now: int, maxAge: int): Option<string> {
    var i := Find(s, key);
    if i < |s| && !Expired(s[i], now, maxAge) then Some(s[i].value.code) else None
  }

  /** How many of the oldest entries have to go before `size` more bytes fit. */
  function Needed(s: seq<Slot>, size: nat, max: nat): nat
    decreases |s|
  {
    if Total(s) + size <= max || s == [] then 0 else 1 + Needed(Drop(s, Oldest(s)), size, max)
  }

  function AfterSet(s: seq<Slot>, key: string, code: string, now: int, max: nat): seq<Slot> {
    var size := ByteLength(code);
    Put(Evict(s, Needed(s, size, max)), Entry(key, Compiled(code, now, size)))
  }

  /** `Math.ceil(n * 0.25)` and `Math.ceil(n * 0.5)`: both products are exact. */
  function QuarterUp(n: nat): nat { (n + 3) / 4 }
  function HalfUp(n: nat): nat { (n + 1) / 2 }

  function AfterPressure(s: seq<Slot>, heapUsedRatio: real): seq<Slot> {
    var t := if heapUsedRatio >= 0.70 then Evict(s, QuarterUp(|s|)) else s;
    if heapUsedRatio >= 0.85 then Evict(t, HalfUp(|t|)) else t
  }

  lemma {:induction false} EvictOne(s: seq<Slot>, n: nat)
    requires s != []
    ensures Evict(s, 1 + n) == Evict(Drop(s, Oldest(s)), n)
  {}

  /** One round of the loop that makes room. */
  lemma {:induction false} NeededStep(s: seq<Slot>, size: nat, max: nat, t: seq<Slot>)
    requires s != [] && max < Total(s) + size && t == Drop(s, Oldest(s))
    ensures Needed(s, size, max) == 1 + Needed(t, size, max)
    ensures Evict(s, Needed(s, size, max)) == Evict(t, Needed(t, size, max))
    ensures |t| == |s| - 1 && (Distinct(s) ==> Distinct(t))
  {
    DropTotal(s, Oldest(s));
    EvictOne(s, Needed(t, size, max));
  }

  lemma {:induction false} NeededFits(s: seq<Slot>, size: nat, max: nat)
    requires Distinct(s)
    ensures var n := Needed(s, size, max);
      n <= |s| && (n < |s| ==> Total(Evict(s, n)) + size <= max)
    decreases |s|
  {
    if Total(s) + size <= max || s == [] {
    } else {
      var t := Drop(s, Oldest(s));
      NeededStep(s, size, max, t);
      NeededFits(t, size, max);
    }
  }

  lemma {:induction false} FewerDoNotFit(s: seq<Slot>, size: nat, max: nat, m: nat)
    requires Distinct(s) && m < Needed(s, size, max)
    ensures Total(Evict(s, m)) + size > max
    decreases m
  {
    if m == 0 {
    } else {
      DropTotal(s, Oldest(s));
      FewerDoNotFit(Drop(s, Oldest(s)), size, max, m - 1);
    }
  }

  /**
   * Before a set, the evicted entries are the shortest oldest-first prefix that makes the
   * new code fit beside everything else, or all entries when nothing shorter does.
   */
  lemma {:induction false} NeededIsLeast(s: seq<Slot>, size: nat, max: nat, m: nat)
    requires Distinct(s)
    ensures var n := Needed(s, size, max);
      && n <= |s|
      && (n < |s| ==> Total(Evict(s, n)) + size <= max)
      && (m < n ==> Total(Evict(s, m)) + size > max)
  {
    NeededFits(s, size, max);
    if m < Needed(s, size, max) {
      FewerDoNotFit(s, size, max, m);
    }
  }

  /** Some entry of another key than the one being set is gone. */
  ghost predicate LosesOther(s: seq<Slot>, t: seq<Slot>, key: string) {
    exists y :: y in s && y.key != key && y !in t
  }

  lemma {:induction false} OthersStay(s: seq<Slot>, x: Slot)
    requires Distinct(s)
    ensures !LosesOther(s, Put(s, x), x.key)
  {
    PutElements(s, x);
  }

  /** Where the replaced entry is the oldest, it is the only one to go. */
  lemma {:induction false} ReplacedIsEvicted(s: seq<Slot>, key: string, code: string, now: int, max: nat)
    requires Distinct(s) && s != [] && Oldest(s) == Find(s, key)
    requires Total(s) - s[Oldest(s)].value.size + ByteLength(code) <= max < Total(s) + ByteLength(code)
    ensures !LosesOther(s, AfterSet(s, key, code, now, max), key)
  {
    var o := Oldest(s);
    var t := Drop(s, o);
    DropTotal(s, o);
    DropElements(s, o);
    EvictOne(s, 0);
    assert Needed(s, ByteLength(code), max) == 1;
    OthersStay(t, Entry(key, Compiled(code, now, ByteLength(code))));
  }

  lemma {:induction false} StaysGone(s: seq<Slot>, n: nat, x: Slot, y: Slot)
    requires Distinct(s) && y !in s && y.key != x.key
    ensures y !in Put(Evict(s, n), x)
  {
    EvictLaws(s, n);
    PutElements(Evict(s, n), x);
  }

  /** Any other oldest entry is gone for good. */
  lemma {:induction false} OtherIsEvicted(s: seq<Slot>, key: string, code: string, now: int, max: nat)
    requires Distinct(s) && s != [] && s[Oldest(s)].key != key && max < Total(s) + ByteLength(code)
    ensures LosesOther(s, AfterSet(s, key, code, now, max), key)
  {
    var y, size := s[Oldest(s)], ByteLength(code);
    var rest := Drop(s, Oldest(s));
    NeededStep(s, size, max, rest);
    DropElements(s, Oldest(s));
    StaysGone(rest, Needed(rest, size, max), Entry(key, Compiled(code, now, size)), y);
    assert y in s && y !in AfterSet(s, key, code, now, max);
  }

  /**
   * For a key already cached, the loop counts the old code beside the new one. An entry of
   * another key is lost, although everything would fit after the replacement, if and only
   * if the bound lies between the two totals and the replaced entry is not the oldest.
   */
  lemma {:induction false} ReplacementLosesOtherIff(s: seq<Slot>, key: string, code: string, now: int, max: nat)
    requires Distinct(s)
    ensures var size, i := ByteLength(code), Find(s, key);
      && Total(Put(s, Entry(key, Compiled(code, now, size)))) <= max
      && LosesOther(s, AfterSet(s, key, code, now, max), key)
      <==> i < |s| && Total(s) - s[i].value.size + size <= max < Total(s) + size && Oldest(s) != i
  {
    var x := Entry(key, Compiled(code, now, ByteLength(code)));
    PutTotal(s, x);
    if Total(s) + x.value.size <= max || s == [] {
      OthersStay(s, x);
    } else if Find(s, key) < |s| {
      if Oldest(s) != Find(s, key) {
        OtherIsEvicted(s, key, code, now, max);
      } else if Total(Put(s, x)) <= max {
        ReplacedIsEvicted(s, key, code, now, max);
      }
    }
  }

  /** `t` holds `n` of the entries of `s`, and every other one is older than each of them. */
  ghost predicate NewestKept(s: seq<Slot>, t: seq<Slot>, n: int) {
    && |t| == n && Distinct(t)
    && (forall x :: x in t ==> x in s)
    && (forall x, y :: x in t && y in s && y !in t ==> Before(s, y, x))
  }

  lemma {:induction false} EvictKeeps(s: seq<Slot>, n: nat, kept: nat, t: seq<Slot>)
    requires Distinct(s) && n + kept == |s| && t == Evict(s, n)
    ensures NewestKept(s, t, kept)
  {
    EvictLaws(s, n);
  }

  lemma {:induction false} MediumPressure(s: seq<Slot>)
    requires Distinct(s)
    ensures NewestKept(s, Evict(s, QuarterUp(|s|)), 3 * |s| / 4)
  {
    KeptCount(|s|);
    EvictKeeps(s, QuarterUp(|s|), 3 * |s| / 4, Evict(s, QuarterUp(|s|)));
  }

  lemma {:induction false} TwoEvictions(s: seq<Slot>, m: nat, n: nat, kept: nat, t: seq<Slot>)
    requires Distinct(s) && m + n + kept == |s| && t == Evict(Evict(s, m), n)
    ensures NewestKept(s, t, kept)
  {
    EvictTwice(s, m, n);
    EvictKeeps(s, m + n, kept, t);
  }

  lemma {:induction false} HighCount(n: nat, q: nat, h: nat)
    requires q == QuarterUp(n) && h == HalfUp(if q < n then n - q else 0)
    ensures q + h + 3 * n / 8 == n
  {
    KeptCount(n);
  }

  /** High pressure keeps three eighths, medium pressure three quarters, and the newest ones. */
  lemma {:induction false} PressureLaws(s: seq<Slot>, heapUsedRatio: real)
    requires Distinct(s)
    ensures NewestKept(s, AfterPressure(s, heapUsedRatio),
      if heapUsedRatio >= 0.85 then 3 * |s| / 8 else if heapUsedRatio >= 0.70 then 3 * |s| / 4 else |s|)
  {
    if heapUsedRatio < 0.70 {
      assert AfterPressure(s, heapUsedRatio) == s;
    } else if heapUsedRatio < 0.85 {
      assert AfterPressure(s, heapUsedRatio) == Evict(s, QuarterUp(|s|));
      MediumPressure(s);
    } else {
      var q := QuarterUp(|s|);
      EvictCount(s, q);
      var h := HalfUp(if q < |s| then |s| - q else 0);
      HighCount(|s|, q, h);
      TwoEvictions(s, q, h, 3 * |s| / 8, AfterPressure(s, heapUsedRatio));
    }
  }

  lemma {:induction false} EvictCount(s: seq<Slot>, n: nat)
    requires Distinct(s)
    ensures |Evict(s, n)| == if n < |s| then |s| - n else 0
  {
    EvictLaws(s, n);
  }

  lemma KeptCount(n: nat)
    ensures QuarterUp(n) <= n && n - QuarterUp(n) == 3 * n / 4
    ensures HalfUp(3 * n / 4) <= 3 * n / 4 && 3 * n / 4 - HalfUp(3 * n / 4) == 3 * n / 8
  {}

  // ------------------------------------------------------------------ runs

  datatype Op =
    | Set(key: string, code: string, now: int)
    | Get(key: string, now: int)
    | Delete(key: string)
    | Clear
    | Sweep(now: int)
    | Pressure(heapUsedRatio: real)

  function Apply(s: seq<Slot>, op: Op, maxAge: int, max: nat): seq<Slot> {
    match op
    case Set(key, code, now) => AfterSet(s, key, code, now, max)
    case Get(key, now) => AfterGet(s, key, now, maxAge)
    case Delete(key) => Without(s, key)
    case Clear => []
    case Sweep(now) => Unexpired(s, now, maxAge)
    case Pressure(ratio) => AfterPressure(s, ratio)
  }

  function Run(ops: seq<Op>, maxAge: int, max: nat): seq<Slot> {
    if ops == [] then [] else Apply(Run(ops[..|ops| - 1], maxAge, max), ops[|ops| - 1], maxAge, max)
  }

  /** The reference: what each key was last set to since its last delete or clear. */
  function LastSet(ops: seq<Op>): map<string, string> {
    if ops == [] then map[]
    else
      var m := LastSet(ops[..|ops| - 1]);
      match ops[|ops| - 1]
      case Set(key, code, _) => m[key := code]
      case Delete(key) => m - {key}
      case Clear => map[]
      case _ => m
  }

  /** Cached code is the last code set, sizes are right, and the byte bound holds. */
  ghost predicate Agrees(s: seq<Slot>, m: map<string, string>, max: nat) {
    && Distinct(s)
    && (forall x :: x in s ==> x.key in m && m[x.key] == x.value.code && x.value.size == ByteLength(x.value.code))
    && (Total(s) <= max || |s| == 1)
  }

  /** Removing entries keeps the agreement. */
  lemma {:induction false} FewerAgree(s: seq<Slot>, t: seq<Slot>, m: map<string, string>, max: nat)
    requires Agrees(s, m, max) && Distinct(t) && Total(t) <= Total(s)
    requires |t| <= |s| && (|t| == 0 ==> Total(t) == 0) && forall x :: x in t ==> x in s
    ensures Agrees(t, m, max)
  {}

  lemma {:induction false} EvictShrinks(s: seq<Slot>, n: nat)
    ensures Total(Evict(s, n)) <= Total(s) && |Evict(s, n)| <= |s|
    decreases n
  {
    if n == 0 || s == [] {
    } else {
      var rest := Drop(s, Oldest(s));
      assert Evict(s, n) == Evict(rest, n - 1);
      DropTotal(s, Oldest(s));
      EvictShrinks(rest, n - 1);
    }
  }

  lemma {:induction false} UnexpiredShrinks(s: seq<Slot>, now: int, maxAge: int)
    ensures Total(Unexpired(s, now, maxAge)) <= Total(s) && |Unexpired(s, now, maxAge)| <= |s|
    decreases |s|
  {
    if s == [] {
    } else {
      var rest := Unexpired(s[1..], now, maxAge);
      UnexpiredShrinks(s[1..], now, maxAge);
      assert [] + rest == rest;
      assert ([s[0]] + rest)[1..] == rest;
    }
  }

  lemma PrependDistinct(x: Slot, s: seq<Slot>)
    requires Distinct(s) && forall y :: y in s ==> y.key != x.key
    ensures Distinct([x] + s)
  {}

  lemma HeadKeyUnique(s: seq<Slot>, y: Slot)
    requires Distinct(s) && s != [] && y in s[1..]
    ensures y.key != s[0].key
  {
    var i :| 0 <= i < |s[1..]| && s[1..][i] == y;
    assert s[i + 1] == y;
  }

  /** The sweep keeps exactly the live entries. */
  lemma {:induction false} UnexpiredElements(s: seq<Slot>, now: int, maxAge: int)
    requires Distinct(s)
    ensures Distinct(Unexpired(s, now, maxAge))
    ensures forall x :: x in Unexpired(s, now, maxAge) <==> x in s && !Expired(x, now, maxAge)
    decreases |s|
  {
    if s == [] {
    } else {
      var rest := Unexpired(s[1..], now, maxAge);
      UnexpiredElements(s[1..], now, maxAge);
      assert s == [s[0]] + s[1..];
      if Expired(s[0], now, maxAge) {
        assert Unexpired(s, now, maxAge) == rest;
      } else {
        assert Unexpired(s, now, maxAge) == [s[0]] + rest;
        forall x | x in rest ensures x.key != s[0].key { HeadKeyUnique(s, x); }
        PrependDistinct(s[0], rest);
      }
    }
  }

  /** The byte bound after a set, for a present key and for a new one. */
  lemma SetFits(s: seq<Slot>, key: string, code: string, now: int, max: nat)
    requires Distinct(s)
    ensures var t := AfterSet(s, key, code, now, max); Distinct(t) && (Total(t) <= max || |t| == 1)
  {
    var size := ByteLength(code);
    var n := Needed(s, size, max);
    NeededIsLeast(s, size, max, 0);
    EvictLaws(s, n);
    PutTotal(Evict(s, n), Entry(key, Compiled(code, now, size)));
  }

  lemma {:induction false} PutAgrees(s: seq<Slot>, m: map<string, string>, x: Slot, max: nat)
    requires Distinct(s) && x.value.size == ByteLength(x.value.code)
    requires forall y :: y in s ==>
      y.key in m && m[y.key] == y.value.code && y.value.size == ByteLength(y.value.code)
    requires Distinct(Put(s, x)) && (Total(Put(s, x)) <= max || |Put(s, x)| == 1)
    ensures Agrees(Put(s, x), m[x.key := x.value.code], max)
  {
    PutElements(s, x);
  }

  lemma {:induction false} SetAgrees(s: seq<Slot>, m: map<string, string>, key: string, code: string,
                                     now: int, max: nat)
    requires Agrees(s, m, max)
    ensures Agrees(AfterSet(s, key, code, now, max), m[key := code], max)
  {
    var size := ByteLength(code);
    var n := Needed(s, size, max);
    SetFits(s, key, code, now, max);
    EvictMembers(s, n);
    PutAgrees(Evict(s, n), m, Entry(key, Compiled(code, now, size)), max);
  }

  lemma {:induction false} EvictMembers(s: seq<Slot>, n: nat)
    requires Distinct(s)
    ensures Distinct(Evict(s, n)) && forall x :: x in Evict(s, n) ==> x in s
  {
    EvictLaws(s, n);
  }

  lemma PutElements(s: seq<Slot>, x: Slot)
    requires Distinct(s)
    ensures forall y :: y in Put(s, x) <==> y == x || (y in s && y.key != x.key)
  {
    var i := Find(s, x.key);
    forall y ensures y in Put(s, x) <==> y == x || (y in s && y.key != x.key) {
      if y in s {
        KeyIdentifies(s, y);
      }
      if i < |s| {
        assert Put(s, x)[i] == x;
        if y in s && y.key != x.key {
          assert Put(s, x)[Find(s, y.key)] == y;
        }
      }
    }
  }

  lemma {:induction false} GetAgrees(s: seq<Slot>, m: map<string, string>, key: string, now: int, maxAge: int, max: nat)
    requires Agrees(s, m, max)
    ensures Agrees(AfterGet(s, key, now, maxAge), m, max)
  {
    var i := Find(s, key);
    if i < |s| {
      if Expired(s[i], now, maxAge) {
        DropAgrees(s, m, max, i);
      } else {
        TouchAgrees(s, m, max, i, now);
      }
    }
  }

  lemma {:induction false} TouchAgrees(s: seq<Slot>, m: map<string, string>, max: nat, i: nat, now: int)
    requires Agrees(s, m, max) && i < |s|
    ensures Agrees(s[i := Touch(s[i], now)], m, max)
  {
    var x := Touch(s[i], now);
    FindDistinct(s, i);
    PutTotal(s, x);
    PutElements(s, x);
  }

  lemma {:induction false} DeleteAgrees(s: seq<Slot>, m: map<string, string>, key: string, max: nat)
    requires Agrees(s, m, max)
    ensures Agrees(Without(s, key), m - {key}, max)
  {
    if Find(s, key) < |s| {
      DropAgrees(s, m, max, Find(s, key));
    }
    WithoutKey(s, key);
  }

  lemma {:induction false} SweepAgrees(s: seq<Slot>, m: map<string, string>, now: int, maxAge: int, max: nat)
    requires Agrees(s, m, max)
    ensures Agrees(Unexpired(s, now, maxAge), m, max)
  {
    UnexpiredShrinks(s, now, maxAge);
    UnexpiredElements(s, now, maxAge);
    FewerAgree(s, Unexpired(s, now, maxAge), m, max);
  }

  lemma {:induction false} PressureAgrees(s: seq<Slot>, m: map<string, string>, ratio: real, max: nat)
    requires Agrees(s, m, max)
    ensures Agrees(AfterPressure(s, ratio), m, max)
  {
    PressureLaws(s, ratio);
    PressureShrinks(s, ratio);
    FewerAgree(s, AfterPressure(s, ratio), m, max);
  }

  lemma {:induction false} ApplyAgrees(s: seq<Slot>, m: map<string, string>, op: Op, maxAge: int, max: nat)
    requires Agrees(s, m, max)
    ensures !op.Set? && !op.Delete? && !op.Clear? ==> Agrees(Apply(s, op, maxAge, max), m, max)
    ensures op.Delete? ==> Agrees(Apply(s, op, maxAge, max), m - {op.key}, max)
  {
    match op
    case Get(key, now) => GetAgrees(s, m, key, now, maxAge, max);
    case Delete(key) => DeleteAgrees(s, m, key, max);
    case Sweep(now) => SweepAgrees(s, m, now, maxAge, max);
    case Pressure(ratio) => PressureAgrees(s, m, ratio, max);
    case _ =>
  }

  lemma DropAgrees(s: seq<Slot>, m: map<string, string>, max: nat, i: nat)
    requires Agrees(s, m, max) && i < |s|
    ensures Agrees(Drop(s, i), m, max)
  {
    DropTotal(s, i);
    DropElements(s, i);
    FewerAgree(s, Drop(s, i), m, max);
  }

  lemma WithoutKey(s: seq<Slot>, key: string)
    requires Distinct(s)
    ensures forall x :: x in Without(s, key) ==> x.key != key
  {
    var i := Find(s, key);
    if i < |s| {
      DropElements(s, i);
      forall x | x in Without(s, key) ensures x.key != key {
        KeyIdentifies(s, x);
      }
    }
  }

  lemma {:induction false} PressureShrinks(s: seq<Slot>, ratio: real)
    ensures Total(AfterPressure(s, ratio)) <= Total(s)
  {
    EvictShrinks(s, QuarterUp(|s|));
    EvictShrinks(Evict(s, QuarterUp(|s|)), HalfUp(|Evict(s, QuarterUp(|s|))|));
  }

  lemma {:induction false} RunAgrees(ops: seq<Op>, maxAge: int, max: nat)
    ensures Agrees(Run(ops, maxAge, max), LastSet(ops), max)
    decreases |ops|
  {
    if ops == [] {
    } else {
      var front, op := ops[..|ops| - 1], ops[|ops| - 1];
      RunAgrees(front, maxAge, max);
      var s, m := Run(front, maxAge, max), LastSet(front);
      if op.Set? {
        SetAgrees(s, m, op.key, op.code, op.now, max);
      } else {
        ApplyAgrees(s, m, op, maxAge, max);
      }
    }
  }

  /**
   * After any operations, at any times, the cache holds a subset of the last codes set
   * within its byte bound (or a single oversized entry), and a lookup returns nothing or
   * the last code set for the key since its last delete or clear.
   */
  lemma {:induction false} CacheRefinesLastSet(ops: seq<Op>, maxAge: int, max: nat, key: string, now: int)
    ensures var s := Run(ops, maxAge, max);
      && (Total(s) <= max || |s| == 1)
      && var r := Lookup(s, key, now, maxAge);
         r.Some? ==> key in LastSet(ops) && r.value == LastSet(ops)[key]
  {
    RunAgrees(ops, maxAge, max);
  }

  /** Two paths are set, and the second one is set again. */
  function Replacing(b: string, a: string, a': string): seq<Op> {
    [Set("b", b, 0), Set("a", a, 1), Set("a", a', 2)]
  }

  /** The last step loses the first path although both codes would fit. */
  lemma {:induction false} ReplacingLosesFirst(b: string, a: string, a': string, maxAge: int, max: nat)
    requires ByteLength(b) + ByteLength(a) <= max && ByteLength(b) + ByteLength(a') <= max
    requires max < ByteLength(b) + ByteLength(a) + ByteLength(a')
    ensures var ops := Replacing(b, a, a');
      && Run(ops[..2], maxAge, max) ==
           [Entry("b", Compiled(b, 0, ByteLength(b))), Entry("a", Compiled(a, 1, ByteLength(a)))]
      && Run(ops, maxAge, max) == [Entry("a", Compiled(a', 2, ByteLength(a')))]
  {
    var ops := Replacing(b, a, a');
    var y, z, x := Entry("b", Compiled(b, 0, ByteLength(b))), Entry("a", Compiled(a, 1, ByteLength(a))),
                   Entry("a", Compiled(a', 2, ByteLength(a')));
    assert ops[..2][..1] == ops[..1] && ops[..1][..0] == [];
    assert Run(ops[..1], maxAge, max) == [y];
    AddSecond(y, z, max);
    assert Run(ops[..2], maxAge, max) == [y, z];
    ReplaceSecond(y, z, x, max);
  }

  lemma {:induction false} AddSecond(y: Slot, z: Slot, max: nat)
    requires y.key != z.key && y.value.size + z.value.size <= max
    ensures Put(Evict([y], Needed([y], z.value.size, max)), z) == [y, z]
  {
    var one := [y];
    assert one[1..] == [] && one + [z] == [y, z];
    assert Total(one) + z.value.size <= max;
    assert Needed(one, z.value.size, max) == 0;
    assert Find(one, z.key) == 1;
  }

  lemma {:induction false} ReplaceSecond(y: Slot, z: Slot, x: Slot, max: nat)
    requires y.key != x.key == z.key && y.value.timestamp <= z.value.timestamp
    requires max < y.value.size + z.value.size + x.value.size
    ensures Put(Evict([y, z], Needed([y, z], x.value.size, max)), x) == [x]
  {
    assert [y, z][1..] == [z] && [z][1..] == [];
    assert Oldest([z]) == 0 && Drop([z], 0) == [];
    assert Oldest([y, z]) == 0 && Drop([y, z], 0) == [z];
    var n := Needed([z], x.value.size, max);
    EvictOne([y, z], n);
    if n == 1 {
      EvictOne([z], 0);
    }
  }

  /** For instance, one byte each and room for two. */
  lemma {:induction false} ReplacingLosesFirstExample(maxAge: int)
    ensures Run(Replacing("x", "y", "z"), maxAge, 2) == [Entry("a", Compiled("z", 2, 1))]
  {
    assert forall code: string :: |code| == 1 && code[0] < '\U{0080}' ==> ByteLength(code) == 1;
    ReplacingLosesFirst("x", "y", "z", maxAge, 2);
  }

  // ------------------------------------------------------------------ sweeps are invisible

  datatype Read = Look(key: string, now: int) | SweepAt(now: int)

  /** The clock starts at `from` and never goes back. */
  ghost predicate Monotone(rs: seq<Read>, from: int)
    decreases |rs|
  {
    rs != [] ==> from <= rs[0].now && Monotone(rs[1..], rs[0].now)
  }

  /** The answers of the lookups in a run of lookups and sweeps. */
  function Answers(s: seq<Slot>, rs: seq<Read>, maxAge: int): seq<Option<string>>
    decreases |rs|
  {
    if rs == [] then []
    else match rs[0]
      case Look(key, now) =>
        [Lookup(s, key, now, maxAge)] + Answers(AfterGet(s, key, now, maxAge), rs[1..], maxAge)
      case SweepAt(now) => Answers(Unexpired(s, now, maxAge), rs[1..], maxAge)
  }

  function Looks(rs: seq<Read>): seq<Read> {
    if rs == [] then []
    else (if rs[0].Look? then [rs[0]] else []) + Looks(rs[1..])
  }

  /** The live entry of a key. */
  ghost function LiveSlot(s: seq<Slot>, key: string, now: int, maxAge: int): Option<Slot> {
    var i := Find(s, key);
    if i < |s| && !Expired(s[i], now, maxAge) then Some(s[i]) else None
  }

  /** Indistinguishable from time `now` on. */
  ghost predicate SameLive(s: seq<Slot>, t: seq<Slot>, now: int, maxAge: int) {
    Distinct(s) && Distinct(t) && forall key :: LiveSlot(s, key, now, maxAge) == LiveSlot(t, key, now, maxAge)
  }

  lemma SameLiveLater(s: seq<Slot>, t: seq<Slot>, now: int, later: int, maxAge: int)
    requires SameLive(s, t, now, maxAge) && now <= later
    ensures SameLive(s, t, later, maxAge)
  {
    forall key ensures LiveSlot(s, key, later, maxAge) == LiveSlot(t, key, later, maxAge) {
      assert LiveSlot(s, key, now, maxAge) == LiveSlot(t, key, now, maxAge);
    }
  }

  lemma {:induction false} SweepKeepsLive(s: seq<Slot>, now: int, maxAge: int)
    requires Distinct(s)
    ensures SameLive(Unexpired(s, now, maxAge), s, now, maxAge)
  {
    var t := Unexpired(s, now, maxAge);
    UnexpiredElements(s, now, maxAge);
    forall key ensures LiveSlot(t, key, now, maxAge) == LiveSlot(s, key, now, maxAge) {
      if Find(s, key) < |s| && !Expired(s[Find(s, key)], now, maxAge) {
        KeyIdentifies(t, s[Find(s, key)]);
      } else if Find(t, key) < |t| {
        KeyIdentifies(s, t[Find(t, key)]);
      }
    }
  }

  lemma {:induction false} ExpiredIsNotLive(s: seq<Slot>, i: nat, now: int, maxAge: int, k: string)
    requires Distinct(s) && i < |s| && Expired(s[i], now, maxAge)
    ensures Distinct(Drop(s, i)) && LiveSlot(Drop(s, i), k, now, maxAge) == LiveSlot(s, k, now, maxAge)
  {
    var t := Drop(s, i);
    DropTotal(s, i);
    DropElements(s, i);
    FindDistinct(s, i);
    if Find(s, k) < |s| && k != s[i].key {
      KeyIdentifies(t, s[Find(s, k)]);
    } else if Find(t, k) < |t| {
      KeyIdentifies(s, t[Find(t, k)]);
    }
  }

  lemma {:induction false} TouchedIsLive(s: seq<Slot>, i: nat, now: int, k: string)
    requires Distinct(s) && i < |s|
    ensures var t := s[i := Touch(s[i], now)]; Distinct(t) && Find(t, k) == Find(s, k)
  {
    var t := s[i := Touch(s[i], now)];
    if Find(s, k) < |s| {
      FindDistinct(t, Find(s, k));
    } else if Find(t, k) < |t| {
      FindDistinct(s, Find(t, k));
    }
  }

  lemma {:induction false} GetLive(s: seq<Slot>, key: string, now: int, maxAge: int, k: string)
    requires Distinct(s)
    ensures Distinct(AfterGet(s, key, now, maxAge))
    ensures LiveSlot(AfterGet(s, key, now, maxAge), k, now, maxAge) ==
      var x := LiveSlot(s, k, now, maxAge);
      if k == key && x.Some? && 0 <= maxAge then Some(Touch(x.value, now)) else
      if k == key then None else x
  {
    var i := Find(s, key);
    if i < |s| && Expired(s[i], now, maxAge) {
      ExpiredIsNotLive(s, i, now, maxAge, k);
    } else if i < |s| {
      TouchedIsLive(s, i, now, k);
    }
  }

  lemma {:induction false} GetKeepsSameLive(s: seq<Slot>, t: seq<Slot>, key: string, now: int, maxAge: int)
    requires SameLive(s, t, now, maxAge)
    ensures SameLive(AfterGet(s, key, now, maxAge), AfterGet(t, key, now, maxAge), now, maxAge)
    ensures Lookup(s, key, now, maxAge) == Lookup(t, key, now, maxAge)
  {
    var s', t' := AfterGet(s, key, now, maxAge), AfterGet(t, key, now, maxAge);
    GetLive(s, key, now, maxAge, key);
    GetLive(t, key, now, maxAge, key);
    forall k ensures LiveSlot(s', k, now, maxAge) == LiveSlot(t', k, now, maxAge) {
      GetLive(s, key, now, maxAge, k);
      GetLive(t, key, now, maxAge, k);
    }
    assert LiveSlot(s, key, now, maxAge) == LiveSlot(t, key, now, maxAge);
  }

  lemma {:induction false} SweepKeepsSameLive(s: seq<Slot>, t: seq<Slot>, now: int, maxAge: int)
    requires SameLive(s, t, now, maxAge)
    ensures SameLive(Unexpired(s, now, maxAge), t, now, maxAge)
  {
    SweepKeepsLive(s, now, maxAge);
    forall key ensures LiveSlot(Unexpired(s, now, maxAge), key, now, maxAge) == LiveSlot(t, key, now, maxAge) {
      assert LiveSlot(Unexpired(s, now, maxAge), key, now, maxAge) == LiveSlot(s, key, now, maxAge);
    }
  }

  lemma {:induction false} AnswersDependOnLive(s: seq<Slot>, t: seq<Slot>, rs: seq<Read>, maxAge: int, now: int)
    requires SameLive(s, t, now, maxAge) && Monotone(rs, now)
    ensures Answers(s, rs, maxAge) == Answers(t, Looks(rs), maxAge)
    decreases |rs|
  {
    if rs == [] {
    } else {
      var at := rs[0].now;
      var rest := rs[1..];
      assert Monotone(rest, at);
      SameLiveLater(s, t, now, at, maxAge);
      match rs[0]
      case SweepAt(_) =>
        SweepKeepsSameLive(s, t, at, maxAge);
        AnswersDependOnLive(Unexpired(s, at, maxAge), t, rest, maxAge, at);
        assert Looks(rs) == Looks(rest);
      case Look(key, _) =>
        GetKeepsSameLive(s, t, key, at, maxAge);
        AnswersDependOnLive(AfterGet(s, key, at, maxAge), AfterGet(t, key, at, maxAge), rest, maxAge, at);
        assert LiveSlot(s, key, at, maxAge) == LiveSlot(t, key, at, maxAge);
        assert Looks(rs) == [rs[0]] + Looks(rest) && Looks(rs)[1..] == Looks(rest);
    }
  }

  /** Under a monotone clock, sweeps inserted anywhere into a run of lookups change no answer. */
  lemma {:induction false} SweepsAreInvisible(s: seq<Slot>, rs: seq<Read>, maxAge: int, now: int)
    requires Distinct(s) && Monotone(rs, now)
    ensures Answers(s, rs, maxAge) == Answers(s, Looks(rs), maxAge)
  {
    AnswersDependOnLive(s, s, rs, maxAge, now);
  }

  // ------------------------------------------------------------------ how long an entry lives

  /** The slots after a run of lookups and sweeps. */
  function AfterReads(s: seq<Slot>, rs: seq<Read>, maxAge: int): seq<Slot>
    decreases |rs|
  {
    if rs == [] then s
    else match rs[0]
      case Look(key, now) => AfterReads(AfterGet(s, key, now, maxAge), rs[1..], maxAge)
      case SweepAt(now) => AfterReads(Unexpired(s, now, maxAge), rs[1..], maxAge)
  }

  /**
   * When the entry of `key`, last used at `since`, was last used after some lookups and
   * sweeps; `None` once any of them has come more than `maxAge` after its last use.
   */
  function LastUse(rs: seq<Read>, key: string, since: int, maxAge: int): Option<int>
    decreases |rs|
  {
    if rs == [] then Some(since)
    else if rs[0].Look? && rs[0].key != key then LastUse(rs[1..], key, since, maxAge)
    else if rs[0].now > since + maxAge then None
    else LastUse(rs[1..], key, if rs[0].Look? then rs[0].now else since, maxAge)
  }

  function SlotOf(s: seq<Slot>, key: string): Option<Slot> {
    if Find(s, key) < |s| then Some(s[Find(s, key)]) else None
  }

  lemma {:induction false} SlotIs(s: seq<Slot>, x: Slot)
    requires Distinct(s)
    ensures x in s <==> SlotOf(s, x.key) == Some(x)
  {
    if x in s {
      KeyIdentifies(s, x);
    }
  }

  /** Two maps with the same entry, or none, for a key. */
  lemma {:induction false} SameSlot(s: seq<Slot>, t: seq<Slot>, key: string)
    requires Distinct(s) && Distinct(t) && forall x: Slot :: x.key == key ==> (x in s <==> x in t)
    ensures SlotOf(s, key) == SlotOf(t, key)
  {
    if SlotOf(s, key).Some? {
      SlotIs(s, SlotOf(s, key).value);
      SlotIs(t, SlotOf(s, key).value);
    } else if SlotOf(t, key).Some? {
      SlotIs(s, SlotOf(t, key).value);
      SlotIs(t, SlotOf(t, key).value);
    }
  }

  /** What a lookup of any key does to the entry of `key`. */
  lemma {:induction false} SlotAfterGet(s: seq<Slot>, k: string, key: string, now: int, maxAge: int)
    requires Distinct(s)
    ensures var t := AfterGet(s, k, now, maxAge);
      && Distinct(t)
      && SlotOf(t, key) ==
           if k != key || SlotOf(s, key).None? then SlotOf(s, key)
           else if now > SlotOf(s, key).value.value.timestamp + maxAge then None
           else Some(Touch(SlotOf(s, key).value, now))
  {
    var i := Find(s, k);
    if i < |s| {
      if Expired(s[i], now, maxAge) {
        DropTotal(s, i);
        DropElements(s, i);
        if k == key {
          FindDistinct(s, i);
          NoSlot(Drop(s, i), key, s[i], s);
        } else {
          SameSlot(s, Drop(s, i), key);
        }
      } else {
        TouchedIsLive(s, i, now, key);
      }
    }
  }

  lemma {:induction false} NoSlot(t: seq<Slot>, key: string, x: Slot, s: seq<Slot>)
    requires Distinct(s) && x in s && x.key == key && forall y :: y in t <==> y in s && y != x
    ensures SlotOf(t, key).None?
  {
    if SlotOf(t, key).Some? {
      var y := SlotOf(t, key).value;
      assert y in t;
      KeyIdentifies(s, y);
      KeyIdentifies(s, x);
      assert false;
    }
  }

  lemma {:induction false} SlotAfterSweep(s: seq<Slot>, key: string, now: int, maxAge: int)
    requires Distinct(s)
    ensures var t := Unexpired(s, now, maxAge);
      && Distinct(t)
      && SlotOf(t, key) ==
           if SlotOf(s, key).Some? && now > SlotOf(s, key).value.value.timestamp + maxAge then None else SlotOf(s, key)
  {
    var t := Unexpired(s, now, maxAge);
    UnexpiredElements(s, now, maxAge);
    if SlotOf(s, key).Some? {
      var x := SlotOf(s, key).value;
      SlotIs(s, x);
      SlotIs(t, x);
    }
    if SlotOf(t, key).Some? {
      var y := SlotOf(t, key).value;
      SlotIs(t, y);
      SlotIs(s, y);
    }
  }

  lemma {:induction false} ReadsKeepSlot(s: seq<Slot>, rs: seq<Read>, key: string, maxAge: int)
    requires Distinct(s)
    ensures var t := AfterReads(s, rs, maxAge);
      && Distinct(t)
      && (SlotOf(s, key).None? ==> SlotOf(t, key).None?)
      && (SlotOf(s, key).Some? ==>
            var x := SlotOf(s, key).value;
            var u := LastUse(rs, key, x.value.timestamp, maxAge);
            SlotOf(t, key) == if u.Some? then Some(Touch(x, u.value)) else None)
    decreases |rs|
  {
    if rs == [] {
    } else {
      var t := if rs[0].Look? then AfterGet(s, rs[0].key, rs[0].now, maxAge) else Unexpired(s, rs[0].now, maxAge);
      if rs[0].Look? {
        SlotAfterGet(s, rs[0].key, key, rs[0].now, maxAge);
      } else {
        SlotAfterSweep(s, key, rs[0].now, maxAge);
      }
      ReadsKeepSlot(t, rs[1..], key, maxAge);
    }
  }

  /**
   * After a set, and any lookups and sweeps of anything at any times, a lookup returns the
   * code if and only if it and each of them came within `maxAge` of the path's last use, a
   * use being the set or a lookup of the path that found it.
   */
  lemma {:induction false} LivesUntilUnused(s: seq<Slot>, key: string, code: string, since: int, max: nat,
                                            rs: seq<Read>, now: int, maxAge: int)
    requires Distinct(s)
    ensures var u := LastUse(rs, key, since, maxAge);
      Lookup(AfterReads(AfterSet(s, key, code, since, max), rs, maxAge), key, now, maxAge)
        == if u.Some? && now <= u.value + maxAge then Some(code) else None
  {
    var t := AfterSet(s, key, code, since, max);
    var x := Entry(key, Compiled(code, since, ByteLength(code)));
    SetFits(s, key, code, since, max);
    SetHolds(Evict(s, Needed(s, ByteLength(code), max)), x);
    SlotIs(t, x);
    ReadsKeepSlot(t, rs, key, maxAge);
  }

  lemma {:induction false} SetHolds(s: seq<Slot>, x: Slot)
    ensures x in Put(s, x)
  {
    var i := Find(s, x.key);
    assert Put(s, x)[i] == x;
  }
}

/** The cache as the class it is, each method against the specification above. */
module CompiledCodeCache {
  import opened Options
  import opened JsMap
  import opened CacheSpec

  class Cache {
    var slots: seq<Slot>
    var totalCacheSize: int
    const maxAge: int
    const maxCacheSize: nat := 100 * 1024 * 1024

    /** The running total is the sum of the stored sizes. */
    ghost predicate Valid()
      reads this
    {
      Distinct(slots) && totalCacheSize == Total(slots)
    }

    constructor (maxAgeMs: int)
      ensures Valid() && slots == [] && maxAge == maxAgeMs
    {
      maxAge := maxAgeMs;
      slots := [];
      totalCacheSize := 0;
    }

    /** `Map.delete` followed by the size adjustment that every caller makes. */
    method Remove(key: string) returns (removed: bool)
      requires Valid()
      modifies this
      ensures Valid() && slots == Without(old(slots), key)
      ensures removed <==> Find(old(slots), key) < |old(slots)|
    {
      var i := Find(slots, key);
      removed := i < |slots|;
      if removed {
        DropTotal(slots, i);
        totalCacheSize := totalCacheSize - slots[i].value.size;
        slots := Drop(slots, i);
      }
    }

    method EvictExpired(now: int)
      requires Valid()
      modifies this
      ensures Valid() && slots == Unexpired(old(slots), now, maxAge)
    {
      var i := 0;
      ghost var done := 0;
      while i < |slots|
        invariant 0 <= i <= |slots| && 0 <= done && done + |slots| - i == |old(slots)|
        invariant Valid()
        invariant slots[..i] == Unexpired(old(slots)[..done], now, maxAge)
        invariant slots[i..] == old(slots)[done..]
        decreases |slots| - i
      {
        SweepStep(old(slots), slots, i, done, now, maxAge);
        if now - slots[i].value.timestamp > maxAge {
          var removed := Remove(slots[i].key);
        } else {
          i := i + 1;
        }
        done := done + 1;
      }
      assert slots[..i] == slots && old(slots)[..done] == old(slots);
    }

    method EvictOldest(count: nat)
      requires Valid()
      modifies this
      ensures Valid() && slots == Evict(old(slots), count)
    {
      var entries := Sorted(slots);
      var evicted := 0;
      while evicted < |entries| && evicted < count
        invariant evicted <= count && Valid() && Evicting(old(slots), slots, evicted, entries)
      {
        EvictFront(old(slots), slots, evicted, entries);
        var removed := Remove(entries[evicted].key);
        evicted := evicted + 1;
      }
      EvictDone(old(slots), slots, evicted, entries, count);
    }

    method CheckMemoryPressure(heapUsedRatio: real)
      requires Valid()
      modifies this
      ensures Valid() && slots == AfterPressure(old(slots), heapUsedRatio)
    {
      if heapUsedRatio >= 0.70 {
        var evictCount := QuarterUp(|slots|);
        if evictCount > 0 { EvictOldest(evictCount); }
      }
      if heapUsedRatio >= 0.85 {
        var evictCount := HalfUp(|slots|);
        if evictCount > 0 { EvictOldest(evictCount); }
      }
    }

    method Get(pluginPath: string, now: int) returns (r: Option<string>)
      requires Valid()
      modifies this
      ensures Valid() && slots == AfterGet(old(slots), pluginPath, now, maxAge)
      ensures r == Lookup(old(slots), pluginPath, now, maxAge)
    {
      var i := Find(slots, pluginPath);
      if i == |slots| { return None; }
      if now - slots[i].value.timestamp > maxAge {
        var removed := Remove(pluginPath);
        return None;
      }
      PutTotal(slots, Touch(slots[i], now));
      r := Some(slots[i].value.code);
      slots := slots[i := Touch(slots[i], now)];
    }

    method Has(pluginPath: string, now: int) returns (b: bool)
      requires Valid()
      modifies this
      ensures Valid() && slots == AfterGet(old(slots), pluginPath, now, maxAge)
      ensures b <==> Lookup(old(slots), pluginPath, now, maxAge).Some?
    {
      var r := Get(pluginPath, now);
      b := r.Some?;
    }

    method Set(pluginPath: string, code: string, now: int)
      requires Valid()
      modifies this
      ensures Valid() && slots == AfterSet(old(slots), pluginPath, code, now, maxCacheSize)
    {
      var size := ByteLength(code);
      while totalCacheSize + size > maxCacheSize && |slots| > 0
        invariant Valid() && MakingRoom(old(slots), slots, size, maxCacheSize)
        decreases |slots|
      {
        RoomStep(old(slots), slots, size, maxCacheSize);
        EvictOldest(1);
      }
      var x := Entry(pluginPath, Compiled(code, now, size));
      PutTotal(slots, x);
      var i := Find(slots, pluginPath);
      if i < |slots| {
        totalCacheSize := totalCacheSize - slots[i].value.size;
      }
      slots := Put(slots, x);
      totalCacheSize := totalCacheSize + size;
    }

    method Delete(pluginPath: string) returns (b: bool)
      requires Valid()
      modifies this
      ensures Valid() && slots == Without(old(slots), pluginPath)
      ensures b <==> Find(old(slots), pluginPath) < |old(slots)|
    {
      b := Remove(pluginPath);
    }

    method Clear()
      modifies this
      ensures Valid() && slots == []
    {
      slots := [];
      totalCacheSize := 0;
    }
  }

  /** What is still to be evicted from `s` leads to where the eviction from `base` leads. */
  ghost predicate MakingRoom(base: seq<Slot>, s: seq<Slot>, size: nat, max: nat) {
    Evict(s, Needed(s, size, max)) == Evict(base, Needed(base, size, max))
  }

  lemma {:induction false} RoomStep(base: seq<Slot>, s: seq<Slot>, size: nat, max: nat)
    requires MakingRoom(base, s, size, max) && s != [] && max < Total(s) + size
    ensures MakingRoom(base, Evict(s, 1), size, max) && |Evict(s, 1)| == |s| - 1
  {
    var t := Drop(s, Oldest(s));
    EvictOne(s, 0);
    NeededStep(s, size, max, t);
  }

  /** `n` entries are gone, and the rest of the sorted list is the remaining slots sorted. */
  ghost predicate Evicting(base: seq<Slot>, s: seq<Slot>, n: nat, entries: seq<Slot>) {
    s == Evict(base, n) && n <= |entries| && entries[n..] == Sorted(s)
  }

  /** Deleting the head of the sorted entries is one more eviction. */
  lemma {:induction false} EvictFront(base: seq<Slot>, s: seq<Slot>, n: nat, entries: seq<Slot>)
    requires Distinct(s) && Evicting(base, s, n, entries) && n < |entries|
    ensures Evicting(base, Without(s, entries[n].key), n + 1, entries)
  {
    var o := Oldest(s);
    assert entries[n] == Sorted(s)[0] == s[o];
    assert entries[n + 1..] == Sorted(s)[1..] == Sorted(Drop(s, o));
    FindDistinct(s, o);
    EvictOne(s, 0);
    EvictTwice(base, n, 1);
  }

  lemma {:induction false} EvictDone(base: seq<Slot>, s: seq<Slot>, n: nat, entries: seq<Slot>, count: nat)
    requires Evicting(base, s, n, entries) && n <= count && (n == count || n == |entries|)
    ensures s == Evict(base, count)
  {
    EvictTwice(base, n, count - n);
  }

  /** One step of the sweep, at position `i` after `done` of the original slots. */
  lemma {:induction false} SweepStep(base: seq<Slot>, s: seq<Slot>, i: nat, done: nat, now: int, maxAge: int)
    requires Distinct(s) && i < |s| && done + |s| - i == |base|
    requires s[..i] == Unexpired(base[..done], now, maxAge) && s[i..] == base[done..]
    ensures var swept := Unexpired(base[..done + 1], now, maxAge);
      if Expired(s[i], now, maxAge)
      then var t := Without(s, s[i].key);
        |t| == |s| - 1 && t[..i] == swept && t[i..] == base[done + 1..]
      else s[..i + 1] == swept && s[i + 1..] == base[done + 1..]
  {
    assert s[i] == base[done] && base[..done + 1] == base[..done] + [base[done]];
    UnexpiredSnoc(base[..done], base[done], now, maxAge);
    assert s[i + 1..] == base[done + 1..];
    if Expired(s[i], now, maxAge) {
      FindDistinct(s, i);
      var t := Without(s, s[i].key);
      assert t == s[..i] + s[i + 1..];
      assert t[..i] == s[..i] && t[i..] == s[i + 1..];
    }
  }

  lemma {:induction false} UnexpiredSnoc(s: seq<Slot>, x: Slot, now: int, maxAge: int)
    ensures Unexpired(s + [x], now, maxAge)
      == Unexpired(s, now, maxAge) + if Expired(x, now, maxAge) then [] else [x]
    decreases |s|
  {
    if s == [] {
      assert s + [x] == [x] && [x][1..] == [];
    } else {
      assert (s + [x])[1..] == s[1..] + [x];
      UnexpiredSnoc(s[1..], x, now, maxAge);
      var rest, last := Unexpired(s[1..], now, maxAge), if Expired(x, now, maxAge) then [] else [x];
      assert [s[0]] + (rest + last) == [s[0]] + rest + last;
    }
  }
}
