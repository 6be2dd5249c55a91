/** Small shared vocabulary: machine widths, options and duplicate-free sequences. */
module Base {

  type Byte = x: int | 0 <= x < 256

  /** Width of the stack's tick counter (`ble_npl_time_t` is a uint32_t). */
  const WRAP: int := 0x1_0000_0000

  type UInt32 = x: int | 0 <= x < 0x1_0000_0000

  type UInt16 = x: int | 0 <= x < 0x1_0000

  datatype Option<+T> = None | Some(value: T)

  function Min(a: int, b: int): int { if a <= b then a else b }

  function Max(a: int, b: int): int { if a >= b then a else b }

  ghost predicate NoDup<T>(s: seq<T>) {
    forall i, j :: 0 <= i < j < |s| ==> s[i] != s[j]
  }

  /** The sequence with every occurrence of `x` taken out. */
  ghost function Without<T>(s: seq<T>, x: T): (r: seq<T>)
    ensures forall y :: y in r ==> y in s && y != x
    ensures forall y :: y in s && y != x ==> y in r
    ensures |r| <= |s| && (x in s ==> |r| < |s|)
  {
    if s == [] then []
    else if s[0] == x then Without(s[1..], x)
    else [s[0]] + Without(s[1..], x)
  }

  lemma {:induction false} WithoutAbsent<T>(s: seq<T>, x: T)
    requires x !in s
    ensures Without(s, x) == s
  {
    if s != [] {
      WithoutAbsent(s[1..], x);
      assert s == [s[0]] + s[1..];
    }
  }

  /** In a duplicate-free sequence, `Without` takes out exactly one position. */
  lemma {:induction false} WithoutAt<T>(s: seq<T>, k: nat)
    requires NoDup(s) && k < |s|
    ensures Without(s, s[k]) == s[..k] + s[k + 1..]
  {
    if k == 0 {
      WithoutAbsent(s[1..], s[0]);
    } else {
      assert s[0] != s[k];
      WithoutAt(s[1..], k - 1);
      assert s[1..][..k - 1] == s[1..k];
      assert s[1..][k..] == s[k + 1..];
      assert s[..k] == [s[0]] + s[1..k];
    }
  }

  lemma WithoutKeepsNoDup<T>(s: seq<T>, x: T)
    requires NoDup(s)
    ensures NoDup(Without(s, x))
  {
    if x in s {
      var k :| 0 <= k < |s| && s[k] == x;
      WithoutAt(s, k);
    } else {
      WithoutAbsent(s, x);
    }
  }

  lemma Assoc<T>(a: seq<T>, b: seq<T>, c: seq<T>)
    ensures a + (b + c) == a + b + c
  {}

  /** Takes the first element off a concatenation. */
  lemma ConsConcat<T>(a: seq<T>, b: seq<T>)
    requires a != []
    ensures a + b != [] && (a + b)[0] == a[0] && (a + b)[1..] == a[1..] + b
  {}

  // ---- products ----------------------------------------------------------------------

  lemma {:induction false} Product(n: nat, w: nat)
    ensures 0 <= n * w && (n + 1) * w == n * w + w
  {
    if n > 0 {
      Product(n - 1, w);
      assert n * w == (n - 1) * w + w;
    }
  }

  // ---- lists made of pieces ------------------------------------------------------------

  function FlatMap<T, U>(ts: seq<T>, f: T -> seq<U>): seq<U> {
    if ts == [] then [] else f(ts[0]) + FlatMap(ts[1..], f)
  }

  lemma FlatMapCons<T, U>(t: T, ts: seq<T>, f: T -> seq<U>)
    ensures FlatMap([t] + ts, f) == f(t) + FlatMap(ts, f)
  {
    assert ([t] + ts)[1..] == ts;
  }

  lemma FlatMapOne<T, U>(t: T, f: T -> seq<U>)
    ensures FlatMap([t], f) == f(t)
  {
    assert [t][1..] == [];
  }

  lemma {:induction false} FlatMapConcat<T, U>(a: seq<T>, b: seq<T>, f: T -> seq<U>)
    ensures FlatMap(a + b, f) == FlatMap(a, f) + FlatMap(b, f)
  {
    if a == [] {
      assert a + b == b;
    } else {
      FlatMapConcat(a[1..], b, f);
      ConsConcat(a, b);
      Assoc(f(a[0]), FlatMap(a[1..], f), FlatMap(b, f));
    }
  }

  // ---- tick arithmetic -----------------------------------------------------------

  /** `now - then` as the uint32_t subtraction of two wrapped readings computes it. */
  function Elapsed(now: nat, start: nat): (e: UInt32) {
    ((now % WRAP) - (start % WRAP)) % WRAP
  }

  lemma ElapsedExact(now: nat, start: nat)
    requires start <= now
    ensures Elapsed(now, start) == (now - start) % WRAP
  {
    var q, r := now / WRAP - start / WRAP, now % WRAP - start % WRAP;
    assert now - start == q * WRAP + r;
    ModShift(r, q);
  }

  lemma {:induction false} ModShift(r: int, q: int)
    ensures (q * WRAP + r) % WRAP == r % WRAP
    decreases if q < 0 then -q else q
  {
    if q > 0 {
      ModShift(r, q - 1);
      assert (q * WRAP + r) == ((q - 1) * WRAP + r) + WRAP;
    } else if q < 0 {
      ModShift(r, q + 1);
      assert (q * WRAP + r) == ((q + 1) * WRAP + r) - WRAP;
    }
  }
}
