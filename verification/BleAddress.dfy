/** NimBLEAddress.cpp: six bytes, least significant first, and their text and integer forms. */
module BleAddress {
  import opened Base

  /** `operator==` is equality of these: the type and the six bytes. */
  datatype Address = Address(kind: Byte, val: seq<Byte>)

  predicate SixBytes(v: seq<Byte>) { |v| == 6 }

  const LIMIT64: nat := 0x1_0000_0000_0000_0000

  // ---- integers --------------------------------------------------------------------

  /** `operator uint64_t`: the bytes read as a little-endian number. */
  function ToInt(v: seq<Byte>): nat {
    if v == [] then 0 else v[0] + 256 * ToInt(v[1..])
  }

  /** The first `n` bytes of a little-endian number, as `memcpy` takes them. */
  function LowBytes(x: nat, n: nat): (r: seq<Byte>)
    ensures |r| == n
  {
    if n == 0 then [] else [x % 256] + LowBytes(x / 256, n - 1)
  }

  function Power256(n: nat): (p: nat)
    ensures p > 0
  {
    if n == 0 then 1 else 256 * Power256(n - 1)
  }

  lemma LowByte(b: Byte, x: nat)
    ensures (b + 256 * x) % 256 == b && (b + 256 * x) / 256 == x
  {}

  lemma {:induction false} LowBytesOfInt(v: seq<Byte>)
    ensures LowBytes(ToInt(v), |v|) == v
  {
    if v != [] {
      LowByte(v[0], ToInt(v[1..]));
      LowBytesOfInt(v[1..]);
      assert v == [v[0]] + v[1..];
    }
  }

  lemma {:induction false} IntOfLowBytes(x: nat, n: nat)
    ensures ToInt(LowBytes(x, n)) == x % Power256(n)
  {
    if n > 0 {
      IntOfLowBytes(x / 256, n - 1);
      ModStep(x, Power256(n - 1));
    }
  }

  lemma ModStep(x: nat, p: nat)
    requires p > 0
    ensures x % (256 * p) == x % 256 + 256 * ((x / 256) % p)
  {
    var y := x / 256;
    var q, r := y / p, y % p;
    assert 256 * (p * q) == (256 * p) * q;
    Remainder(x, 256 * p, q, x % 256 + 256 * r);
  }

  lemma Multiple(m: int, d: int)
    requires m > 0
    ensures d >= 1 ==> m * d >= m
    ensures d <= -1 ==> m * d <= -m
  {}

  lemma Remainder(x: nat, m: nat, q: nat, r: nat)
    requires m > 0 && r < m && x == m * q + r
    ensures x % m == r
  {
    var k, s := x / m, x % m;
    assert m * (q - k) == s - r by { assert m * q - m * k == m * (q - k); }
    Multiple(m, q - k);
  }

  // ---- text ------------------------------------------------------------------------

  const DIGITS: string := "0123456789abcdef"

  function HexDigit(c: char): Option<nat> {
    if '0' <= c <= '9' then Some(c as int - '0' as int)
    else if 'a' <= c <= 'f' then Some(c as int - 'a' as int + 10)
    else if 'A' <= c <= 'F' then Some(c as int - 'A' as int + 10)
    else None
  }

  /** `%02x` */
  function HexByte(b: Byte): (r: string)
    ensures |r| == 2
  {
    [DIGITS[b / 16], DIGITS[b % 16]]
  }

  /** `operator std::string`: most significant byte first, colons between. */
  function ToText(v: seq<Byte>): (r: string)
    requires SixBytes(v)
    ensures |r| == 17
  {
    HexByte(v[5]) + (":" + (HexByte(v[4]) + (":" + (HexByte(v[3]) + (":" + (HexByte(v[2]) +
      (":" + (HexByte(v[1]) + (":" + HexByte(v[0]))))))))))
  }

  function StripColons(s: string): string {
    if s == [] then [] else (if s[0] == ':' then [] else [s[0]]) + StripColons(s[1..])
  }

  /** The value of the leading run of hex digits, carried in `acc`. */
  function HexValue(s: string, acc: nat): nat {
    if s == [] || HexDigit(s[0]).None? then acc else HexValue(s[1..], 16 * acc + HexDigit(s[0]).value)
  }

  /** `std::stoull(s, nullptr, 16)`; None where it throws. */
  function Stoull(s: string): Option<nat> {
    if s == [] || HexDigit(s[0]).None? then None
    else if HexValue(s, 0) >= LIMIT64 then None
    else Some(HexValue(s, 0))
  }

  function Reverse6(v: seq<Byte>): (r: seq<Byte>)
    requires SixBytes(v)
    ensures SixBytes(r)
  {
    [v[5], v[4], v[3], v[2], v[1], v[0]]
  }

  /** The byte-array constructor: six bytes, most significant first. */
  function FromBytes(a: seq<Byte>, kind: Byte): Address
    requires SixBytes(a)
  {
    Address(kind, Reverse6(a))
  }

  function FromInt(x: nat, kind: Byte): Address { Address(kind, LowBytes(x, 6)) }

  function RawByte(c: char): Byte { (c as int) % 256 }

  /** The string constructor: six raw bytes, the 17-character form (None where `stoull` throws), or nothing. */
  function FromText(s: string, kind: Byte): Option<Address> {
    if |s| == 6 then
      Some(FromBytes([RawByte(s[0]), RawByte(s[1]), RawByte(s[2]), RawByte(s[3]), RawByte(s[4]), RawByte(s[5])], kind))
    else if |s| == 17 then
      match Stoull(StripColons(s))
      case None => None
      case Some(x) => Some(FromInt(x, kind))
    else Some(Address(0, [0, 0, 0, 0, 0, 0]))
  }

  lemma DigitRoundTrip(n: nat)
    requires n < 16
    ensures HexDigit(DIGITS[n]) == Some(n) && DIGITS[n] != ':'
  {}

  lemma HexValueByte(b: Byte, s: string, acc: nat)
    ensures HexValue(HexByte(b) + s, acc) == HexValue(s, 256 * acc + b)
  {
    DigitRoundTrip(b / 16);
    DigitRoundTrip(b % 16);
    var t := HexByte(b) + s;
    assert t[1..] == [DIGITS[b % 16]] + s;
    assert t[1..][1..] == s;
  }

  /** The bytes most significant first, two digits each, and nothing else. */
  function HexDump(v: seq<Byte>): string {
    if v == [] then [] else HexDump(v[1..]) + HexByte(v[0])
  }

  /** `acc` with the bytes of `v` appended, most significant first. */
  function Shift(acc: nat, v: seq<Byte>): nat {
    if v == [] then acc else 256 * Shift(acc, v[1..]) + v[0]
  }

  lemma {:induction false} ShiftZero(v: seq<Byte>)
    ensures Shift(0, v) == ToInt(v)
  {
    if v != [] { ShiftZero(v[1..]); }
  }

  lemma {:induction false} HexDumpValue(v: seq<Byte>, s: string, acc: nat, p: string)
    requires p == HexDump(v) + s
    ensures HexValue(p, acc) == HexValue(s, Shift(acc, v))
    decreases |v|
  {
    if v == [] {
      assert p == s;
    } else {
      var h, t := HexByte(v[0]), v[1..];
      HexDumpSplit(v, h, s);
      HexDumpValue(t, h + s, acc, p);
      HexValueByte(v[0], s, Shift(acc, t));
    }
  }

  lemma HexDumpSplit(v: seq<Byte>, h: string, s: string)
    requires v != [] && h == HexByte(v[0])
    ensures HexDump(v) + s == HexDump(v[1..]) + (h + s)
  {
    Assoc(HexDump(v[1..]), h, s);
  }

  lemma {:induction false} IntBound(v: seq<Byte>)
    ensures ToInt(v) < Power256(|v|)
  {
    if v != [] { IntBound(v[1..]); }
  }

  lemma StripByte(b: Byte, s: string)
    ensures StripColons(HexByte(b) + s) == HexByte(b) + StripColons(s)
    ensures StripColons(HexByte(b) + (":" + s)) == HexByte(b) + StripColons(s)
  {
    DigitRoundTrip(b / 16);
    DigitRoundTrip(b % 16);
    var t := HexByte(b) + s;
    assert t[1..] == [DIGITS[b % 16]] + s && t[1..][1..] == s;
    assert StripColons(":" + s) == StripColons(s) by { assert (":" + s)[1..] == s; }
    var u := HexByte(b) + (":" + s);
    assert u[1..] == [DIGITS[b % 16]] + (":" + s) && u[1..][1..] == ":" + s;
  }

  /** Six bytes with colons between, stripped of them. */
  lemma StripSix(a: Byte, b: Byte, c: Byte, d: Byte, e: Byte, f: Byte)
    ensures StripColons(HexByte(a) + (":" + (HexByte(b) + (":" + (HexByte(c) + (":" + (HexByte(d) +
                          (":" + (HexByte(e) + (":" + HexByte(f)))))))))))
            == HexByte(a) + (HexByte(b) + (HexByte(c) + (HexByte(d) + (HexByte(e) + HexByte(f)))))
  {
    var t0 := HexByte(f);
    var t1 := HexByte(e) + (":" + t0);
    var t2 := HexByte(d) + (":" + t1);
    var t3 := HexByte(c) + (":" + t2);
    var t4 := HexByte(b) + (":" + t3);
    StripByte(f, []);
    assert t0 + [] == t0;
    StripByte(e, t0);
    StripByte(d, t1);
    StripByte(c, t2);
    StripByte(b, t3);
    StripByte(a, t4);
  }

  lemma DumpSix(v: seq<Byte>)
    requires SixBytes(v)
    ensures HexDump(v) == HexByte(v[5]) + (HexByte(v[4]) + (HexByte(v[3]) + (HexByte(v[2]) + (HexByte(v[1]) + HexByte(v[0])))))
  {
    assert HexDump(v[6..]) == [];
    assert HexDump(v[5..]) == HexByte(v[5]);
    assert HexDump(v[4..]) == HexByte(v[5]) + HexByte(v[4]);
    assert HexDump(v[3..]) == HexDump(v[4..]) + HexByte(v[3]);
    assert HexDump(v[2..]) == HexDump(v[3..]) + HexByte(v[2]);
    assert HexDump(v[1..]) == HexDump(v[2..]) + HexByte(v[1]);
  }

  lemma TextStripped(v: seq<Byte>)
    requires SixBytes(v)
    ensures StripColons(ToText(v)) == HexDump(v)
  {
    StripSix(v[5], v[4], v[3], v[2], v[1], v[0]);
    DumpSix(v);
  }

  lemma TextFrom(v: seq<Byte>, i: nat)
    requires SixBytes(v) && i < 6
    ensures ToText(v)[3 * i] == DIGITS[v[5 - i] / 16] && ToText(v)[3 * i + 1] == DIGITS[v[5 - i] % 16]
    ensures i < 5 ==> ToText(v)[3 * i + 2] == ':'
  {
    if i == 0 {} else if i == 1 {} else if i == 2 {} else if i == 3 {} else if i == 4 {} else {}
  }

  /** The byte-array form reverses; six characters are taken as such bytes; text of any length but 6 and 17 gives the null address. */
  lemma FormsTaken(a: seq<Byte>, kind: Byte, s: string, i: nat)
    requires SixBytes(a) && i < 6
    ensures FromBytes(a, kind).kind == kind && FromBytes(a, kind).val[i] == a[5 - i]
    ensures |s| == 6 ==> var r := FromText(s, kind); r.Some? && r.value.kind == kind && r.value.val[i] == (s[5 - i] as int) % 256
    ensures |s| != 6 && |s| != 17 ==> FromText(s, kind) == Some(Address(0, [0, 0, 0, 0, 0, 0]))
  {
    if i == 0 {} else if i == 1 {} else if i == 2 {} else if i == 3 {} else if i == 4 {} else {}
  }

  /** Parsing a printed address gives the same six bytes back. */
  lemma PrintThenParse(a: Address)
    requires SixBytes(a.val)
    ensures FromText(ToText(a.val), a.kind) == Some(a)
  {
    TextStripped(a.val);
    assert HexDump(a.val) + [] == HexDump(a.val);
    HexDumpValue(a.val, [], 0, HexDump(a.val));
    ShiftZero(a.val);
    IntBound(a.val);
    assert Power256(6) == 0x1_0000_0000_0000;
    LowBytesOfInt(a.val);
    assert HexDump(a.val)[0] == DIGITS[a.val[5] / 16] by {
      assert StripColons(ToText(a.val)) == HexDump(a.val);
      assert ToText(a.val)[0] == DIGITS[a.val[5] / 16];
      DigitRoundTrip(a.val[5] / 16);
    }
    DigitRoundTrip(a.val[5] / 16);
  }

  /** The integer forms invert each other on 48 bits. */
  lemma IntRoundTrip(a: Address, x: nat)
    requires SixBytes(a.val)
    ensures FromInt(ToInt(a.val), a.kind) == a
    ensures ToInt(FromInt(x, a.kind).val) == x % 0x1_0000_0000_0000
  {
    LowBytesOfInt(a.val);
    IntOfLowBytes(x, 6);
    assert Power256(6) == 0x1_0000_0000_0000;
  }

  class NimBLEAddress {
    var addr: Address

    constructor (a: Address)
      ensures addr == a
    {
      addr := a;
    }

    method ReverseByteOrder()
      requires SixBytes(addr.val)
      modifies this
      ensures SixBytes(addr.val) && addr.kind == old(addr).kind
      ensures forall k :: 0 <= k < 6 ==> addr.val[k] == old(addr).val[5 - k]
    {
      addr := addr.(val := Reverse6(addr.val));
    }
  }
}
