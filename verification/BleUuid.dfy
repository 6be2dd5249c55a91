/**
 * NimBLEUUID.cpp.  A UUID is its value bytes, least significant first, as
 * `getValue` points at them; no bytes is the uninitialised UUID.
 */
module BleUuid {
  import opened Base

  type Uuid = u: seq<Byte> | |u| == 0 || |u| == 2 || |u| == 4 || |u| == 16 witness []

  /** The Bluetooth base UUID, least significant byte first. */
  const BASE: seq<Byte> :=
    [0xfb, 0x34, 0x9b, 0x5f, 0x80, 0x00, 0x00, 0x80, 0x00, 0x10, 0x00, 0x00, 0x00, 0x00, 0x00, 0x00]

  /** The base UUID with a short value copied over its last four bytes. */
  function Overlay(v: seq<Byte>): (r: Uuid)
    requires |v| == 2 || |v| == 4
  {
    BASE[..12] + v + BASE[12 + |v|..]
  }

  /** `operator==`, branch for branch. */
  predicate Equal(a: Uuid, b: Uuid) {
    if |a| == 0 || |b| == 0 then false
    else if |a| != |b| then
      if |a| == 16 then a == Overlay(b)
      else if |b| == 16 then b == Overlay(a)
      else false
    else a == b
  }

  /** `to128` */
  function Widen(u: Uuid): (r: Uuid)
    requires |u| != 0
    ensures |r| == 16
  {
    if |u| == 16 then u
    else
      var val := if |u| == 2 then u + [0, 0] else u;
      BASE[..12] + val
  }

  predicate OnBase(u: Uuid) { |u| == 16 && u[..12] == BASE[..12] }

  /** `to16` */
  function Narrow(u: Uuid): Uuid {
    if OnBase(u) then u[12..14] else u
  }

  function Reversed(s: seq<Byte>): (r: seq<Byte>)
    ensures |r| == |s|
  {
    seq(|s|, i requires 0 <= i < |s| => s[|s| - 1 - i])
  }

  lemma WidenTail(u: Uuid)
    requires |u| == 2 || |u| == 4
    ensures Widen(u)[12..12 + |u|] == u && Overlay(u) == Widen(u)
    ensures |u| == 2 ==> Widen(u)[14..] == [0, 0]
  {
    assert BASE[14..] == [0, 0] && BASE[16..] == [];
  }

  /**
   * Equality is equality of the 128-bit forms on initialised UUIDs, with one
   * exception: a 16-bit and a 32-bit UUID never compare equal.
   */
  lemma EqualIsWidened(a: Uuid, b: Uuid)
    requires |a| != 0 && |b| != 0
    ensures Equal(a, b) <==> Widen(a) == Widen(b) && !(|a| != |b| && |a| < 16 && |b| < 16)
  {
    if |a| < 16 { WidenTail(a); }
    if |b| < 16 { WidenTail(b); }
  }

  /** Two equalities in a row give the third if and only if the outer two are of one width, or one of them has 128 bits. */
  lemma TransitiveExactly(a: Uuid, b: Uuid, c: Uuid)
    requires Equal(a, b) && Equal(b, c)
    ensures Equal(a, c) <==> |a| == |c| || |a| == 16 || |c| == 16
  {
    EqualIsWidened(a, b);
    EqualIsWidened(b, c);
    EqualIsWidened(a, c);
  }

  /** The exception costs transitivity. */
  lemma EqualNotTransitive(lo: Byte, hi: Byte)
    ensures var a: Uuid, b: Uuid := [lo, hi], [lo, hi, 0, 0];
            Equal(a, Widen(a)) && Equal(Widen(a), b) && !Equal(a, b)
  {
    WidenTail([lo, hi]);
    WidenTail([lo, hi, 0, 0]);
  }

  /** `to16` undoes `to128` on 16-bit values and on nothing else narrower than 128 bits. */
  lemma NarrowUndoesWiden(u: Uuid)
    requires |u| != 0
    ensures Narrow(Widen(u)) == u <==> |u| == 2 || (|u| == 16 && !OnBase(u))
  {
    if |u| < 16 { WidenTail(u); }
  }

  /** `to16` keeps the UUID it stands for exactly when it drops nothing but zeros. */
  lemma NarrowExact(u: Uuid)
    requires |u| != 0
    ensures Equal(Narrow(u), u) <==> (OnBase(u) ==> u[14..] == [0, 0])
  {
    if OnBase(u) {
      var n := Narrow(u);
      WidenTail(n);
      assert u == BASE[..12] + u[12..14] + u[14..];
      assert BASE[14..] == [0, 0];
    }
  }

  lemma ReversedTwice(s: seq<Byte>)
    ensures Reversed(Reversed(s)) == s
  {}

  class NimBLEUUID {
    var value: Uuid

    constructor (value: Uuid)
      ensures this.value == value
    {
      this.value := value;
    }

    method To128()
      requires |value| != 0
      modifies this
      ensures value == Widen(old(value))
    {
      if |value| != 16 {
        var val := if |value| == 2 then value + [0, 0] else value;
        value := BASE[..12] + val;
      }
    }

    method To16()
      modifies this
      ensures value == Narrow(old(value))
    {
      if |value| == 16 && value[..12] == BASE[..12] {
        value := value[12..14];
      }
    }

    method ReverseByteOrder()
      modifies this
      ensures |value| == |old(value)|
      ensures forall k :: 0 <= k < |value| ==> value[k] == old(value)[|value| - 1 - k]
      ensures Reversed(value) == old(value)
    {
      value := Reversed(value);
    }
  }
}
