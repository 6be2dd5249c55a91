/**
 * NimBLEBondMigration.h: the records of the bond store in their two layouts, the
 * keys they are kept under, and what a run of the migration does to the store.
 */
module BondSpec {
  import opened Base
  import A = BleAddress

  // ---- keys -------------------------------------------------------------------------

  datatype Prefix = OurSec | PeerSec | LocalIrk

  datatype Name = Name(prefix: Prefix, index: nat)

  const KEY_MAX := 16

  function PrefixText(p: Prefix): string {
    match p
    case OurSec => "our_sec"
    case PeerSec => "peer_sec"
    case LocalIrk => "local_irk"
  }

  function Digit(d: nat): char
    requires d < 10
  {
    '0' + d as char
  }

  /** `%u` */
  function Decimal(n: nat): (s: string)
    ensures s != []
  {
    if n < 10 then [Digit(n)] else Decimal(n / 10) + [Digit(n % 10)]
  }

  function KeyOf(name: Name): string { PrefixText(name.prefix) + "_" + Decimal(name.index) }

  /** The number a string of digits stands for. */
  ghost function NumberOf(s: string): int {
    if s == [] then 0 else 10 * NumberOf(s[..|s| - 1]) + (s[|s| - 1] as int - '0' as int)
  }

  /** What is printed are digits that stand for the number, without a zero in front. */
  lemma {:induction false} DecimalReads(n: nat)
    ensures NumberOf(Decimal(n)) == n && forall i :: 0 <= i < |Decimal(n)| ==> '0' <= Decimal(n)[i] <= '9'
    ensures n > 0 ==> Decimal(n)[0] != '0'
  {
    var s := Decimal(n);
    if n >= 10 {
      DecimalReads(n / 10);
      assert s[..|s| - 1] == Decimal(n / 10) && s[|s| - 1] == Digit(n % 10);
    } else {
      assert s[..0] == [];
    }
  }

  /** The keys of a slot. */
  lemma KeyTexts(i: nat)
    ensures KeyOf(Name(OurSec, i)) == "our_sec_" + Decimal(i) && KeyOf(Name(PeerSec, i)) == "peer_sec_" + Decimal(i)
    ensures KeyOf(Name(LocalIrk, i)) == "local_irk_" + Decimal(i)
  {
    assert "our_sec" + "_" == "our_sec_" && "peer_sec" + "_" == "peer_sec_" && "local_irk" + "_" == "local_irk_";
  }

  lemma DecimalShort(n: nat)
    ensures |Decimal(n)| == 1 <==> n < 10
  {}

  lemma {:induction false} DecimalInjective(a: nat, b: nat)
    ensures Decimal(a) == Decimal(b) ==> a == b
  {
    DecimalShort(a);
    DecimalShort(b);
    if Decimal(a) == Decimal(b) {
      var s := Decimal(a);
      assert s[|s| - 1] == Digit(a % 10) == Digit(b % 10);
      assert a % 10 == b % 10;
      if a >= 10 {
        assert Decimal(a / 10) == s[..|s| - 1] == Decimal(b / 10);
        DecimalInjective(a / 10, b / 10);
      }
    }
  }

  function Power10(k: nat): nat { if k == 0 then 1 else 10 * Power10(k - 1) }

  lemma {:induction false} DecimalLength(n: nat, k: nat)
    requires k > 0 && n < Power10(k)
    ensures |Decimal(n)| <= k
    decreases k
  {
    if n >= 10 { DecimalLength(n / 10, k - 1); }
  }

  /** No two slots share a key. */
  lemma KeysDiffer(a: Name, b: Name)
    ensures KeyOf(a) == KeyOf(b) ==> a == b
  {
    if KeyOf(a) == KeyOf(b) {
      assert KeyOf(a)[0] == PrefixText(a.prefix)[0] && KeyOf(b)[0] == PrefixText(b.prefix)[0];
      assert a.prefix == b.prefix;
      var n := |PrefixText(a.prefix)| + 1;
      assert KeyOf(a)[n..] == Decimal(a.index) && KeyOf(b)[n..] == Decimal(b.index);
      DecimalInjective(a.index, b.index);
    }
  }

  /** Every uint16_t slot's key fits the 16 bytes it is printed into, terminator included. */
  lemma KeyFits(name: Name)
    requires name.index < 0x10000
    ensures |KeyOf(name)| < KEY_MAX
  {
    assert Power10(5) == 10 * Power10(4) == 100 * Power10(3) == 1000 * Power10(2) == 10000 * Power10(1) == 100000;
    DecimalLength(name.index, 5);
  }

  // ---- records ------------------------------------------------------------------------

  datatype Keys = Keys(ltk: seq<Byte>, hasLtk: bool, irk: seq<Byte>, hasIrk: bool, csrk: seq<Byte>, hasCsrk: bool)

  datatype Trust = Trust(keySize: Byte, ediv: nat, rand: nat, authenticated: bool, sc: bool)

  datatype SecV1 = SecV1(peer: A.Address, trust: Trust, keys: Keys)

  datatype SecCurrent = SecCurrent(peer: A.Address, bondCount: nat, trust: Trust, keys: Keys, signCounter: nat)

  /** A stored blob, told apart by its size as the code does. */
  datatype Blob =
    | V1(v1: SecV1)
    | Current(current: SecCurrent)
    | IrkV1(irk: seq<Byte>)
    | IrkCurrent(address: A.Address, irk: seq<Byte>)
    | Other(bytes: seq<Byte>)

  const DEFAULT_IRK: seq<Byte> :=
    [0xef, 0x8d, 0xe2, 0x16, 0x4f, 0xec, 0x43, 0x0d, 0xbf, 0x5b, 0xdd, 0x34, 0xc0, 0x53, 0x1e, 0xb8]

  const DEFAULT_LOCAL_IRK: Blob := IrkCurrent(A.Address(0, [0, 0, 0, 0, 0, 0]), DEFAULT_IRK)

  function Upgrade(v: SecV1, index: nat): SecCurrent { SecCurrent(v.peer, index, v.trust, v.keys, 0) }

  function Downgrade(c: SecCurrent): SecV1 { SecV1(c.peer, c.trust, c.keys) }

  /** A record keeps its peer, its trust and its keys either way; going up it takes the slot's number and a sign counter of 0. */
  lemma FieldsKept(v: SecV1, c: SecCurrent, index: nat)
    ensures var up, down := Upgrade(v, index), Downgrade(c);
            && up.peer == v.peer && up.trust == v.trust && up.keys == v.keys && up.bondCount == index && up.signCounter == 0
            && down.peer == c.peer && down.trust == c.trust && down.keys == c.keys
  {}

  type Store = map<string, Blob>

  function Get(s: Store, key: string): Option<Blob> { if key in s then Some(s[key]) else None }

  function Put(s: Store, key: string, b: Option<Blob>): Store {
    if b.Some? then s[key := b.value] else s - {key}
  }

  // ---- one entry -----------------------------------------------------------------------

  datatype Step = ToCurrent(name: Name) | ToV1(name: Name) | IrkToCurrent(name: Name) | IrkErase(name: Name)

  /** What the step makes of its slot. */
  function Effect(step: Step, b: Option<Blob>): Option<Blob> {
    match step
    case ToCurrent(name) => if b.Some? && b.value.V1? then Some(Current(Upgrade(b.value.v1, name.index))) else b
    case ToV1(_) => if b.Some? && b.value.Current? then Some(V1(Downgrade(b.value.current))) else b
    case IrkToCurrent(_) => Some(DEFAULT_LOCAL_IRK)
    case IrkErase(_) => None
  }

  function Apply(s: Store, step: Step): Store {
    var key := KeyOf(step.name);
    Put(s, key, Effect(step, Get(s, key)))
  }

  function ApplyAll(s: Store, plan: seq<Step>): Store
    decreases |plan|
  {
    if plan == [] then s else Apply(ApplyAll(s, plan[..|plan| - 1]), plan[|plan| - 1])
  }

  // ---- a whole run -----------------------------------------------------------------------

  /** The security records of slots 1 to n, ours before the peer's. */
  function SecPlan(up: bool, n: nat): (p: seq<Step>)
    ensures |p| == 2 * n
    ensures forall j :: 0 <= j < 2 * n ==>
              var name := Name(if j % 2 == 0 then OurSec else PeerSec, j / 2 + 1);
              p[j] == if up then ToCurrent(name) else ToV1(name)
  {
    if n == 0 then []
    else
      var o, p := Name(OurSec, n), Name(PeerSec, n);
      SecPlan(up, n - 1) + if up then [ToCurrent(o), ToCurrent(p)] else [ToV1(o), ToV1(p)]
  }

  function ErasePlan(n: nat): (p: seq<Step>)
    ensures |p| == n && forall j :: 0 <= j < n ==> p[j] == IrkErase(Name(LocalIrk, j + 1))
  {
    if n == 0 then [] else ErasePlan(n - 1) + [IrkErase(Name(LocalIrk, n))]
  }

  function Plan(up: bool, n: nat): seq<Step> {
    SecPlan(up, n) + if up then [IrkToCurrent(Name(LocalIrk, 1))] else ErasePlan(n)
  }

  lemma PlanAt(up: bool, n: nat, j: nat)
    requires j < |Plan(up, n)|
    ensures j < 2 * n ==>
              var name := Name(if j % 2 == 0 then OurSec else PeerSec, j / 2 + 1);
              Plan(up, n)[j] == if up then ToCurrent(name) else ToV1(name)
    ensures j >= 2 * n && up ==> j == 2 * n && Plan(up, n)[j] == IrkToCurrent(Name(LocalIrk, 1))
    ensures j >= 2 * n && !up ==> Plan(up, n)[j] == IrkErase(Name(LocalIrk, j - 2 * n + 1))
  {
    if j < 2 * n { assert Plan(up, n)[j] == SecPlan(up, n)[j]; }
    else if !up { assert Plan(up, n)[j] == ErasePlan(n)[j - 2 * n]; }
  }

  /** The two entries of slot i. */
  lemma SlotAt(up: bool, n: nat, i: nat)
    requires 1 <= i <= n
    ensures var our, peer := Name(OurSec, i), Name(PeerSec, i);
            && 2 * i <= |Plan(up, n)|
            && Plan(up, n)[2 * i - 2] == (if up then ToCurrent(our) else ToV1(our))
            && Plan(up, n)[2 * i - 1] == (if up then ToCurrent(peer) else ToV1(peer))
  {
    PlanAt(up, n, 2 * i - 2);
    PlanAt(up, n, 2 * i - 1);
  }

  lemma IrkAt(n: nat, i: nat)
    requires 1 <= i <= n
    ensures |Plan(false, n)| == 3 * n && Plan(false, n)[2 * n + i - 1] == IrkErase(Name(LocalIrk, i))
  {
    PlanAt(false, n, 2 * n + i - 1);
  }

  lemma ApplyNext(s: Store, plan: seq<Step>, k: nat)
    requires k < |plan|
    ensures ApplyAll(s, plan[..k + 1]) == Apply(ApplyAll(s, plan[..k]), plan[k])
  {
    assert plan[..k + 1][..k] == plan[..k];
  }

  predicate DistinctNames(plan: seq<Step>) {
    forall i, j :: 0 <= i < j < |plan| ==> plan[i].name != plan[j].name
  }

  lemma PlanDistinct(up: bool, n: nat)
    ensures DistinctNames(Plan(up, n))
  {
    var p := Plan(up, n);
    forall i, j | 0 <= i < j < |p| ensures p[i].name != p[j].name {
      if j < 2 * n {
        assert p[i] == SecPlan(up, n)[i] && p[j] == SecPlan(up, n)[j];
      } else if i < 2 * n {
        assert p[i] == SecPlan(up, n)[i];
      } else if !up {
        assert p[i] == ErasePlan(n)[i - 2 * n] && p[j] == ErasePlan(n)[j - 2 * n];
      }
    }
  }

  lemma ApplyGet(s: Store, step: Step, key: string)
    ensures Get(Apply(s, step), key)
            == if key == KeyOf(step.name) then Effect(step, Get(s, key)) else Get(s, key)
  {}

  /** A key that no step of the plan has is left alone. */
  lemma {:induction false} Untouched(s: Store, plan: seq<Step>, key: string)
    requires forall i :: 0 <= i < |plan| ==> KeyOf(plan[i].name) != key
    ensures Get(ApplyAll(s, plan), key) == Get(s, key)
    decreases |plan|
  {
    if plan != [] {
      var front, step := plan[..|plan| - 1], plan[|plan| - 1];
      Untouched(s, front, key);
      ApplyGet(ApplyAll(s, front), step, key);
    }
  }

  /** A slot of the plan has had its own step, once, and nothing else. */
  lemma {:induction false} Touched(s: Store, plan: seq<Step>, i: nat)
    requires DistinctNames(plan) && i < |plan|
    ensures var key := KeyOf(plan[i].name); Get(ApplyAll(s, plan), key) == Effect(plan[i], Get(s, key))
    decreases |plan|
  {
    var n := |plan| - 1;
    var front, step, key := plan[..n], plan[n], KeyOf(plan[i].name);
    ApplyGet(ApplyAll(s, front), step, key);
    if i < n {
      Touched(s, front, i);
      KeysDiffer(plan[i].name, step.name);
    } else {
      OthersDiffer(plan, front);
      Untouched(s, front, key);
    }
  }

  lemma OthersDiffer(plan: seq<Step>, front: seq<Step>)
    requires DistinctNames(plan) && plan != [] && front == plan[..|plan| - 1]
    ensures forall j :: 0 <= j < |front| ==> KeyOf(front[j].name) != KeyOf(plan[|plan| - 1].name)
  {
    forall j | 0 <= j < |front| ensures KeyOf(front[j].name) != KeyOf(plan[|plan| - 1].name) {
      KeysDiffer(plan[j].name, plan[|plan| - 1].name);
    }
  }

  /** Doing a step again changes nothing more. */
  lemma EffectTwice(step: Step, b: Option<Blob>)
    ensures Effect(step, Effect(step, b)) == Effect(step, b)
  {}

  lemma SameStore(a: Store, b: Store)
    requires forall key :: Get(a, key) == Get(b, key)
    ensures a == b
  {
    forall key | key in a ensures key in b && a[key] == b[key] { assert Get(a, key) == Get(b, key); }
    forall key | key in b ensures key in a { assert Get(a, key) == Get(b, key); }
  }

  /** A run stopped after any number of entries, and then a whole run, come to one whole run. */
  lemma Resumable(s: Store, plan: seq<Step>, k: nat)
    requires DistinctNames(plan) && k <= |plan|
    ensures ApplyAll(ApplyAll(s, plan[..k]), plan) == ApplyAll(s, plan)
  {
    var half := ApplyAll(s, plan[..k]);
    forall key ensures Get(ApplyAll(half, plan), key) == Get(ApplyAll(s, plan), key) {
      if i :| 0 <= i < |plan| && KeyOf(plan[i].name) == key {
        Touched(half, plan, i);
        Touched(s, plan, i);
        if i < k {
          Touched(s, plan[..k], i);
          EffectTwice(plan[i], Get(s, key));
        } else {
          forall j | 0 <= j < k ensures KeyOf(plan[..k][j].name) != key { KeysDiffer(plan[j].name, plan[i].name); }
          Untouched(s, plan[..k], key);
        }
      } else {
        Untouched(half, plan, key);
        Untouched(s, plan, key);
        Untouched(s, plan[..k], key);
      }
    }
    SameStore(ApplyAll(half, plan), ApplyAll(s, plan));
  }

  /** Stopped any number of times. */
  function Stopped(s: Store, plan: seq<Step>, ks: seq<nat>): Store
    requires forall i :: 0 <= i < |ks| ==> ks[i] <= |plan|
    decreases |ks|
  {
    if ks == [] then s else Stopped(ApplyAll(s, plan[..ks[0]]), plan, ks[1..])
  }

  /** However often a migration of n slots is interrupted, running it through gives the one result. */
  lemma {:induction false} AlwaysResumable(s: Store, up: bool, n: nat, ks: seq<nat>)
    requires forall i :: 0 <= i < |ks| ==> ks[i] <= |Plan(up, n)|
    ensures ApplyAll(Stopped(s, Plan(up, n), ks), Plan(up, n)) == ApplyAll(s, Plan(up, n))
    decreases |ks|
  {
    if ks != [] {
      AlwaysResumable(ApplyAll(s, Plan(up, n)[..ks[0]]), up, n, ks[1..]);
      PlanDistinct(up, n);
      Resumable(s, Plan(up, n), ks[0]);
    }
  }

  predicate SecName(name: Name, n: nat) { name.prefix != LocalIrk && 1 <= name.index <= n }

  function SecIndex(name: Name): int { 2 * (name.index - 1) + if name.prefix == OurSec then 0 else 1 }

  lemma SecAt(up: bool, n: nat, name: Name)
    requires SecName(name, n)
    ensures 0 <= SecIndex(name) < |Plan(up, n)|
    ensures Plan(up, n)[SecIndex(name)] == if up then ToCurrent(name) else ToV1(name)
  {
    assert Plan(up, n)[SecIndex(name)] == SecPlan(up, n)[SecIndex(name)];
  }

  /**
   * There and back: every V1 record in range is what it was, every record that is not
   * a security record of a known layout was never changed, and one that was current
   * before has come back in the old layout with the same content.
   */
  lemma ThereAndBack(s: Store, n: nat, name: Name)
    requires SecName(name, n)
    ensures var key := KeyOf(name);
            var there := ApplyAll(s, Plan(true, n));
            var back := ApplyAll(there, Plan(false, n));
            match Get(s, key)
            case None => Get(there, key) == Get(back, key) == None
            case Some(V1(v)) => Get(there, key) == Some(Current(Upgrade(v, name.index))) && Get(back, key) == Some(V1(v))
            case Some(Current(c)) => Get(there, key) == Get(s, key) && Get(back, key) == Some(V1(Downgrade(c)))
            case Some(b) => Get(there, key) == Get(back, key) == Some(b)
  {
    PlanDistinct(true, n);
    PlanDistinct(false, n);
    SecAt(true, n, name);
    SecAt(false, n, name);
    Touched(s, Plan(true, n), SecIndex(name));
    Touched(ApplyAll(s, Plan(true, n)), Plan(false, n), SecIndex(name));
  }

  /**
   * The local identity key is not migrated: going up puts the default in slot 1 in
   * place of anything there, of known size or not, and going down erases the slots.
   */
  lemma LocalIrkLost(s: Store, n: nat, i: nat)
    requires 1 <= i
    ensures Get(ApplyAll(s, Plan(true, n)), KeyOf(Name(LocalIrk, 1))) == Some(DEFAULT_LOCAL_IRK)
    ensures i <= n ==> Get(ApplyAll(s, Plan(false, n)), KeyOf(Name(LocalIrk, i))) == None
  {
    PlanDistinct(true, n);
    PlanDistinct(false, n);
    PlanAt(true, n, 2 * n);
    Touched(s, Plan(true, n), 2 * n);
    if i <= n {
      PlanAt(false, n, 2 * n + i - 1);
      Touched(s, Plan(false, n), 2 * n + i - 1);
    }
  }

  /** Slots beyond the range are out of reach of either run. */
  lemma BeyondRange(s: Store, up: bool, n: nat, name: Name)
    requires name.prefix != LocalIrk && (name.index == 0 || name.index > n)
    ensures Get(ApplyAll(s, Plan(up, n)), KeyOf(name)) == Get(s, KeyOf(name))
  {
    var p := Plan(up, n);
    forall i | 0 <= i < |p| ensures KeyOf(p[i].name) != KeyOf(name) {
      if i < 2 * n {
        assert p[i] == SecPlan(up, n)[i];
      } else if !up {
        assert p[i] == ErasePlan(n)[i - 2 * n];
      }
      KeysDiffer(p[i].name, name);
    }
    Untouched(s, p, KeyOf(name));
  }

  // ---- what a run counts -----------------------------------------------------------------------

  datatype Stats = Stats(scanned: UInt16, converted: UInt16, alreadyTarget: UInt16, skippedUnknownSize: UInt16)

  const NO_STATS := Stats(0, 0, 0, 0)

  /** The counters are uint16_t. */
  function Count(x: UInt16, more: bool): UInt16 { if more then (x + 1) % 0x1_0000 else x }

  /** The entry is written, or erased. */
  predicate Converts(step: Step, b: Option<Blob>) {
    match step
    case ToCurrent(_) => b.Some? && b.value.V1?
    case ToV1(_) => b.Some? && b.value.Current?
    case IrkToCurrent(_) => true
    case IrkErase(_) => b.Some?
  }

  predicate Already(step: Step, b: Option<Blob>) {
    b.Some? && ((step.ToCurrent? && b.value.Current?) || (step.ToV1? && b.value.V1?))
  }

  /** A size that fits neither layout; an empty local key counts as absent. */
  predicate Strange(step: Step, b: Option<Blob>) {
    b.Some? && match step
      case ToCurrent(_) => !b.value.V1? && !b.value.Current?
      case ToV1(_) => !b.value.V1? && !b.value.Current?
      case IrkToCurrent(_) => !b.value.IrkV1? && !b.value.IrkCurrent? && b.value != Other([])
      case IrkErase(_) => false
  }

  function Tally(t: Stats, step: Step, b: Option<Blob>): Stats {
    Stats(Count(t.scanned, b.Some?), Count(t.converted, Converts(step, b)), Count(t.alreadyTarget, Already(step, b)),
          Count(t.skippedUnknownSize, Strange(step, b)))
  }

  /** The counters after the steps of a plan. */
  function TallyAll(s: Store, plan: seq<Step>): Stats
    decreases |plan|
  {
    if plan == [] then NO_STATS
    else
      var front, step := plan[..|plan| - 1], plan[|plan| - 1];
      Tally(TallyAll(s, front), step, Get(ApplyAll(s, front), KeyOf(step.name)))
  }

  lemma TallyNext(s: Store, plan: seq<Step>, k: nat)
    requires k < |plan|
    ensures TallyAll(s, plan[..k + 1]) == Tally(TallyAll(s, plan[..k]), plan[k], Get(ApplyAll(s, plan[..k]), KeyOf(plan[k].name)))
  {
    assert plan[..k + 1][..k] == plan[..k];
  }

  /** How many slots of the plan, as they stood before it, meet a condition. */
  ghost function Meeting(s: Store, plan: seq<Step>, p: (Step, Option<Blob>) -> bool): nat
    decreases |plan|
  {
    if plan == [] then 0
    else Meeting(s, plan[..|plan| - 1], p) + if p(plan[|plan| - 1], Get(s, KeyOf(plan[|plan| - 1].name))) then 1 else 0
  }

  function IsThere(step: Step, b: Option<Blob>): bool { b.Some? }

  lemma TallyMods(step: Step, b: Option<Blob>, n: nat, c: nat, a: nat, u: nat)
    ensures Tally(Stats(n % 0x1_0000, c % 0x1_0000, a % 0x1_0000, u % 0x1_0000), step, b)
            == Stats((n + if b.Some? then 1 else 0) % 0x1_0000, (c + if Converts(step, b) then 1 else 0) % 0x1_0000,
                     (a + if Already(step, b) then 1 else 0) % 0x1_0000, (u + if Strange(step, b) then 1 else 0) % 0x1_0000)
  {}

  lemma MeetingLast(s: Store, plan: seq<Step>, front: seq<Step>, p: (Step, Option<Blob>) -> bool)
    requires plan != [] && front == plan[..|plan| - 1]
    ensures Meeting(s, plan, p)
            == Meeting(s, front, p) + if p(plan[|plan| - 1], Get(s, KeyOf(plan[|plan| - 1].name))) then 1 else 0
  {}

  lemma TallyLast(s: Store, plan: seq<Step>, front: seq<Step>)
    requires plan != [] && front == plan[..|plan| - 1] && DistinctNames(plan)
    ensures TallyAll(s, plan) == Tally(TallyAll(s, front), plan[|plan| - 1], Get(s, KeyOf(plan[|plan| - 1].name)))
  {
    OthersDiffer(plan, front);
    Untouched(s, front, KeyOf(plan[|plan| - 1].name));
  }

  /** Each slot is counted as it stood before the run; the counters show that modulo 2^16. */
  lemma {:induction false} TallyIs(s: Store, plan: seq<Step>)
    requires DistinctNames(plan)
    ensures TallyAll(s, plan) == Stats(Meeting(s, plan, IsThere) % 0x1_0000, Meeting(s, plan, Converts) % 0x1_0000,
                                       Meeting(s, plan, Already) % 0x1_0000, Meeting(s, plan, Strange) % 0x1_0000)
    decreases |plan|
  {
    if plan != [] {
      var front, step := plan[..|plan| - 1], plan[|plan| - 1];
      var b := Get(s, KeyOf(step.name));
      TallyIs(s, front);
      TallyLast(s, plan, front);
      TallyMods(step, b, Meeting(s, front, IsThere), Meeting(s, front, Converts), Meeting(s, front, Already), Meeting(s, front, Strange));
      MeetingLast(s, plan, front, IsThere);
      MeetingLast(s, plan, front, Converts);
      MeetingLast(s, plan, front, Already);
      MeetingLast(s, plan, front, Strange);
    }
  }

  /** So a whole run commits if and only if the number of conversions is no multiple of 2^16. */
  lemma CommitExactly(s: Store, up: bool, n: nat)
    ensures TallyAll(s, Plan(up, n)).converted != 0 <==> Meeting(s, Plan(up, n), Converts) % 0x1_0000 != 0
  {
    PlanDistinct(up, n);
    TallyIs(s, Plan(up, n));
  }

  /** Only what is converted changes; and that does, unless it is a default local key already. */
  lemma ConvertsChanges(step: Step, b: Option<Blob>)
    ensures Effect(step, b) != b <==> Converts(step, b) && !(step.IrkToCurrent? && b == Some(DEFAULT_LOCAL_IRK))
  {}

  /** The slots of a run downwards all count once, as converted, already there or strange. */
  lemma {:induction false} EachOnce(s: Store, plan: seq<Step>)
    requires forall i :: 0 <= i < |plan| ==> !plan[i].IrkToCurrent?
    ensures Meeting(s, plan, IsThere) == Meeting(s, plan, Converts) + Meeting(s, plan, Already) + Meeting(s, plan, Strange)
    decreases |plan|
  {
    if plan != [] { EachOnce(s, plan[..|plan| - 1]); }
  }
}
