/** The two win tests: the contract's unclamped threshold, which aborts on a zero
    denominator and on 256-bit overflow, and the gatekeeper's clamped one. */
module Threshold {
  import opened Bytes

  const MAX: u256 := TWO_256 - 1

  /** floor((2^256 - 1) / d), the hashes that one unit of numerator buys. */
  function Unit(d: u32): (q: nat)
    requires d > 0
  {
    MAX / d
  }

  /** The contract's `(type(uint256).max / d) * n` in checked arithmetic:
      None where it panics, by division by zero or by overflow. */
  function ChainTarget(n: u32, d: u32): (t: Option<u256>)
  {
    if d == 0 then None
    else if Unit(d) * n > MAX then None
    else Some(Unit(d) * n)
  }

  /** Whether the contract lets a ticket with this combined hash through. */
  predicate ChainWins(n: u32, d: u32, hash: u256)
  {
    ChainTarget(n, d).Some? && hash < ChainTarget(n, d).value
  }

  /** The gatekeeper's clamped target. Its product is taken modulo 2^256, as the
      fixed-width multiplication would; `GateProductFits` shows it never wraps. */
  function GateTarget(n: u32, d: u32): (t: u256)
  {
    if d == 0 || n == 0 then 0
    else if n >= d then MAX
    else (Unit(d) * n) % TWO_256
  }

  predicate GateWins(n: u32, d: u32, hash: u256)
  {
    GateTarget(n, d) == MAX || hash < GateTarget(n, d)
  }

  // ------------------------------------------------------------ size of the product

  /** d units fall short of 2^256 - 1 by less than d. */
  lemma UnitDivision(d: u32)
    requires d > 0
    ensures Unit(d) * d == MAX - MAX % d
    ensures 0 <= MAX % d < d
    ensures Unit(d) > MAX % d
  {
    DivideAtLeast(MAX, d, TWO_32);
  }

  lemma DivideAtLeast(a: nat, d: nat, q: nat)
    requires d > 0 && q * d <= a
    ensures a / d >= q
  {
    MulBelow(a / d, q, d);
  }

  lemma MulBelow(a: nat, b: nat, c: nat)
    ensures a < b ==> a * c + c <= b * c
  {
    if a < b {
      MulLeft(a + 1, b, c);
    }
  }

  lemma MulLeft(a: nat, b: nat, c: nat)
    requires a <= b
    ensures a * c <= b * c && c * a <= c * b
  {
  }

  /** The clamped product is exact: no gatekeeper multiplication overflows. */
  lemma GateProductFits(n: u32, d: u32)
    requires 0 < n < d
    ensures Unit(d) * n < MAX
    ensures GateTarget(n, d) == Unit(d) * n
  {
    UnitDivision(d);
    MulLeft(n, d - 1, Unit(d));
    assert Unit(d) * (d - 1) == Unit(d) * d - Unit(d);
  }

  /** Above certainty the contract's product always overflows. */
  lemma ChainOverflows(n: u32, d: u32)
    requires n > d > 0
    ensures Unit(d) * n > MAX
    ensures ChainTarget(n, d) == None
  {
    UnitDivision(d);
    MulLeft(d + 1, n, Unit(d));
    assert Unit(d) * (d + 1) == Unit(d) * d + Unit(d);
  }

  /** The contract's arithmetic panics exactly on a zero denominator and above certainty. */
  lemma ChainPanicsIff(n: u32, d: u32)
    ensures ChainTarget(n, d) == None <==> d == 0 || n > d
  {
    if 0 < d < n {
      ChainOverflows(n, d);
    } else if 0 < d {
      UnitDivision(d);
      MulLeft(n, d, Unit(d));
    }
  }

  // ------------------------------------------------------- agreement of the two tests

  /** A hash that the gatekeeper calls a win is payable unless the odds are certain
      or better: at n = d the top (MAX mod d) + 1 hashes are lost, above it all are. */
  predicate Disagree(n: u32, d: u32, hash: u256)
  {
    0 < d <= n && (n == d ==> hash >= MAX - MAX % d)
  }

  /** The complete comparison over all odds and all hashes. */
  lemma WinTestsAgreeIff(n: u32, d: u32, hash: u256)
    ensures (GateWins(n, d, hash) <==> ChainWins(n, d, hash)) <==> !Disagree(n, d, hash)
    ensures ChainWins(n, d, hash) ==> GateWins(n, d, hash)
  {
    if d == 0 || n == 0 {
    } else if n < d {
      GateProductFits(n, d);
    } else if n == d {
      UnitDivision(d);
    } else {
      ChainOverflows(n, d);
    }
  }

  /** The hashes from lo up to but not including hi. */
  ghost function Interval(lo: nat, hi: nat): (s: set<int>)
    requires lo <= hi
    ensures forall x :: x in s <==> lo <= x < hi
    decreases hi - lo
  {
    if lo == hi then {} else {lo} + Interval(lo + 1, hi)
  }

  lemma {:induction false} IntervalSize(lo: nat, hi: nat)
    requires lo <= hi
    ensures |Interval(lo, hi)| == hi - lo
    decreases hi - lo
  {
    if lo < hi {
      IntervalSize(lo + 1, hi);
    }
  }

  /** All hashes of the 256-bit range that satisfy a test. */
  ghost function Hashes(test: u256 -> bool): (s: set<int>)
    ensures forall x: u256 :: x in s <==> test(x)
    ensures forall x :: x in s ==> 0 <= x < TWO_256
  {
    set x: int | 0 <= x < TWO_256 && test(x)
  }

  /** At even odds n = d the tests differ on exactly (MAX mod d) + 1 hashes, at most d. */
  lemma DisagreementCount(d: u32)
    requires d > 0
    ensures |Hashes((x: u256) => GateWins(d, d, x) != ChainWins(d, d, x))| == MAX % d + 1 <= d
  {
    UnitDivision(d);
    var lost := Hashes((x: u256) => GateWins(d, d, x) != ChainWins(d, d, x));
    forall x: u256 ensures x in lost <==> MAX - MAX % d <= x {
      WinTestsAgreeIff(d, d, x);
    }
    assert lost == Interval(MAX - MAX % d, TWO_256);
    IntervalSize(MAX - MAX % d, TWO_256);
  }

  // ------------------------------------------------------------ accuracy and fairness

  /** The number of winning hashes, over the whole 256-bit range. */
  ghost function WinCount(n: u32, d: u32): nat
  {
    |Hashes((x: u256) => GateWins(n, d, x))|
  }

  /** Below certainty the winning hashes are exactly those under the target. */
  lemma WinCountIsTarget(n: u32, d: u32)
    requires 0 < n < d
    ensures WinCount(n, d) == Unit(d) * n
  {
    GateProductFits(n, d);
    assert Hashes((x: u256) => GateWins(n, d, x)) == Interval(0, Unit(d) * n);
    IntervalSize(0, Unit(d) * n);
  }

  /** The count is within n of the ideal n * 2^256 / d, and never above it. */
  lemma WinCountAccurate(n: u32, d: u32)
    requires 0 < n < d
    ensures n <= n * TWO_256 - d * WinCount(n, d) <= n * d
  {
    WinCountIsTarget(n, d);
    UnitDivision(d);
    Shortfall(n, d, Unit(d), MAX % d);
  }

  lemma Shortfall(n: nat, d: nat, unit: nat, rest: nat)
    requires unit * d == MAX - rest && rest < d
    ensures n <= n * TWO_256 - d * (unit * n) <= n * d
  {
    calc {
      d * (unit * n);
      n * (unit * d);
      n * (TWO_256 - (1 + rest));
      n * TWO_256 - n * (1 + rest);
    }
    MulLeft(1, 1 + rest, n);
    MulLeft(1 + rest, d, n);
  }

  /** The clamped odds: never for n = 0 or d = 0, always for n >= d > 0. */
  lemma WinCountClamped(n: u32, d: u32)
    requires d == 0 || n == 0 || n >= d
    ensures WinCount(n, d) == if d == 0 || n == 0 then 0 else TWO_256
  {
    if d == 0 || n == 0 {
      assert Hashes((x: u256) => GateWins(n, d, x)) == {};
    } else {
      assert Hashes((x: u256) => GateWins(n, d, x)) == Interval(0, TWO_256);
      IntervalSize(0, TWO_256);
    }
  }

  /** A larger numerator or a smaller non-zero denominator never turns a win into a loss. */
  lemma BetterOddsKeepWins(n: u32, d: u32, n': u32, d': u32, hash: u256)
    requires GateWins(n, d, hash)
    requires n <= n' && 0 < d' <= d
    ensures GateWins(n', d', hash)
  {
    if n' < d' {
      GateProductFits(n, d);
      GateProductFits(n', d');
      UnitAntitone(d', d);
      MulLeft(Unit(d), Unit(d'), n);
      MulLeft(n, n', Unit(d'));
    }
  }

  lemma UnitAntitone(d': u32, d: u32)
    requires 0 < d' <= d
    ensures Unit(d) <= Unit(d')
  {
    UnitDivision(d);
    UnitDivision(d');
    if Unit(d) >= Unit(d') + 1 {
      MulLeft(Unit(d') + 1, Unit(d), d');
      assert (Unit(d') + 1) * d' == Unit(d') * d' + d';
      MulLeft(d', d, Unit(d));
    }
  }
}
