/** The organisation-number checksum: what its loop computes, and which typing errors it catches. */
module Luhn {
  type Digit = d: int | 0 <= d <= 9 witness 0

  /** A digit in a doubling position: twice the digit, less nine when that has two digits. */
  function Doubled(d: Digit): Digit {
    if 2 * d > 9 then 2 * d - 9 else 2 * d
  }

  function Weighted(index: nat, d: Digit): Digit {
    if index % 2 == 0 then Doubled(d) else d
  }

  function Total(ds: seq<Digit>): nat {
    if ds == [] then 0 else Total(ds[..|ds| - 1]) + Weighted(|ds| - 1, ds[|ds| - 1])
  }

  predicate Valid(ds: seq<Digit>) {
    Total(ds) % 10 == 0
  }

  method LuhnOk(digits: seq<Digit>) returns (ok: bool)
    ensures ok == Valid(digits)
  {
    var total := 0;
    for index := 0 to |digits|
      invariant total == Total(digits[..index])
    {
      var value: int := digits[index];
      if index % 2 == 0 {
        value := value * 2;
        if value > 9 { value := value - 9; }
      }
      total := total + value;
      assert digits[..index + 1][..index] == digits[..index];
    }
    assert digits[..|digits|] == digits;
    ok := total % 10 == 0;
  }

  /** Changing one digit changes the total by the change of its weighted value. */
  lemma {:induction false} ChangeOne(ds: seq<Digit>, k: nat, d: Digit)
    requires k < |ds|
    ensures Total(ds[k := d]) == Total(ds) - Weighted(k, ds[k]) + Weighted(k, d)
  {
    var n := |ds| - 1;
    if k < n {
      assert ds[k := d][..n] == ds[..n][k := d];
      ChangeOne(ds[..n], k, d);
    } else {
      assert ds[k := d][..n] == ds[..n];
    }
  }

  lemma WeightedIsInjective(k: nat, a: Digit, b: Digit)
    requires Weighted(k, a) == Weighted(k, b)
    ensures a == b
  {}

  lemma SameModTen(x: int, a: Digit, b: Digit)
    requires x % 10 == 0 && (x - a + b) % 10 == 0
    ensures a == b
  {}

  /** No single wrong digit goes unnoticed. */
  lemma SingleErrorIsCaught(ds: seq<Digit>, k: nat, d: Digit)
    requires Valid(ds) && k < |ds| && d != ds[k]
    ensures !Valid(ds[k := d])
  {
    ChangeOne(ds, k, d);
    if Valid(ds[k := d]) {
      SameModTen(Total(ds), Weighted(k, ds[k]), Weighted(k, d));
      WeightedIsInjective(k, ds[k], d);
    }
  }

  lemma AddToMultiple(t: int, x: int)
    requires t % 10 == 0
    ensures (t + x) % 10 == 0 <==> x % 10 == 0
  {}

  /** What a swap of neighbours adds to the total. */
  function Swing(d: Digit): int {
    Doubled(d) - d
  }

  lemma SwingsCollideOnlyAtZeroAndNine(a: Digit, b: Digit)
    ensures (Swing(a) - Swing(b)) % 10 == 0 <==> a == b || (a == 0 && b == 9) || (a == 9 && b == 0)
  {}

  /** A swap of two neighbouring digits of a valid number goes unnoticed exactly when they are equal or 0 and 9. */
  lemma AdjacentSwapIsCaught(ds: seq<Digit>, k: nat)
    requires Valid(ds) && k + 1 < |ds|
    ensures Valid(ds[k := ds[k + 1]][k + 1 := ds[k]]) <==>
      ds[k] == ds[k + 1] || (ds[k] == 0 && ds[k + 1] == 9) || (ds[k] == 9 && ds[k + 1] == 0)
  {
    var a, b := ds[k], ds[k + 1];
    ChangeOne(ds, k, b);
    ChangeOne(ds[k := b], k + 1, a);
    var swapped := ds[k := b][k + 1 := a];
    var change := if k % 2 == 0 then Swing(b) - Swing(a) else Swing(a) - Swing(b);
    assert Total(swapped) == Total(ds) + change;
    AddToMultiple(Total(ds), change);
    SwingsCollideOnlyAtZeroAndNine(a, b);
    SwingsCollideOnlyAtZeroAndNine(b, a);
  }

  /** What the last digit has to add. */
  function Missing(prefix: seq<Digit>): Digit {
    (10 - Total(prefix) % 10) % 10
  }

  /** The digit that completes a prefix. */
  function Check(prefix: seq<Digit>): Digit {
    var n := Missing(prefix);
    if |prefix| % 2 == 1 then n else if n % 2 == 0 then n / 2 else (n + 9) / 2
  }

  lemma DoubledInverse(d: Digit, n: Digit)
    ensures Doubled(d) == n <==> d == if n % 2 == 0 then n / 2 else (n + 9) / 2
  {}

  lemma CompletesTo(t: nat, w: Digit)
    ensures (t + w) % 10 == 0 <==> w == (10 - t % 10) % 10
  {}

  /** Each prefix has exactly one valid last digit. */
  lemma OneCheckDigit(prefix: seq<Digit>, d: Digit)
    ensures Valid(prefix + [d]) <==> d == Check(prefix)
  {
    assert (prefix + [d])[..|prefix|] == prefix;
    CompletesTo(Total(prefix), Weighted(|prefix|, d));
    DoubledInverse(d, Missing(prefix));
  }

  // ----- the published definition

  /** ISO/IEC 7812-1, Annex B: from the right, every second digit is doubled, the last one is not. */
  function FromTheRight(ds: seq<Digit>, double: bool): nat {
    if ds == [] then 0
    else (if double then Doubled(ds[|ds| - 1]) else ds[|ds| - 1]) + FromTheRight(ds[..|ds| - 1], !double)
  }

  lemma {:induction false} ParityMatters(ds: seq<Digit>)
    ensures Total(ds) == FromTheRight(ds, |ds| % 2 == 1)
  {
    if ds != [] { ParityMatters(ds[..|ds| - 1]); }
  }

  /** On numbers of even length, organisation numbers among them, the loop is the standard's definition. */
  lemma EvenLengthsFollowTheStandard(ds: seq<Digit>)
    requires |ds| % 2 == 0
    ensures Valid(ds) <==> FromTheRight(ds, false) % 10 == 0
  {
    ParityMatters(ds);
  }

  /** On odd lengths it is the definition for the number with a zero appended. */
  lemma OddLengthsAreShifted(ds: seq<Digit>)
    requires |ds| % 2 == 1
    ensures Valid(ds) <==> FromTheRight(ds + [0], false) % 10 == 0
  {
    ParityMatters(ds);
    assert (ds + [0])[..|ds|] == ds;
  }

  function Zeros(n: nat): (r: seq<Digit>)
    ensures |r| == n
  {
    if n == 0 then [] else Zeros(n - 1) + [0]
  }

  lemma {:induction false} ZerosAddNothing(n: nat, double: bool)
    ensures Total(Zeros(n)) == 0 && FromTheRight(Zeros(n), double) == 0
  {
    if n > 0 {
      assert Zeros(n)[..n - 1] == Zeros(n - 1);
      ZerosAddNothing(n - 1, !double);
    }
  }

  /** Zeros, then 018. */
  function Overlooked(n: nat): (r: seq<Digit>)
    ensures |r| == n + 3
  {
    Zeros(n) + [0] + [1] + [8]
  }

  /** Of any odd length from three on there is a number that meets the standard's definition and that the loop
      rejects. */
  lemma OddLengthsCanDiffer(n: nat)
    requires n % 2 == 0
    ensures Total(Overlooked(n)) == 8 && FromTheRight(Overlooked(n), false) == 10
  {
    var z := Zeros(n);
    var a: seq<Digit> := z + [0];
    var b: seq<Digit> := a + [1];
    var c: seq<Digit> := b + [8];
    ZerosAddNothing(n, true);
    OneMore(z, 0, false);
    assert Total(a) == 0 && FromTheRight(a, false) == 0;
    OneMore(a, 1, true);
    assert Total(b) == 1 && FromTheRight(b, true) == 2;
    OneMore(b, 8, false);
    assert Total(c) == 8 && FromTheRight(c, false) == 10;
  }

  lemma OneMore(ds: seq<Digit>, d: Digit, double: bool)
    ensures Total(ds + [d]) == Total(ds) + Weighted(|ds|, d)
    ensures FromTheRight(ds + [d], double) == (if double then Doubled(d) else d) + FromTheRight(ds, !double)
  {}

  ghost predicate FollowsTheStandard(n: nat) {
    forall ds: seq<Digit> | |ds| == n :: Valid(ds) <==> FromTheRight(ds, false) % 10 == 0
  }

  /** The loop is the standard's definition exactly on the numbers of even length and the single digits. */
  lemma WhichLengthsFollowTheStandard(n: nat)
    ensures FollowsTheStandard(n) <==> n % 2 == 0 || n == 1
  {
    if n % 2 == 0 {
      forall ds: seq<Digit> | |ds| == n ensures Valid(ds) <==> FromTheRight(ds, false) % 10 == 0 {
        EvenLengthsFollowTheStandard(ds);
      }
    } else if n == 1 {
      forall ds: seq<Digit> | |ds| == n ensures Valid(ds) <==> FromTheRight(ds, false) % 10 == 0 {
        assert ds[..0] == [];
        assert Total(ds) == Doubled(ds[0]) && FromTheRight(ds, false) == ds[0];
      }
    } else {
      OddLengthsCanDiffer(n - 3);
      assert |Overlooked(n - 3)| == n;
    }
  }
}
