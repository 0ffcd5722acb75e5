/** Check digits of Russian tax numbers (INN) and insurance numbers (SNILS): which errors they detect. */
module CheckDigits {
  import opened Text

  // ----- Digits of a text ---------------------------------------------------------------

  /** The digits of a text, everything else dropped. */
  function Digits(value: string): (d: seq<nat>)
    ensures forall i :: 0 <= i < |d| ==> d[i] <= 9
  {
    if value == "" then []
    else Digits(value[..|value| - 1]) + if IsDigit(value[|value| - 1]) then [DigitValue(value[|value| - 1])] else []
  }

  lemma {:induction false} DigitsAppend(a: string, b: string)
    ensures Digits(a + b) == Digits(a) + Digits(b)
  {
    if b == "" {
      assert a + b == a;
    } else {
      assert (a + b)[..|a + b| - 1] == a + b[..|b| - 1];
      DigitsAppend(a, b[..|b| - 1]);
    }
  }

  /** Texts of digits are read digit by digit, and what is not a digit makes no difference. */
  lemma DigitsAre(a: string, c: char, b: string)
    ensures AllDigits(a) ==> |Digits(a)| == |a| && forall i :: 0 <= i < |a| ==> IsDigit(a[i]) && Digits(a)[i] == DigitValue(a[i])
    ensures !IsDigit(c) ==> Digits(a + [c] + b) == Digits(a + b)
  {
    if AllDigits(a) {
      DigitsOfDigits(a);
    }
    DigitsAppend(a, [c]);
    DigitsAppend(a + [c], b);
    DigitsAppend(a, b);
    assert [c][..0] == "";
  }

  lemma {:induction false} DigitsOfDigits(a: string)
    requires AllDigits(a)
    ensures |Digits(a)| == |a|
    ensures forall i :: 0 <= i < |a| ==> IsDigit(a[i]) && Digits(a)[i] == DigitValue(a[i])
    decreases |a|
  {
    if a != "" {
      assert forall c :: c in a[..|a| - 1] ==> c in a;
      DigitsOfDigits(a[..|a| - 1]);
      assert a[|a| - 1] in a;
      assert forall i :: 0 <= i < |a| - 1 ==> a[..|a| - 1][i] == a[i];
    }
  }

  /** Which digit of a text stands at position `i`. */
  function Place(value: string, i: nat): nat
    requires i < |value|
  {
    |Digits(value[..i])|
  }

  lemma DigitsOfSubstituted(value: string, i: nat, c: char)
    requires i < |value| && IsDigit(value[i]) && IsDigit(c)
    ensures Place(value, i) < |Digits(value)| && Digits(value)[Place(value, i)] == DigitValue(value[i])
    ensures Digits(value[i := c]) == Digits(value)[Place(value, i) := DigitValue(c)]
  {
    hide IsDigit, Digits;
    var a, b := value[..i], value[i + 1..];
    DigitsOfParts(a, value[i], b);
    DigitsOfParts(a, c, b);
    assert value == a + [value[i]] + b;
    assert value[i := c] == a + [c] + b;
    PutInside(Digits(a), DigitValue(value[i]), Digits(b), DigitValue(c));
  }

  lemma PutInside(a: seq<nat>, x: nat, b: seq<nat>, y: nat)
    ensures |a| < |a + [x] + b| && (a + [x] + b)[|a|] == x
    ensures (a + [x] + b)[|a| := y] == a + [y] + b
  {
  }

  lemma DigitsOfParts(a: string, c: char, b: string)
    requires IsDigit(c)
    ensures Digits(a + [c] + b) == Digits(a) + [DigitValue(c)] + Digits(b)
  {
    DigitsAppend(a + [c], b);
    DigitsAppend(a, [c]);
    assert [c][..0] == "";
  }

  // ----- Weighted sums ------------------------------------------------------------------

  /** The digits weighted by as many coefficients. */
  function Weighted(d: seq<nat>, c: seq<nat>): nat
    requires |c| <= |d|
  {
    if c == [] then 0 else Weighted(d, c[..|c| - 1]) + d[|c| - 1] * c[|c| - 1]
  }

  lemma {:induction false} WeightedSubstituted(d: seq<nat>, c: seq<nat>, p: nat, x: nat)
    requires |c| <= |d| && p < |d|
    ensures Weighted(d[p := x], c) == Weighted(d, c) + if p < |c| then (x - d[p]) * c[p] else 0
  {
    if c != [] {
      WeightedSubstituted(d, c[..|c| - 1], p, x);
      if p == |c| - 1 {
        assert (x - d[p]) * c[p] == x * c[p] - d[p] * c[p];
      }
    }
  }

  // ----- Tax numbers --------------------------------------------------------------------

  const TEN: seq<nat> := [2, 4, 10, 3, 5, 9, 4, 6, 8]
  const ELEVENTH: seq<nat> := [7, 2, 4, 10, 3, 5, 9, 4, 6, 8]
  const TWELFTH: seq<nat> := [3, 7, 2, 4, 10, 3, 5, 9, 4, 6, 8]

  function Control(d: seq<nat>, c: seq<nat>): nat
    requires |c| <= |d|
  {
    Weighted(d, c) % 11 % 10
  }

  predicate ValidDigits(d: seq<nat>) {
    if |d| == 10 then Control(d, TEN) == d[9]
    else if |d| == 12 then Control(d, ELEVENTH) == d[10] && Control(d, TWELFTH) == d[11]
    else false
  }

  lemma WeightedEleventh(d: seq<nat>)
    requires |d| == 12
    ensures Weighted(d, ELEVENTH) == 7 * d[0] + 2 * d[1] + 4 * d[2] + 10 * d[3] + 3 * d[4] + 5 * d[5] + 9 * d[6]
      + 4 * d[7] + 6 * d[8] + 8 * d[9]
  {
    hide Weighted;
    WeightedStep(d, ELEVENTH, 1, 7);
    WeightedStep(d, ELEVENTH, 2, 2);
    WeightedStep(d, ELEVENTH, 3, 4);
    WeightedStep(d, ELEVENTH, 4, 10);
    WeightedStep(d, ELEVENTH, 5, 3);
    WeightedStep(d, ELEVENTH, 6, 5);
    WeightedStep(d, ELEVENTH, 7, 9);
    WeightedStep(d, ELEVENTH, 8, 4);
    WeightedStep(d, ELEVENTH, 9, 6);
    WeightedStep(d, ELEVENTH, 10, 8);
    NothingWeighted(d, ELEVENTH);
  }

  lemma WeightedTwelfth(d: seq<nat>)
    requires |d| == 12
    ensures Weighted(d, TWELFTH) == 3 * d[0] + 7 * d[1] + 2 * d[2] + 4 * d[3] + 10 * d[4] + 3 * d[5] + 5 * d[6]
      + 9 * d[7] + 4 * d[8] + 6 * d[9] + 8 * d[10]
  {
    hide Weighted;
    WeightedStep(d, TWELFTH, 1, 3);
    WeightedStep(d, TWELFTH, 2, 7);
    WeightedStep(d, TWELFTH, 3, 2);
    WeightedStep(d, TWELFTH, 4, 4);
    WeightedStep(d, TWELFTH, 5, 10);
    WeightedStep(d, TWELFTH, 6, 3);
    WeightedStep(d, TWELFTH, 7, 5);
    WeightedStep(d, TWELFTH, 8, 9);
    WeightedStep(d, TWELFTH, 9, 4);
    WeightedStep(d, TWELFTH, 10, 6);
    WeightedStep(d, TWELFTH, 11, 8);
    NothingWeighted(d, TWELFTH);
  }

  lemma NothingWeighted(d: seq<nat>, c: seq<nat>)
    requires |c| <= |d|
    ensures Weighted(d, c[..0]) == 0 && c[..|c|] == c
  {
  }

  /** The two control digits of a twelve-digit number, and the one of a ten-digit number, written out. Numbers of other
      lengths are not valid. */
  lemma ValidInnIff(d: seq<nat>)
    ensures ValidDigits(d) ==> |d| == 10 || |d| == 12
    ensures |d| == 10 ==> (ValidDigits(d) <==>
      d[9] == (2 * d[0] + 4 * d[1] + 10 * d[2] + 3 * d[3] + 5 * d[4] + 9 * d[5] + 4 * d[6] + 6 * d[7] + 8 * d[8]) % 11 % 10)
    ensures |d| == 12 ==> (ValidDigits(d) <==>
      && d[10] == (7 * d[0] + 2 * d[1] + 4 * d[2] + 10 * d[3] + 3 * d[4] + 5 * d[5] + 9 * d[6] + 4 * d[7] + 6 * d[8]
        + 8 * d[9]) % 11 % 10
      && d[11] == (3 * d[0] + 7 * d[1] + 2 * d[2] + 4 * d[3] + 10 * d[4] + 3 * d[5] + 5 * d[6] + 9 * d[7] + 4 * d[8]
        + 6 * d[9] + 8 * d[10]) % 11 % 10)
  {
    hide Weighted;
    if |d| == 10 {
      WeightedTen(d);
    } else if |d| == 12 {
      WeightedEleventh(d);
      WeightedTwelfth(d);
    }
  }

  predicate ValidateInn(value: string) {
    ValidDigits(Digits(value))
  }

  predicate AreDigits(d: seq<nat>) {
    forall i :: 0 <= i < |d| ==> d[i] <= 9
  }

  /** The residues that the second `%` makes equal. */
  predicate Blurred(residue: nat) {
    residue == 0 || residue == 10
  }

  lemma ProductMoves(delta: int, c: nat)
    requires -9 <= delta <= 9 && delta != 0 && 1 <= c <= 10
    ensures (delta * c) % 11 != 0
  {
    if c <= 5 {
      SmallProductMoves(delta, c);
    } else {
      SmallProductMoves(delta, 11 - c);
      assert delta * c == 11 * delta - delta * (11 - c);
    }
  }

  lemma SmallMultiplesMove(delta: int)
    requires -9 <= delta <= 9 && delta != 0
    ensures delta % 11 != 0 && (2 * delta) % 11 != 0 && (3 * delta) % 11 != 0 && (4 * delta) % 11 != 0
    ensures (5 * delta) % 11 != 0
  {
  }

  lemma SmallProductMoves(delta: int, c: nat)
    requires -9 <= delta <= 9 && delta != 0 && 1 <= c <= 5
    ensures (delta * c) % 11 != 0
  {
    SmallMultiplesMove(delta);
    if c == 1 {
      assert delta * c == delta;
    } else if c == 2 {
      assert delta * c == 2 * delta;
    } else if c == 3 {
      assert delta * c == 3 * delta;
    } else if c == 4 {
      assert delta * c == 4 * delta;
    } else {
      assert delta * c == 5 * delta;
    }
  }

  lemma Moved(s: nat, t: nat, e: int)
    requires t == s + e && e % 11 != 0
    ensures s % 11 != t % 11
    ensures s % 11 % 10 == t % 11 % 10 <==> Blurred(s % 11) && Blurred(t % 11)
    ensures Blurred(s % 11) && Blurred(t % 11) ==> e % 11 == 1 || e % 11 == 10
  {
  }

  /** A substitution under the coefficients moves the residue; the control digit misses that exactly when the
      residue moves between 0 and 10. */
  lemma ControlAfter(d: seq<nat>, c: seq<nat>, p: nat, x: nat)
    requires AreDigits(d) && x <= 9 && p < |c| <= |d| && x != d[p] && 1 <= c[p] <= 10
    ensures Control(d[p := x], c) == Control(d, c) <==>
      Blurred(Weighted(d, c) % 11) && Blurred(Weighted(d[p := x], c) % 11)
    ensures Control(d[p := x], c) == Control(d, c) ==>
      ((x - d[p]) * c[p]) % 11 == 1 || ((x - d[p]) * c[p]) % 11 == 10
  {
    hide Weighted, Blurred;
    WeightedSubstituted(d, c, p, x);
    ProductMoves(x - d[p], c[p]);
    Moved(Weighted(d, c), Weighted(d[p := x], c), (x - d[p]) * c[p]);
  }

  /** A substitution in the body of a valid ten-digit number passes exactly when it moves the weighted sum
      between the residues 0 and 10, which share the control digit 0. */
  lemma TenSubstitutionPassesIff(d: seq<nat>, p: nat, x: nat)
    requires |d| == 10 && AreDigits(d) && ValidDigits(d) && p < 9 && x <= 9 && x != d[p]
    ensures ValidDigits(d[p := x]) <==> Blurred(Weighted(d, TEN) % 11) && Blurred(Weighted(d[p := x], TEN) % 11)
    ensures ValidDigits(d[p := x]) ==> d[9] == 0
  {
    hide Weighted;
    assert TEN[p] <= 10 && TEN[p] >= 1;
    ControlAfter(d, TEN, p, x);
  }

  /** For every coefficient, the shift of a digit that lowers the sum by one, modulo 11. */
  const LOWERING: seq<nat> := [5, 8, 1, 7, 2, 6, 8, 9, 4]

  /** The same for raising it by one. */
  const RAISING: seq<nat> := [6, 3, 10, 4, 9, 5, 3, 2, 7]

  lemma ShiftMoves(v: nat, c: nat, shift: nat, target: nat)
    requires v <= 9 && 2 <= c <= 10 && 1 <= shift <= 10 && (c * shift) % 11 == target && 0 < target
    requires (v + shift) % 11 <= 9
    ensures var x := (v + shift) % 11; x != v && ((x - v) * c) % 11 == target
  {
    var x := (v + shift) % 11;
    if v + shift < 11 {
      assert x == v + shift;
      assert (x - v) * c == c * shift;
    } else {
      assert x == v + shift - 11;
      assert (x - v) * c == c * shift - 11 * c;
      MinusElevens(c * shift, c);
    }
  }

  lemma MinusElevens(a: int, c: int)
    ensures (a - 11 * c) % 11 == a % 11
  {
  }

  lemma WeightedStep(d: seq<nat>, c: seq<nat>, n: nat, k: nat)
    requires 0 < n <= |c| <= |d| && c[n - 1] == k
    ensures Weighted(d, c[..n]) == Weighted(d, c[..n - 1]) + k * d[n - 1]
  {
    assert c[..n][..n - 1] == c[..n - 1];
  }

  lemma WeightedTen(d: seq<nat>)
    requires |d| == 10
    ensures Weighted(d, TEN) ==
      2 * d[0] + 4 * d[1] + 10 * d[2] + 3 * d[3] + 5 * d[4] + 9 * d[5] + 4 * d[6] + 6 * d[7] + 8 * d[8]
  {
    hide Weighted;
    WeightedStep(d, TEN, 1, 2);
    WeightedStep(d, TEN, 2, 4);
    WeightedStep(d, TEN, 3, 10);
    WeightedStep(d, TEN, 4, 3);
    WeightedStep(d, TEN, 5, 5);
    WeightedStep(d, TEN, 6, 9);
    WeightedStep(d, TEN, 7, 4);
    WeightedStep(d, TEN, 8, 6);
    WeightedStep(d, TEN, 9, 8);
    NothingWeighted(d, TEN);
  }

  ghost predicate Undetected(d: seq<nat>, p: nat, x: nat)
    requires |d| == 10
  {
    p < 9 && x <= 9 && x != d[p] && ValidDigits(d[p := x])
  }

  lemma ShiftIsUndetected(d: seq<nat>, p: nat, shift: nat, target: nat)
    requires |d| == 10 && AreDigits(d) && ValidDigits(d) && p < 9
    requires 1 <= shift <= 10 && (TEN[p] * shift) % 11 == target && (d[p] + shift) % 11 <= 9
    requires (Weighted(d, TEN) % 11 == 0 && target == 10) || (Weighted(d, TEN) % 11 == 10 && target == 1)
    ensures Undetected(d, p, (d[p] + shift) % 11)
  {
    hide Weighted, ValidDigits;
    var x := (d[p] + shift) % 11;
    assert 2 <= TEN[p] <= 10;
    ShiftMoves(d[p], TEN[p], shift, target);
    WeightedSubstituted(d, TEN, p, x);
    TenSubstitutionPassesIff(d, p, x);
    ResidueAfter(Weighted(d, TEN), Weighted(d[p := x], TEN), (x - d[p]) * TEN[p]);
  }

  lemma ResidueAfter(s: nat, t: nat, e: int)
    requires t == s + e && ((s % 11 == 0 && e % 11 == 10) || (s % 11 == 10 && e % 11 == 1))
    ensures Blurred(s % 11) && Blurred(t % 11)
  {
  }

  /** The weighted sum of what every shift leaves to ten. */
  function Complement(shifts: seq<nat>): int
    requires |shifts| == 9
  {
    var shifted: int := 2 * shifts[0] + 4 * shifts[1] + 10 * shifts[2] + 3 * shifts[3] + 5 * shifts[4]
      + 9 * shifts[5] + 4 * shifts[6] + 6 * shifts[7] + 8 * shifts[8];
    510 - shifted
  }

  predicate AreShifts(shifts: seq<nat>, target: nat) {
    |shifts| == 9 && forall q :: 0 <= q < 9 ==> 1 <= shifts[q] <= 10 && (TEN[q] * shifts[q]) % 11 == target
  }

  lemma TenWritten()
    ensures TEN[0] == 2 && TEN[1] == 4 && TEN[2] == 10 && TEN[3] == 3 && TEN[4] == 5 && TEN[5] == 9 && TEN[6] == 4
    ensures TEN[7] == 6 && TEN[8] == 8
  {
  }

  lemma LoweringTable()
    ensures AreShifts(LOWERING, 10)
  {
    TenWritten();
  }

  lemma RaisingTable()
    ensures AreShifts(RAISING, 1)
  {
    TenWritten();
  }

  lemma Complements()
    ensures Complement(LOWERING) == 255 && Complement(RAISING) == 204
  {
  }

  /** The converse of the protection: every valid ten-digit number with control digit 0 has an undetected
      substitution. */
  lemma ZeroControlIsWeak(d: seq<nat>) returns (p: nat, x: nat)
    requires |d| == 10 && AreDigits(d) && ValidDigits(d) && d[9] == 0
    ensures Undetected(d, p, x)
  {
    hide Weighted, Undetected, ValidDigits, Complement, AreShifts;
    LoweringTable();
    RaisingTable();
    Complements();
    BlurredControl(d);
    if Weighted(d, TEN) % 11 == 0 {
      p, x := UndetectedShift(d, LOWERING, 10);
    } else {
      p, x := UndetectedShift(d, RAISING, 1);
    }
  }

  lemma UndetectedShift(d: seq<nat>, shifts: seq<nat>, target: nat) returns (p: nat, x: nat)
    requires |d| == 10 && AreDigits(d) && ValidDigits(d) && AreShifts(shifts, target)
    requires (Weighted(d, TEN) % 11 == 0 && target == 10) || (Weighted(d, TEN) % 11 == 10 && target == 1)
    requires Complement(shifts) % 11 != Weighted(d, TEN) % 11
    ensures Undetected(d, p, x)
  {
    hide Weighted, Undetected, ValidDigits, Complement;
    p := SomeShift(d, shifts);
    x := (d[p] + shifts[p]) % 11;
    ShiftIsUndetected(d, p, shifts[p], target);
  }

  lemma BlurredControl(d: seq<nat>)
    requires |d| == 10 && ValidDigits(d) && d[9] == 0
    ensures Blurred(Weighted(d, TEN) % 11)
  {
    hide Weighted;
  }

  /** A number that weighs something else than what the shifts leave to ten has a shift that gives a digit. */
  lemma SomeShift(d: seq<nat>, shifts: seq<nat>) returns (p: nat)
    requires |d| == 10 && AreDigits(d) && |shifts| == 9 && forall q :: 0 <= q < 9 ==> 1 <= shifts[q] <= 10
    requires Weighted(d, TEN) != Complement(shifts)
    ensures p < 9 && (d[p] + shifts[p]) % 11 <= 9
  {
    hide Weighted;
    WeightedTen(d);
    if q: nat :| q < 9 && (d[q] + shifts[q]) % 11 <= 9 {
      p := q;
    } else {
      AllTen(d, shifts);
      assert false;
    }
  }

  /** If no shift gives a digit, every digit is what is left to ten. */
  lemma AllTen(d: seq<nat>, shifts: seq<nat>)
    requires |d| == 10 && AreDigits(d) && |shifts| == 9 && forall q :: 0 <= q < 9 ==> 1 <= shifts[q] <= 10
    requires forall q :: 0 <= q < 9 ==> (d[q] + shifts[q]) % 11 > 9
    ensures forall q :: 0 <= q < 9 ==> d[q] == 10 - shifts[q]
  {
  }

  /** All substitutions in the body of a valid ten-digit number are rejected exactly when its control digit is
      not 0. */
  lemma TenIsProtectedIff(d: seq<nat>)
    requires |d| == 10 && AreDigits(d) && ValidDigits(d)
    ensures (forall p: nat, x: nat :: !Undetected(d, p, x)) <==> d[9] != 0
  {
    hide Weighted, ValidDigits;
    if d[9] == 0 {
      var p, x := ZeroControlIsWeak(d);
    } else {
      forall p: nat, x: nat
        ensures !Undetected(d, p, x)
      {
        if p < 9 && x <= 9 && x != d[p] {
          TenSubstitutionPassesIff(d, p, x);
        }
      }
    }
  }

  /** The two coefficients of a position differ by more than a sign, modulo 11: no shift of the digit moves both
      sums by one. */
  lemma CoefficientsDisagree(delta: int, p: nat)
    requires p < 10 && -9 <= delta <= 9
    requires (delta * ELEVENTH[p]) % 11 == 1 || (delta * ELEVENTH[p]) % 11 == 10
    ensures (delta * TWELFTH[p]) % 11 != 1 && (delta * TWELFTH[p]) % 11 != 10
  {
    if p < 5 {
      if p == 0 {
        assert ELEVENTH[p] == 7 && TWELFTH[p] == 3;
      } else if p == 1 {
        assert ELEVENTH[p] == 2 && TWELFTH[p] == 7;
      } else if p == 2 {
        assert ELEVENTH[p] == 4 && TWELFTH[p] == 2;
      } else if p == 3 {
        assert ELEVENTH[p] == 10 && TWELFTH[p] == 4;
      } else {
        assert ELEVENTH[p] == 3 && TWELFTH[p] == 10;
      }
    } else {
      if p == 5 {
        assert ELEVENTH[p] == 5 && TWELFTH[p] == 3;
      } else if p == 6 {
        assert ELEVENTH[p] == 9 && TWELFTH[p] == 5;
      } else if p == 7 {
        assert ELEVENTH[p] == 4 && TWELFTH[p] == 9;
      } else if p == 8 {
        assert ELEVENTH[p] == 6 && TWELFTH[p] == 4;
      } else {
        assert ELEVENTH[p] == 8 && TWELFTH[p] == 6;
      }
    }
  }

  /** A valid twelve-digit number becomes invalid under every substitution of a digit, whatever its control
      digits are: where one check is blind, the other is not. */
  lemma TwelveIsProtected(d: seq<nat>, p: nat, x: nat)
    requires |d| == 12 && AreDigits(d) && ValidDigits(d) && p < 12 && x <= 9 && x != d[p]
    ensures !ValidDigits(d[p := x])
  {
    hide Weighted;
    WeightedSubstituted(d, ELEVENTH, p, x);
    WeightedSubstituted(d, TWELFTH, p, x);
    if p < 10 {
      assert 1 <= ELEVENTH[p] <= 10 && 1 <= TWELFTH[p] <= 10;
      ControlAfter(d, ELEVENTH, p, x);
      ControlAfter(d, TWELFTH, p, x);
      if ValidDigits(d[p := x]) {
        CoefficientsDisagree(x - d[p], p);
      }
    }
  }

  /** On texts: writing another digit over a digit of a valid number makes it invalid, unless it is a ten-digit
      number with control digit 0. */
  lemma MistypedInnIsRejected(value: string, i: nat, c: char)
    requires ValidateInn(value) && i < |value| && IsDigit(value[i]) && IsDigit(c) && c != value[i]
    requires |Digits(value)| == 10 ==> Digits(value)[9] != 0
    ensures !ValidateInn(value[i := c])
  {
    hide Digits, Weighted, IsDigit, Control;
    DigitsOfSubstituted(value, i, c);
    var d, p, x := Digits(value), Place(value, i), DigitValue(c);
    OtherDigit(value[i], c);
    if |d| == 12 {
      TwelveIsProtected(d, p, x);
    } else if p < 9 {
      TenSubstitutionPassesIff(d, p, x);
    } else {
      WeightedSubstituted(d, TEN, p, x);
      LastDigitChecked(d, x);
    }
  }

  lemma OtherDigit(a: char, b: char)
    requires IsDigit(a) && IsDigit(b) && a != b
    ensures DigitValue(a) != DigitValue(b)
  {
  }

  lemma LastDigitChecked(d: seq<nat>, x: nat)
    requires |d| == 10 && ValidDigits(d) && x != d[9] && Weighted(d[9 := x], TEN) == Weighted(d, TEN)
    ensures !ValidDigits(d[9 := x])
  {
    hide Weighted;
  }

  // ----- Insurance numbers --------------------------------------------------------------

  const SNILS: seq<nat> := [9, 8, 7, 6, 5, 4, 3, 2, 1]

  /** The checksum that the branches compute. */
  function Expected(s: nat): (e: nat)
    ensures e == s % 101 % 100
  {
    if s < 100 then s
    else if s == 100 || s == 101 then 0
    else if s % 101 == 100 then 0
    else s % 101
  }

  predicate ValidSnils(d: seq<nat>) {
    |d| == 11 && d[9] * 10 + d[10] == Expected(Weighted(d, SNILS))
  }

  lemma WeightedSnils(d: seq<nat>)
    requires |d| == 11
    ensures Weighted(d, SNILS) ==
      9 * d[0] + 8 * d[1] + 7 * d[2] + 6 * d[3] + 5 * d[4] + 4 * d[5] + 3 * d[6] + 2 * d[7] + d[8]
  {
    hide Weighted;
    WeightedStep(d, SNILS, 1, 9);
    WeightedStep(d, SNILS, 2, 8);
    WeightedStep(d, SNILS, 3, 7);
    WeightedStep(d, SNILS, 4, 6);
    WeightedStep(d, SNILS, 5, 5);
    WeightedStep(d, SNILS, 6, 4);
    WeightedStep(d, SNILS, 7, 3);
    WeightedStep(d, SNILS, 8, 2);
    WeightedStep(d, SNILS, 9, 1);
    NothingWeighted(d, SNILS);
  }

  /** The checksum of an insurance number, written out. */
  lemma ValidSnilsIff(d: seq<nat>)
    ensures ValidSnils(d) ==> |d| == 11
    ensures |d| == 11 ==> (ValidSnils(d) <==>
      d[9] * 10 + d[10] ==
        (9 * d[0] + 8 * d[1] + 7 * d[2] + 6 * d[3] + 5 * d[4] + 4 * d[5] + 3 * d[6] + 2 * d[7] + d[8]) % 101 % 100)
  {
    hide Weighted;
    if |d| == 11 {
      WeightedSnils(d);
    }
  }

  predicate ValidateSnils(value: string) {
    ValidSnils(Digits(value))
  }

  /** The sum moves by `e` between the residues 0 and 100, which share the checksum 00. */
  predicate Slips(s: nat, e: int) {
    (s % 101 == 0 && e == -1) || (s % 101 == 100 && e == 1)
  }

  lemma ExpectedAfter(s: nat, t: nat, e: int)
    requires t == s + e && e != 0 && -100 < e < 100
    ensures Expected(s) == Expected(t) <==> Slips(s, e)
  {
  }

  function Rise(from: nat, end: nat): int {
    end - from
  }

  /** A substitution in the body of a valid insurance number passes exactly when it moves its last digit by one
      and the sum slips between 0 and 100 modulo 101. */
  lemma SnilsSubstitutionPassesIff(d: seq<nat>, p: nat, x: nat)
    requires AreDigits(d) && ValidSnils(d) && p < 9 && x <= 9 && x != d[p]
    ensures ValidSnils(d[p := x]) <==> p == 8 && Slips(Weighted(d, SNILS), Rise(d[8], x))
  {
    hide Weighted, Expected;
    WeightedSubstituted(d, SNILS, p, x);
    assert SNILS[p] == 9 - p;
    SmallProduct(x - d[p], 9 - p);
    ExpectedAfter(Weighted(d, SNILS), Weighted(d[p := x], SNILS), (x - d[p]) * (9 - p));
  }

  lemma SmallProduct(delta: int, w: nat)
    requires -9 <= delta <= 9 && delta != 0 && 1 <= w <= 9
    ensures -100 < delta * w < 100 && delta * w != 0
    ensures delta * w == 1 <==> w == 1 && delta == 1
    ensures delta * w == -1 <==> w == 1 && delta == -1
  {
    if delta > 0 {
      assert delta * w >= w && delta * w <= 9 * w;
      assert w > 1 ==> delta * w >= 2;
    } else {
      assert -delta * w >= w && -delta * w <= 9 * w;
    }
  }

  ghost predicate SnilsUndetected(d: seq<nat>, p: nat, x: nat)
    requires |d| == 11
  {
    p < 9 && x <= 9 && x != d[p] && ValidSnils(d[p := x])
  }

  /** All substitutions in the body are rejected exactly when the last body digit cannot slip: it would have to
      go down at residue 0, or up at residue 100. */
  lemma SnilsIsProtectedIff(d: seq<nat>)
    requires |d| == 11 && AreDigits(d) && ValidSnils(d)
    ensures (forall p: nat, x: nat :: !SnilsUndetected(d, p, x)) <==>
      !(Weighted(d, SNILS) % 101 == 0 && d[8] > 0) && !(Weighted(d, SNILS) % 101 == 100 && d[8] < 9)
  {
    hide Weighted, ValidSnils;
    var s := Weighted(d, SNILS);
    forall p: nat, x: nat
      ensures SnilsUndetected(d, p, x) <==> p == 8 && x <= 9 && x != d[8] && Slips(s, Rise(d[8], x))
    {
      if p < 9 && x <= 9 && x != d[p] {
        SnilsSubstitutionPassesIff(d, p, x);
      }
    }
    if s % 101 == 0 && d[8] > 0 {
      assert SnilsUndetected(d, 8, d[8] - 1);
    }
    if s % 101 == 100 && d[8] < 9 {
      assert SnilsUndetected(d, 8, d[8] + 1);
    }
  }

  lemma SwapMoves(a: int, b: int, weight: int)
    ensures (b - a) * (weight + 1) + (a - b) * weight == b - a
  {
  }

  /** Swapping two different neighbours of the body passes exactly when they differ by one and the sum slips. */
  lemma SnilsSwapPassesIff(d: seq<nat>, p: nat)
    requires AreDigits(d) && ValidSnils(d) && p < 8 && d[p] != d[p + 1]
    ensures ValidSnils(d[p := d[p + 1]][p + 1 := d[p]]) <==> Slips(Weighted(d, SNILS), Rise(d[p], d[p + 1]))
  {
    hide Weighted, Expected;
    var one := d[p := d[p + 1]];
    WeightedSubstituted(d, SNILS, p, d[p + 1]);
    WeightedSubstituted(one, SNILS, p + 1, d[p]);
    assert SNILS[p] == 9 - p && SNILS[p + 1] == 8 - p;
    var e := Rise(d[p], d[p + 1]);
    assert one[p + 1] == d[p + 1];
    SwapMoves(d[p], d[p + 1], 8 - p);
    ExpectedAfter(Weighted(d, SNILS), Weighted(one[p + 1 := d[p]], SNILS), e);
  }

  /** On texts: an insurance number whose checksum is not 00 does not survive another digit in its body. */
  lemma MistypedSnilsIsRejected(value: string, i: nat, c: char)
    requires ValidateSnils(value) && i < |value| && IsDigit(value[i]) && IsDigit(c) && c != value[i]
    requires Digits(value)[9] != 0 || Digits(value)[10] != 0
    ensures !ValidateSnils(value[i := c])
  {
    hide Digits, Weighted, IsDigit, Expected;
    DigitsOfSubstituted(value, i, c);
    var d, p, x := Digits(value), Place(value, i), DigitValue(c);
    OtherDigit(value[i], c);
    if p < 9 {
      SnilsSubstitutionPassesIff(d, p, x);
      assert !Slips(Weighted(d, SNILS), Rise(d[8], x));
    } else {
      WeightedSubstituted(d, SNILS, p, x);
      ChecksumDigits(d[9], d[10], d[p := x][9], d[p := x][10]);
    }
  }

  lemma ChecksumDigits(a: nat, b: nat, c: nat, d: nat)
    requires a <= 9 && b <= 9 && c <= 9 && d <= 9 && (a != c || b != d)
    ensures a * 10 + b != c * 10 + d
  {
  }
}
