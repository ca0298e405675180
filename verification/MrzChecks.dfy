/** What the check digits of section 4.9 of ICAO Doc 9303 Part 3 detect, exactly. */
module MrzChecks {
  import opened Optical

  // ---------------------------------------------------------------- the digit from the left

  const ALPHABET := "0123456789ABCDEFGHIJKLMNOPQRSTUVWXYZ"

  /** The value of a character is its place in the alphabet; the filler counts nothing. */
  lemma ValueIsPlace(c: char)
    requires IsMrz(c)
    ensures if c == '<' then Value(c) == 0 else Value(c) < |ALPHABET| && ALPHABET[Value(c)] == c
  {
    var v := Value(c);
    if '0' <= c <= '9' {
      assert ALPHABET[v] == '0' + v as char;
    } else if c != '<' {
      assert ALPHABET[v] == 'A' + (v - 10) as char;
    }
  }

  /** The weights 7, 3 and 1 repeat from the left. */
  lemma {:induction false} SumByThrees(a: char, b: char, c: char, rest: string)
    ensures WeightedSum("") == 0 && WeightedSum([a]) == 7 * Value(a)
            && WeightedSum([a, b]) == 7 * Value(a) + 3 * Value(b)
    ensures WeightedSum([a, b, c] + rest) == 7 * Value(a) + 3 * Value(b) + Value(c) + WeightedSum(rest)
  {
    var s := [a, b, c] + rest;
    assert [a, b][..1] == [a] && [a][..0] == [];
    if rest == "" {
      assert s == [a, b, c] && s[..2] == [a, b];
    } else {
      var init := rest[..|rest| - 1];
      assert s[..|s| - 1] == [a, b, c] + init;
      SumByThrees(a, b, c, init);
      assert Weight(|s| - 1) == Weight(|rest| - 1);
    }
  }

  /** The check digit is the sum modulo 10. */
  lemma DigitIsResidue(s: string)
    ensures Digit(s) == "0123456789"[WeightedSum(s) % 10]
  {
    var n := WeightedSum(s) % 10;
    assert "0123456789"[n] == '0' + n as char;
  }

  // ---------------------------------------------------------------- one character changed

  lemma {:induction false} SumOfUpdate(s: string, p: nat, c: char)
    requires p < |s|
    ensures WeightedSum(s[p := c]) == WeightedSum(s) + (Value(c) - Value(s[p])) * Weight(p)
  {
    var last := |s| - 1;
    var changed := s[p := c];
    if p < last {
      SumOfUpdate(s[..last], p, c);
      assert changed[..last] == s[..last][p := c];
    } else {
      assert changed[..last] == s[..last];
      Distribute(Value(c), Value(s[p]), Weight(p));
    }
  }

  lemma Distribute(a: int, b: int, w: int)
    ensures (a - b) * w == a * w - b * w
  {
  }

  lemma SumResidue(total: int, x: int)
    ensures (total + x) % 10 == total % 10 <==> x % 10 == 0
  {
  }

  lemma ProductResidue(w: int, d: int)
    ensures (w * d) % 10 == (w * (d % 10)) % 10
  {
    var q, r := d / 10, d % 10;
    assert d == 10 * q + r;
    assert w * d == 10 * (w * q) + w * r;
  }

  /** 7, 3 and 1 are invertible modulo 10. */
  lemma Invertible(d: int)
    ensures (7 * d) % 10 == 0 <==> d % 10 == 0
    ensures (3 * d) % 10 == 0 <==> d % 10 == 0
  {
    ProductResidue(7, d);
    ProductResidue(3, d);
    var r := d % 10;
    assert r in {0, 1, 2, 3, 4, 5, 6, 7, 8, 9};
  }

  lemma WeightInvertible(total: int, d: int, w: int)
    requires w in {7, 3, 1}
    ensures (total + d * w) % 10 == total % 10 <==> d % 10 == 0
  {
    SumResidue(total, d * w);
    Invertible(d);
    assert d * w == w * d;
  }

  lemma SameResidue(a: int, b: int, m: nat)
    requires m == 10 || m == 5
    ensures (a - b) % m == 0 <==> a % m == b % m
  {
  }

  lemma DigitCharInjective(a: nat, b: nat)
    requires a < 10 && b < 10
    ensures DigitChar(a) == DigitChar(b) <==> a == b
  {
  }

  /** A check digit misses the change of one character exactly when the two values agree modulo 10. */
  lemma DigitMissesChange(s: string, p: nat, c: char)
    requires p < |s|
    ensures Digit(s[p := c]) == Digit(s) <==> Value(c) % 10 == Value(s[p]) % 10
  {
    SumOfUpdate(s, p, c);
    assert Weight(p) in {7, 3, 1};
    WeightInvertible(WeightedSum(s), Value(c) - Value(s[p]), Weight(p));
    SameResidue(Value(c), Value(s[p]), 10);
    DigitCharInjective(WeightedSum(s[p := c]) % 10, WeightedSum(s) % 10);
  }

  // ---------------------------------------------------------------- two neighbours swapped

  function Swapped(s: string, p: nat): string
    requires p + 1 < |s|
  {
    s[p := s[p + 1]][p + 1 := s[p]]
  }

  lemma SumOfSwap(s: string, p: nat)
    requires p + 1 < |s|
    ensures WeightedSum(Swapped(s, p)) == WeightedSum(s) + (Value(s[p + 1]) - Value(s[p])) * (Weight(p) - Weight(p + 1))
  {
    hide WeightedSum, Value, Weight;
    var x, y := Value(s[p]), Value(s[p + 1]);
    SumOfUpdate(s, p, s[p + 1]);
    SumOfUpdate(s[p := s[p + 1]], p + 1, s[p]);
    Crosswise(x, y, Weight(p), Weight(p + 1));
  }

  lemma Crosswise(x: int, y: int, v: int, w: int)
    ensures (y - x) * v + (x - y) * w == (y - x) * (v - w)
  {
    assert (x - y) * w == (y - x) * (-w);
  }

  lemma HalfInvertible(d: int)
    ensures (4 * d) % 10 == 0 <==> d % 5 == 0
    ensures (2 * d) % 10 == 0 <==> d % 5 == 0
    ensures (-6 * d) % 10 == 0 <==> d % 5 == 0
  {
  }

  /** Neighbouring weights differ by 4, 2 or -6, each twice something invertible modulo 5. */
  lemma WeightStep(total: int, d: int, w: int)
    requires w in {4, 2, -6}
    ensures (total + d * w) % 10 == total % 10 <==> d % 5 == 0
  {
    SumResidue(total, d * w);
    HalfInvertible(d);
    assert d * w == w * d;
  }

  lemma NextWeight(p: nat)
    ensures Weight(p) - Weight(p + 1) in {4, 2, -6}
  {
    assert p % 3 == 2 ==> (p + 1) % 3 == 0;
  }

  /** On a string of any length, a check digit misses the swap of two neighbours exactly when their
      values agree modulo 5. */
  lemma DigitMissesSwap(s: string, p: nat)
    requires p + 1 < |s|
    ensures Digit(Swapped(s, p)) == Digit(s) <==> Value(s[p]) % 5 == Value(s[p + 1]) % 5
  {
    SumOfSwap(s, p);
    NextWeight(p);
    hide Weight, WeightedSum, Value, DigitChar;
    WeightStep(WeightedSum(s), Value(s[p + 1]) - Value(s[p]), Weight(p) - Weight(p + 1));
    SameResidue(Value(s[p + 1]), Value(s[p]), 5);
    DigitCharInjective(WeightedSum(Swapped(s, p)) % 10, WeightedSum(s) % 10);
  }

  // ---------------------------------------------------------------- the five digits together

  /** The nationality and the sex are under no check digit. */
  const UNCOVERED := {10, 11, 12, 20}

  const CHECK_DIGITS := {9, 19, 27, 42, 43}

  /** The data fields with a check digit of their own, as from, to and position of the digit. */
  predicate IsField(from: nat, to: nat, check: nat) {
    (from, to, check) in {(0, 9, 9), (13, 19, 19), (21, 27, 27), (28, 42, 42)}
  }

  /** Where position `p` of the second line lands in the text of the composite digit. */
  function CompositeIndex(p: nat): nat
    requires p < 43 && p !in UNCOVERED
  {
    if p < 10 then p else if p < 20 then p - 3 else p - 4
  }

  lemma CompositeOfChange(b: string, p: nat, c: char)
    requires |b| == 44 && p < 43
    ensures p in UNCOVERED ==> Composite(b[p := c]) == Composite(b)
    ensures p !in UNCOVERED ==> CompositeIndex(p) < |Composite(b)| && Composite(b)[CompositeIndex(p)] == b[p]
    ensures p !in UNCOVERED ==> Composite(b[p := c]) == Composite(b)[CompositeIndex(p) := c]
  {
    var changed := b[p := c];
    if p !in UNCOVERED {
      assert Composite(changed) == Composite(b)[CompositeIndex(p) := c];
    } else {
      assert Composite(changed) == Composite(b);
    }
  }

  lemma FieldOfChange(b: string, p: nat, c: char, from: nat, to: nat)
    requires |b| == 44 && p < 44 && from <= to <= 44
    ensures !(from <= p < to) ==> b[p := c][from..to] == b[from..to]
    ensures from <= p < to ==> b[p := c][from..to] == b[from..to][p - from := c]
  {
  }

  /** The data field a covered position lies in. */
  function FieldOf(p: nat): (f: (nat, nat, nat))
    requires p < 44 && p !in UNCOVERED && p !in CHECK_DIGITS
    ensures IsField(f.0, f.1, f.2) && f.0 <= p < f.1
  {
    if p < 9 then (0, 9, 9) else if p < 19 then (13, 19, 19) else if p < 27 then (21, 27, 27) else (28, 42, 42)
  }

  lemma OwnDigit(b: string, p: nat, c: char, from: nat, to: nat, check: nat)
    requires |b| == 44 && p < 44 && IsField(from, to, check) && Digit(b[from..to]) == b[check]
    ensures var changed := b[p := c];
            Digit(changed[from..to]) == changed[check]
            <==> (if from <= p < to then Value(c) % 10 == Value(b[p]) % 10 else p == check ==> c == b[check])
  {
    FieldOfChange(b, p, c, from, to);
    if from <= p < to {
      DigitMissesChange(b[from..to], p - from, c);
    }
  }

  /** Of a second line that passes, the change of one character goes unnoticed exactly at the four
      positions no check digit covers, and at a data position when the values agree modulo 10; any
      change of a check digit is caught. */
  lemma ChangeGoesUnnoticed(b: string, p: nat, c: char)
    requires |b| == 44 && ChecksPass(b) && p < 44 && c != b[p]
    ensures ChecksPass(b[p := c])
            <==> (p in UNCOVERED || (p !in CHECK_DIGITS && Value(c) % 10 == Value(b[p]) % 10))
  {
    hide Digit, Composite;
    var changed := b[p := c];
    assert b[..9] == b[0..9] && changed[..9] == changed[0..9];
    OwnDigit(b, p, c, 0, 9, 9);
    OwnDigit(b, p, c, 13, 19, 19);
    OwnDigit(b, p, c, 21, 27, 27);
    OwnDigit(b, p, c, 28, 42, 42);
    if p == 43 {
      assert changed[..43] == b[..43];
      CompositeIgnoresLast(b, c);
    } else {
      CompositeOfChange(b, p, c);
      if p !in UNCOVERED {
        DigitMissesChange(Composite(b), CompositeIndex(p), c);
      }
      if p !in UNCOVERED && p !in CHECK_DIGITS {
        var (from, to, check) := FieldOf(p);
      }
    }
  }

  lemma CompositeIgnoresLast(b: string, c: char)
    requires |b| == 44
    ensures Composite(b[43 := c]) == Composite(b)
  {
  }

  lemma SwapInField(b: string, p: nat)
    requires |b| == 44 && ChecksPass(b) && p + 1 < 44
    requires p !in UNCOVERED && p !in CHECK_DIGITS && p + 1 < FieldOf(p).1
    ensures ChecksPass(Swapped(b, p)) <==> Value(b[p]) % 5 == Value(b[p + 1]) % 5
  {
    var (from, to, check) := FieldOf(p);
    var swapped := Swapped(b, p);
    SwapInside(b, p, from, to);
    DigitMissesSwap(b[from..to], p - from);
    SwapOutside(b, p);
    DigitMissesSwap(Composite(b), CompositeIndex(p));
    hide Digit, Composite, Swapped;
    assert b[..9] == b[0..9] && swapped[..9] == swapped[0..9];
    SwapInside(b, p, 0, 9);
    SwapInside(b, p, 13, 19);
    SwapInside(b, p, 21, 27);
    SwapInside(b, p, 28, 42);
    SwapKeeps(b, p);
  }

  lemma UncoveredInvisible(b: string, p: nat, c: char)
    requires |b| == 44 && p in UNCOVERED
    ensures ChecksPass(b[p := c]) <==> ChecksPass(b)
  {
    CompositeOfChange(b, p, c);
    hide Digit, Composite;
    var changed := b[p := c];
    assert changed[..9] == b[..9] && changed[13..19] == b[13..19] && changed[21..27] == b[21..27]
           && changed[28..42] == b[28..42];
  }

  /** The last character of a field traded for its check digit: the new digit is right only if the old
      last character is a digit that agrees with the old one modulo 5. */
  lemma LastForCheck(field: string, c: char)
    requires field != "" && Weight(|field| - 1) in {1, 3} && c == Digit(field)
    ensures var last := |field| - 1;
            Digit(field[last := c]) == field[last] <==> IsDigit(field[last]) && Value(field[last]) % 5 == Value(c) % 5
  {
    var last := |field| - 1;
    var w, v, d := Weight(last), Value(field[last]), Value(c);
    SumOfUpdate(field, last, c);
    var sum := WeightedSum(field);
    DigitValue(sum % 10);
    hide WeightedSum, Weight, Value;
    if IsDigit(field[last]) {
      DigitOfChar(field[last]);
      DigitCharInjective(WeightedSum(field[last := c]) % 10, v);
      TradedDigit(sum, d, v, w);
    }
  }

  lemma DigitValue(n: nat)
    requires n < 10
    ensures Value(DigitChar(n)) == n && IsDigit(DigitChar(n))
  {
  }

  lemma DigitOfChar(c: char)
    requires IsDigit(c)
    ensures Value(c) < 10 && DigitChar(Value(c)) == c
  {
  }

  lemma LastDigitIs(x: int, v: nat)
    requires v < 10
    ensures x % 10 == v <==> (x - v) % 10 == 0
  {
  }

  lemma Tens(q: int, x: int)
    ensures (10 * q + x) % 10 == x % 10
  {
  }

  lemma TimesResidue(q: int, e: int, k: int)
    requires k in {2, 4}
    ensures (10 * q + k * e) % 10 == 0 <==> e % 5 == 0
  {
    HalfInvertible(e);
    if k == 2 {
      Tens(q, 2 * e);
    } else {
      Tens(q, 4 * e);
    }
  }

  lemma TradedDigit(sum: nat, d: nat, v: nat, w: int)
    requires sum % 10 == d && v < 10 && w in {1, 3}
    ensures (sum + (d - v) * w) % 10 == v <==> v % 5 == d % 5
  {
    var q, e := sum / 10, d - v;
    LastDigitIs(sum + e * w, v);
    TimesResidue(q, e, w + 1);
    SameResidue(d, v, 5);
    assert sum + e * w - v == 10 * q + (w + 1) * e by {
      assert sum == 10 * q + d;
      assert (w + 1) * e == e * w + e;
    }
  }

  lemma SwapWithCheck(b: string, p: nat)
    requires |b| == 44 && ChecksPass(b) && p in {8, 18, 26, 41}
    ensures ChecksPass(Swapped(b, p)) <==> IsDigit(b[p]) && Value(b[p]) % 5 == Value(b[p + 1]) % 5
  {
    var from := if p == 8 then 0 else if p == 18 then 13 else if p == 26 then 21 else 28;
    var field, swapped := b[from..p + 1], Swapped(b, p);
    assert b[..9] == b[0..9] && swapped[..9] == swapped[0..9];
    LastForCheck(field, b[p + 1]);
    assert swapped[from..p + 1] == field[p - from := b[p + 1]];
    SwapOutside(b, p);
    DigitMissesSwap(Composite(b), CompositeIndex(p));
    OtherFields(b, p);
    hide Digit, Composite, Swapped, IsDigit;
  }

  lemma OtherFields(b: string, p: nat)
    requires |b| == 44 && p in {8, 18, 26, 41}
    ensures var swapped := Swapped(b, p);
            && (p != 8 ==> swapped[0..9] == b[0..9] && swapped[9] == b[9])
            && (p != 18 ==> swapped[13..19] == b[13..19] && swapped[19] == b[19])
            && (p != 26 ==> swapped[21..27] == b[21..27] && swapped[27] == b[27])
            && (p != 41 ==> swapped[28..42] == b[28..42] && swapped[42] == b[42])
            && swapped[43] == b[43] && swapped[p + 1] == b[p]
  {
  }

  lemma SwapOfCheck(b: string, p: nat)
    requires |b| == 44 && ChecksPass(b) && p in {9, 19, 27, 42}
    ensures ChecksPass(Swapped(b, p)) <==> b[p] == b[p + 1]
  {
    var swapped := Swapped(b, p);
    assert swapped[p] == b[p + 1];
    assert swapped[..9] == b[..9] && swapped[13..19] == b[13..19];
    assert p == 27 ==> swapped[21..27] == b[21..27];
    assert p == 42 ==> swapped[28..42] == b[28..42];
    if b[p] == b[p + 1] {
      assert swapped == b;
    }
    hide Digit, Composite;
  }

  lemma SwapWithUncovered(b: string, p: nat)
    requires |b| == 44 && ChecksPass(b) && p in UNCOVERED
    ensures ChecksPass(Swapped(b, p)) <==> p + 1 in UNCOVERED || Value(b[p]) % 10 == Value(b[p + 1]) % 10
  {
    hide ChecksPass, Value;
    var changed := b[p + 1 := b[p]];
    assert Swapped(b, p) == changed[p := b[p + 1]];
    UncoveredInvisible(changed, p, b[p + 1]);
    if p + 1 in UNCOVERED {
      UncoveredInvisible(b, p + 1, b[p]);
    } else if b[p] == b[p + 1] {
      assert changed == b;
    } else {
      ChangeGoesUnnoticed(b, p + 1, b[p]);
    }
  }

  /** When the swap of positions `p` and `p + 1` of a good second line goes unnoticed. */
  predicate SwapMissed(b: string, p: nat)
    requires p + 1 < |b|
  {
    if p in CHECK_DIGITS then b[p] == b[p + 1]
    else if p in UNCOVERED then p + 1 in UNCOVERED || Value(b[p]) % 10 == Value(b[p + 1]) % 10
    else Value(b[p]) % 5 == Value(b[p + 1]) % 5 && (p + 1 in CHECK_DIGITS ==> IsDigit(b[p]))
  }

  /** Of a second line that passes, at every position: the swap of two neighbours goes unnoticed inside a
      data field exactly when their values agree modulo 5, and with the field's own check digit only if
      the data character is a digit besides; a check digit and what follows it must be equal; from an
      uncovered position into a field the values must agree modulo 10. */
  lemma SwapGoesUnnoticed(b: string, p: nat)
    requires |b| == 44 && ChecksPass(b) && p + 1 < 44
    ensures ChecksPass(Swapped(b, p)) <==> SwapMissed(b, p)
  {
    hide ChecksPass, Value, Swapped, IsDigit;
    if p in CHECK_DIGITS {
      SwapOfCheck(b, p);
    } else if p in UNCOVERED {
      SwapWithUncovered(b, p);
    } else if p + 1 in CHECK_DIGITS {
      SwapWithCheck(b, p);
    } else {
      SwapInField(b, p);
    }
  }

  lemma SwapInside(b: string, p: nat, from: nat, to: nat)
    requires |b| == 44 && p + 1 < 44 && from <= to <= 44 && !(p + 1 == from || p + 1 == to)
    ensures from <= p < to ==> Swapped(b, p)[from..to] == Swapped(b[from..to], p - from)
    ensures !(from <= p < to) ==> Swapped(b, p)[from..to] == b[from..to]
  {
  }

  lemma SwapKeeps(b: string, p: nat)
    requires |b| == 44 && p + 1 < 44 && p !in CHECK_DIGITS && p + 1 !in CHECK_DIGITS
    ensures forall k :: k in CHECK_DIGITS ==> Swapped(b, p)[k] == b[k]
  {
  }

  lemma SwapOutside(b: string, p: nat)
    requires |b| == 44 && p + 1 < 43 && p !in UNCOVERED && p + 1 !in UNCOVERED
    ensures CompositeIndex(p) + 1 < |Composite(b)|
            && Composite(Swapped(b, p)) == Swapped(Composite(b), CompositeIndex(p))
    ensures Composite(b)[CompositeIndex(p)] == b[p] && Composite(b)[CompositeIndex(p) + 1] == b[p + 1]
  {
    var i := CompositeIndex(p);
    assert Composite(Swapped(b, p)) == Swapped(Composite(b), i);
  }
}
