/** `new_ulid` of service.py. */
module Ulid {

  const ALPHABET := "0123456789ABCDEFGHJKMNPQRSTVWXYZ"

  function Letter(d: nat): char
    requires d < 32
  {
    ALPHABET[d]
  }

  function Power(base: nat, n: nat): (p: nat)
    requires base > 0
    ensures p > 0
  {
    if n == 0 then 1 else base * Power(base, n - 1)
  }

  /** `(value >> 5 * k) & 31` */
  function Chunk(value: nat, k: nat): (d: nat)
    ensures d < 32
  {
    (value / Power(32, k)) % 32
  }

  /** The 26 characters of a value: five bits each, the most significant first. */
  function Text(value: nat): (s: string)
    ensures |s| == 26
  {
    seq(26, k requires 0 <= k < 26 => Letter(Chunk(value, 25 - k)))
  }

  const RANDOM_BITS := 80
  const TIME_BITS := 48

  /** The milliseconds above the random bits. */
  function Value(milliseconds: nat, random: nat): nat {
    milliseconds * Power(2, RANDOM_BITS) + random
  }

  function NewUlid(milliseconds: nat, random: nat): string {
    Text(Value(milliseconds, random))
  }

  // ---------------------------------------------------------------- decoding

  function Rank(c: char): int
  {
    RankFrom(c, 32)
  }

  function RankFrom(c: char, n: nat): (r: int)
    requires n <= 32
    ensures 0 <= r ==> r < n && ALPHABET[r] == c
  {
    if n == 0 then -1 else if ALPHABET[n - 1] == c then n - 1 else RankFrom(c, n - 1)
  }

  predicate IsText(s: string) {
    forall i :: 0 <= i < |s| ==> Rank(s[i]) >= 0
  }

  function Decode(s: string): nat
    requires IsText(s)
  {
    if s == "" then 0 else 32 * Decode(s[..|s| - 1]) + Rank(s[|s| - 1])
  }

  /** The last `n` digits of `value` in base 32. */
  function Digits(value: nat, n: nat): (s: string)
    ensures |s| == n
  {
    if n == 0 then "" else Digits(value / 32, n - 1) + [Letter(value % 32)]
  }

  lemma RankOfDigit(d: nat)
    requires d < 32
    ensures Rank(Letter(d)) == d
  {
    AlphabetIncreases();
    RankFromDigit(d, 32);
  }

  lemma {:induction false} RankFromDigit(d: nat, n: nat)
    requires d < n <= 32 && forall i, j :: 0 <= i < j < 32 ==> ALPHABET[i] < ALPHABET[j]
    ensures RankFrom(ALPHABET[d], n) == d
  {
    if d < n - 1 {
      RankFromDigit(d, n - 1);
    }
  }

  /** The alphabet is sorted by code point. */
  lemma AlphabetIncreases()
    ensures forall i, j :: 0 <= i < j < 32 ==> ALPHABET[i] < ALPHABET[j]
  {
    assert forall i :: 0 <= i < 31 ==> ALPHABET[i] < ALPHABET[i + 1];
    forall i, j | 0 <= i < j < 32 ensures ALPHABET[i] < ALPHABET[j] {
      IncreasesFrom(i, j);
    }
  }

  lemma {:induction false} IncreasesFrom(i: nat, j: nat)
    requires i < j < 32 && forall k :: 0 <= k < 31 ==> ALPHABET[k] < ALPHABET[k + 1]
    ensures ALPHABET[i] < ALPHABET[j]
  {
    if i < j - 1 {
      IncreasesFrom(i, j - 1);
      assert ALPHABET[j - 1] < ALPHABET[j - 1 + 1];
    }
  }

  lemma SmallMultiple(p: int, x: int)
    requires -p < p * x < p
    ensures x == 0
  {
    if x >= 1 {
      AtLeast(p, x);
    } else if x <= -1 {
      assert p * -x == -(p * x);
      AtLeast(p, -x);
    }
  }

  lemma AtLeast(p: int, x: int)
    requires p > 0 && x >= 1
    ensures p * x >= p
  {
    assert p * x == p * (x - 1) + p;
  }

  lemma Quotient(value: nat, p: nat, q: nat)
    requires p * q <= value < p * q + p
    ensures value / p == q
  {
    var d := value / p;
    assert value == p * d + value % p;
    assert p * (q - d) == p * q - p * d;
    SmallMultiple(p, q - d);
  }

  lemma DivideTwice(value: nat, p: nat)
    requires p > 0
    ensures (value / 32) / p == value / (32 * p)
  {
    var n := value / 32;
    var q := n / p;
    assert n == p * q + n % p;
    Associate(32, p, q);
    assert 32 * (p * q) <= value < 32 * (p * q) + 32 * p;
    Quotient(value, 32 * p, q);
  }

  lemma {:induction false} DigitAt(value: nat, n: nat, k: nat)
    requires k < n
    ensures Digits(value, n)[k] == Letter(Chunk(value, n - 1 - k))
  {
    if k < n - 1 {
      DigitAt(value / 32, n - 1, k);
      DivideTwice(value, Power(32, n - 2 - k));
    }
  }

  lemma TextIsDigits(value: nat)
    ensures Text(value) == Digits(value, 26)
  {
    hide Chunk, Letter, Digits;
    forall k | 0 <= k < 26 ensures Text(value)[k] == Digits(value, 26)[k] {
      DigitAt(value, 26, k);
    }
  }

  lemma {:induction false} DecodeDigits(value: nat, n: nat)
    requires value < Power(32, n)
    ensures IsText(Digits(value, n)) && Decode(Digits(value, n)) == value
  {
    if n > 0 {
      DecodeDigits(value / 32, n - 1);
      RankOfDigit(value % 32);
      var s := Digits(value, n);
      assert s[..n - 1] == Digits(value / 32, n - 1);
    }
  }

  /** Decoding undoes encoding, for every value of 130 bits. */
  lemma DecodeText(value: nat)
    requires value < Power(32, 26)
    ensures IsText(Text(value)) && Decode(Text(value)) == value
  {
    hide Power, Text, Digits, Decode;
    TextIsDigits(value);
    DecodeDigits(value, 26);
  }

  // ---------------------------------------------------------------- the pattern

  /** `^[0-7][0-9A-HJKMNP-TV-Za-hjkmnp-tv-z]{25}$` */
  predicate IsLetter(c: char) {
    || '0' <= c <= '9' || 'A' <= c <= 'H' || c == 'J' || c == 'K' || c == 'M' || c == 'N' || 'P' <= c <= 'T'
        || 'V' <= c <= 'Z'
    || 'a' <= c <= 'h' || c == 'j' || c == 'k' || c == 'm' || c == 'n' || 'p' <= c <= 't' || 'v' <= c <= 'z'
  }

  predicate Matches(s: string) {
    |s| == 26 && '0' <= s[0] <= '7' && forall i :: 1 <= i < 26 ==> IsLetter(s[i])
  }

  lemma AlphabetLetters(d: nat)
    requires d < 32
    ensures IsLetter(Letter(d)) && ('0' <= Letter(d) <= '7' <==> d < 8)
  {
  }

  lemma {:induction false} PowersOfTwo(n: nat)
    ensures Power(32, n) == Power(2, 5 * n)
  {
    if n > 0 {
      PowersOfTwo(n - 1);
      var p := Power(2, 5 * (n - 1));
      assert Power(2, 5 * n) == 2 * Power(2, 5 * n - 1) && Power(2, 5 * n - 1) == 2 * Power(2, 5 * n - 2);
      assert Power(2, 5 * n - 2) == 2 * Power(2, 5 * n - 3) && Power(2, 5 * n - 3) == 2 * Power(2, 5 * n - 4);
      assert Power(2, 5 * n - 4) == 2 * p;
    }
  }

  lemma {:induction false} PowerSum(base: nat, m: nat, n: nat)
    requires base > 0
    ensures Power(base, m + n) == Power(base, m) * Power(base, n)
  {
    if m > 0 {
      PowerSum(base, m - 1, n);
      Associate(base, Power(base, m - 1), Power(base, n));
    }
  }

  lemma Associate(a: int, b: int, c: int)
    ensures a * (b * c) == (a * b) * c
  {
  }

  lemma ValueBound(milliseconds: nat, random: nat, bits: nat)
    requires random < Power(2, RANDOM_BITS)
    ensures Value(milliseconds, random) < Power(2, bits + RANDOM_BITS) <==> milliseconds < Power(2, bits)
  {
    PowerSum(2, bits, RANDOM_BITS);
    hide Power;
    Scale(milliseconds, Power(2, bits), Power(2, RANDOM_BITS), random);
  }

  lemma Scale(m: nat, n: nat, p: nat, r: nat)
    requires r < p
    ensures m * p + r < n * p <==> m < n
  {
    if m < n {
      assert (n - m) * p >= p by {
        AtLeast(p, n - m);
      }
    } else {
      assert (m - n) * p >= 0;
    }
  }

  lemma Bounds()
    ensures Power(32, 26) == Power(2, 50 + RANDOM_BITS)
    ensures 8 * Power(32, 25) == Power(2, TIME_BITS + RANDOM_BITS) && 32 * Power(32, 25) == Power(32, 26)
  {
    PowersOfTwo(26);
    PowersOfTwo(25);
    assert Power(2, 128) == 2 * Power(2, 127) && Power(2, 127) == 2 * Power(2, 126)
           && Power(2, 126) == 2 * Power(2, 125);
  }

  lemma Grows(p: nat, a: nat, b: nat)
    requires a <= b
    ensures p * a <= p * b
  {
    assert p * b == p * a + p * (b - a);
  }

  /** A quotient is below a bound exactly when the number is below its multiple. */
  lemma QuotientBelow(value: nat, p: nat, bound: nat)
    requires p > 0
    ensures value / p < bound <==> value < p * bound
  {
    var q, r := value / p, value % p;
    assert value == p * q + r;
    if q < bound {
      Grows(p, q + 1, bound);
      assert p * (q + 1) == p * q + p;
    } else {
      Grows(p, bound, q);
    }
  }

  lemma FirstDigit(value: nat, p: nat)
    requires p > 0 && value < 32 * p
    ensures value / p < 32 && (value / p < 8 <==> value < 8 * p)
  {
    QuotientBelow(value, p, 32);
    QuotientBelow(value, p, 8);
    assert p * 32 == 32 * p && p * 8 == 8 * p;
  }

  // ---------------------------------------------------------------- what 26 characters keep

  lemma Division(v: nat, n: nat)
    requires n > 0
    ensures v == n * (v / n) + v % n && v % n < n
  {
  }

  lemma SplitPoint(v: nat, p: nat, n: nat, q: nat, w: nat)
    requires n == 32 * p && v == n * q + w && w < n
    ensures v / 32 == p * q + w / 32 && w / 32 < p && v % 32 == w % 32
  {
    Associate(32, p, q);
    Halves(p * q, w);
  }

  lemma Halves(m: nat, r: nat)
    ensures (32 * m + r) / 32 == m + r / 32 && (32 * m + r) % 32 == r % 32
  {
  }

  lemma Remainder(p: nat, q: nat, r: nat)
    requires r < p
    ensures (p * q + r) % p == r
  {
    Quotient(p * q + r, p, q);
  }

  /** Of the digits only those of the remainder show. */
  lemma {:induction false} DigitsKeep(v: nat, n: nat, q: nat, w: nat)
    requires v == Power(32, n) * q + w && w < Power(32, n)
    ensures Digits(w, n) == Digits(v, n)
  {
    if n > 0 {
      SplitPoint(v, Power(32, n - 1), Power(32, n), q, w);
      DigitsKeep(v / 32, n - 1, q, w / 32);
    }
  }

  /** Of a value too large for 26 characters the most significant bits are lost. */
  lemma TextKeeps(v: nat)
    ensures v % Power(32, 26) < Power(32, 26) && Text(v % Power(32, 26)) == Text(v)
  {
    hide Power, Digits, Text;
    var n := Power(32, 26);
    Division(v, n);
    TextIsDigits(v);
    TextIsDigits(v % n);
    DigitsKeep(v, 26, v / n, v % n);
  }

  const KEPT_BITS := 50

  /** The milliseconds of which an identifier keeps anything. */
  function Kept(milliseconds: nat): nat {
    milliseconds % Power(2, KEPT_BITS)
  }

  lemma KeptBound(milliseconds: nat)
    ensures Kept(milliseconds) < Power(2, KEPT_BITS)
    ensures milliseconds < Power(2, KEPT_BITS) ==> Kept(milliseconds) == milliseconds
  {
    hide Power;
  }

  lemma ValueModulo(milliseconds: nat, random: nat)
    requires random < Power(2, RANDOM_BITS)
    ensures Value(milliseconds, random) % Power(2, KEPT_BITS + RANDOM_BITS) == Value(Kept(milliseconds), random)
  {
    hide Power;
    PowerSum(2, KEPT_BITS, RANDOM_BITS);
    ValueKept(milliseconds, random, Power(2, KEPT_BITS), Power(2, RANDOM_BITS));
  }

  /** An identifier keeps fifty bits of the time and all random bits. */
  lemma UlidKeeps(milliseconds: nat, random: nat)
    requires random < Power(2, RANDOM_BITS)
    ensures Value(Kept(milliseconds), random) < Power(32, 26)
    ensures NewUlid(milliseconds, random) == NewUlid(Kept(milliseconds), random)
  {
    hide Power, Text, Value, Kept;
    Bounds();
    KeptBound(milliseconds);
    ValueBound(Kept(milliseconds), random, KEPT_BITS);
    ValueModulo(milliseconds, random);
    TextKeeps(Value(milliseconds, random));
  }

  lemma ValueKept(m: nat, r: nat, n: nat, p: nat)
    requires r < p && n > 0
    ensures (m * p + r) % (n * p) == (m % n) * p + r
  {
    var q, k := m / n, m % n;
    assert m == n * q + k;
    assert m * p == (n * p) * q + k * p by {
      assert (n * q) * p == (n * p) * q;
      assert (n * q + k) * p == (n * q) * p + k * p;
    }
    Scale(k, n, p, r);
    Remainder(n * p, q, k * p + r);
  }

  /** A new identifier has the form the schemas demand exactly when the part of the time it keeps is
      below 2^48 milliseconds. */
  lemma MatchesPattern(milliseconds: nat, random: nat)
    requires random < Power(2, RANDOM_BITS)
    ensures Matches(NewUlid(milliseconds, random)) <==> Kept(milliseconds) < Power(2, TIME_BITS)
  {
    hide Power, IsLetter, Text, Value, Kept;
    UlidKeeps(milliseconds, random);
    var value := Value(Kept(milliseconds), random);
    Bounds();
    ValueBound(Kept(milliseconds), random, TIME_BITS);
    FirstDigit(value, Power(32, 25));
    FirstLetter(value);
    forall i | 1 <= i < 26 ensures IsLetter(Text(value)[i]) {
      LetterAt(value, i);
    }
  }

  lemma LetterAt(value: nat, i: nat)
    requires i < 26
    ensures IsLetter(Text(value)[i])
  {
    hide IsLetter, Chunk, Letter;
    AlphabetLetters(Chunk(value, 25 - i));
  }

  lemma FirstLetter(value: nat)
    requires value / Power(32, 25) < 32
    ensures '0' <= Text(value)[0] <= '7' <==> value / Power(32, 25) < 8
  {
    hide IsLetter, Power, Letter;
    AlphabetLetters(Chunk(value, 25));
  }

  // ---------------------------------------------------------------- order

  /** The order of strings of equal length. */
  ghost predicate Less(s: string, t: string) {
    exists k :: 0 <= k < |s| && k < |t| && s[..k] == t[..k] && s[k] < t[k]
  }

  lemma LessAt(s: string, t: string, k: nat)
    requires k < |s| && k < |t| && s[..k] == t[..k] && s[k] < t[k]
    ensures Less(s, t)
  {
  }

  lemma SameBefore(s: string, t: string, m: nat, k: nat)
    requires k < m <= |s| && m <= |t| && s[..m] == t[..m]
    ensures s[k] == t[k]
  {
    assert s[k] == s[..m][k] && t[k] == t[..m][k];
  }

  lemma LessIsStrict(s: string, t: string)
    requires Less(s, t)
    ensures s != t && !Less(t, s)
  {
    var k :| 0 <= k < |s| && k < |t| && s[..k] == t[..k] && s[k] < t[k];
    if Less(t, s) {
      var m :| 0 <= m < |t| && m < |s| && t[..m] == s[..m] && t[m] < s[m];
      if k < m {
        SameBefore(s, t, m, k);
      } else if m < k {
        SameBefore(s, t, k, m);
      }
      assert false;
    }
  }

  lemma LetterOrder(i: nat, j: nat)
    requires i < j < 32
    ensures Letter(i) < Letter(j)
  {
    AlphabetIncreases();
  }

  lemma LastDigit(value: nat, n: nat)
    requires n > 0
    ensures Digits(value, n)[..n - 1] == Digits(value / 32, n - 1) && Digits(value, n)[n - 1] == Letter(value % 32)
  {
  }

  lemma LessExtends(s: string, t: string, n: nat)
    requires n <= |s| && n <= |t| && Less(s[..n], t[..n])
    ensures Less(s, t)
  {
    var k :| 0 <= k < n && s[..n][..k] == t[..n][..k] && s[..n][k] < t[..n][k];
    assert s[..k] == s[..n][..k] && t[..k] == t[..n][..k];
  }

  lemma {:induction false} SmallerSortsBefore(v: nat, w: nat, n: nat)
    requires v < w < Power(32, n)
    ensures Less(Digits(v, n), Digits(w, n))
  {
    hide Less, Letter, Digits;
    LastDigit(v, n);
    LastDigit(w, n);
    if v / 32 < w / 32 {
      SmallerSortsBefore(v / 32, w / 32, n - 1);
      LessExtends(Digits(v, n), Digits(w, n), n - 1);
    } else {
      LetterOrder(v % 32, w % 32);
      LessAt(Digits(v, n), Digits(w, n), n - 1);
    }
  }

  /** The order of the strings is the order of the values. */
  lemma OrderIsNumeric(v: nat, w: nat)
    requires v < Power(32, 26) && w < Power(32, 26)
    ensures Less(Text(v), Text(w)) <==> v < w
  {
    hide Power, Digits, Text, Less;
    TextIsDigits(v);
    TextIsDigits(w);
    if v < w {
      SmallerSortsBefore(v, w, 26);
    } else if w < v {
      SmallerSortsBefore(w, v, 26);
      LessIsStrict(Text(w), Text(v));
    } else if Less(Text(v), Text(w)) {
      LessIsStrict(Text(v), Text(w));
    }
  }

  /** Identifiers sort by the part of the time they keep, then by their random bits, whatever the times;
      until the year 37648 that is all of the time. */
  lemma UlidOrder(m: nat, r: nat, m': nat, r': nat)
    requires r < Power(2, RANDOM_BITS) && r' < Power(2, RANDOM_BITS)
    ensures Less(NewUlid(m, r), NewUlid(m', r')) <==> Kept(m) < Kept(m') || (Kept(m) == Kept(m') && r < r')
    ensures m < m' < Power(2, KEPT_BITS) ==> Less(NewUlid(m, r), NewUlid(m', r'))
  {
    hide Power, Text, Less, Kept;
    UlidKeeps(m, r);
    UlidKeeps(m', r');
    KeptBound(m);
    KeptBound(m');
    OrderIsNumeric(Value(Kept(m), r), Value(Kept(m'), r'));
    Lexicographic(Kept(m), r, Kept(m'), r', Power(2, RANDOM_BITS));
  }

  lemma Lexicographic(m: nat, r: nat, m': nat, r': nat, p: nat)
    requires r < p && r' < p
    ensures m * p + r < m' * p + r' <==> m < m' || (m == m' && r < r')
  {
    if m < m' {
      Grows(p, m + 1, m');
      assert p * (m + 1) == p * m + p;
    } else if m' < m {
      Grows(p, m' + 1, m);
      assert p * (m' + 1) == p * m' + p;
    }
    assert m * p == p * m && m' * p == p * m';
  }
}
