/** The passport reader of optical.py: check digits as in section 4.9 of ICAO Doc 9303
    Part 3, over the TD3 layout of Part 4. */
module Optical {
  import opened Wrappers
  import opened KycTypes
  import opened TextLines

  predicate IsMrz(c: char) {
    '0' <= c <= '9' || 'A' <= c <= 'Z' || c == '<'
  }

  predicate IsName(c: char) {
    'A' <= c <= 'Z' || c == '<'
  }

  predicate All(s: string, p: char -> bool) {
    forall i :: 0 <= i < |s| ==> p(s[i])
  }

  function Value(c: char): (v: nat)
    ensures v < 36
  {
    if '0' <= c <= '9' then (c - '0') as nat
    else if 'A' <= c <= 'Z' then 10 + (c - 'A') as nat
    else 0
  }

  function Weight(i: nat): nat {
    if i % 3 == 0 then 7 else if i % 3 == 1 then 3 else 1
  }

  function WeightedSum(s: string): nat {
    if s == [] then 0 else WeightedSum(s[..|s| - 1]) + Value(s[|s| - 1]) * Weight(|s| - 1)
  }

  function DigitChar(n: nat): char
    requires n < 10
  {
    '0' + n as char
  }

  function Digit(s: string): char {
    DigitChar(WeightedSum(s) % 10)
  }

  /** The characters the composite check digit covers. */
  function Composite(second: string): string
    requires |second| == 44
  {
    second[..10] + second[13..20] + second[21..43]
  }

  /** The five check digits of the second line. */
  predicate ChecksPass(second: string)
    requires |second| == 44
  {
    && Digit(second[..9]) == second[9]
    && Digit(second[13..19]) == second[19]
    && Digit(second[21..27]) == second[27]
    && Digit(second[28..42]) == second[42]
    && Digit(Composite(second)) == second[43]
  }

  // ---------------------------------------------------------------- dates

  datatype Date = Date(year: nat, month: nat, day: nat)
  {
    predicate Valid() {
      1 <= year <= 9999 && 1 <= month <= 12 && 1 <= day <= DaysIn(year, month)
    }

    predicate Before(other: Date) {
      || year < other.year
      || (year == other.year && month < other.month)
      || (year == other.year && month == other.month && day < other.day)
    }
  }

  predicate IsLeap(year: nat) {
    year % 4 == 0 && (year % 100 != 0 || year % 400 == 0)
  }

  function DaysIn(year: nat, month: nat): nat {
    if month == 2 then (if IsLeap(year) then 29 else 28)
    else if month in {4, 6, 9, 11} then 30
    else 31
  }

  function TwoDigits(n: nat): (s: string)
    requires n < 100
    ensures |s| == 2
  {
    [DigitChar(n / 10), DigitChar(n % 10)]
  }

  /** date.isoformat */
  function IsoFormat(d: Date): (s: string)
    requires d.year <= 9999 && d.month < 100 && d.day < 100
    ensures |s| == 10
  {
    TwoDigits(d.year / 100) + TwoDigits(d.year % 100) + "-" + TwoDigits(d.month) + "-" + TwoDigits(d.day)
  }

  predicate IsDigit(c: char) {
    '0' <= c <= '9'
  }

  function Number(s: string): nat
    requires |s| == 2 && All(s, IsDigit)
  {
    10 * (s[0] - '0') as nat + (s[1] - '0') as nat
  }

  /** date.fromisoformat, for the YYYY-MM-DD form the declared dates are stored in. */
  function FromIso(s: string): Option<Date> {
    if |s| == 10 && s[4] == '-' && s[7] == '-' && All(s[..4], IsDigit) && All(s[5..7], IsDigit)
        && All(s[8..], IsDigit) then
      var d := Date(100 * Number(s[..2]) + Number(s[2..4]), Number(s[5..7]), Number(s[8..]));
      if d.Valid() then Some(d) else None
    else None
  }

  /** `mrz_date`: the empty string when the six characters are no date. */
  function MrzDate(value: string, birth: bool, thisYear: nat): string {
    if |value| == 6 && All(value, IsDigit) then
      var year := 2000 + Number(value[..2]);
      var year := if birth && year > thisYear then year - 100 else year;
      var d := Date(year, Number(value[2..4]), Number(value[4..]));
      if d.Valid() then IsoFormat(d) else ""
    else ""
  }

  // ---------------------------------------------------------------- the reader

  /** `re.sub(r"\s", "", line.upper())` */
  function Clean(line: string): string {
    Filter(MapChars(line, UpperChar), c => !IsSpace(c))
  }

  predicate IsFirstLine(a: string) {
    |a| == 44 && a[0] == 'P' && IsName(a[1]) && a[2..5] == "PHL" && All(a[5..], IsName)
  }

  predicate IsSecondLine(b: string) {
    |b| == 44 && All(b, IsMrz)
  }

  function Pairs(lines: seq<string>): (pairs: seq<(string, string)>)
    ensures forall p :: p in pairs ==> IsFirstLine(p.0) && IsSecondLine(p.1)
  {
    if |lines| < 2 then []
    else (if IsFirstLine(lines[0]) && IsSecondLine(lines[1]) then [(lines[0], lines[1])] else []) + Pairs(lines[1..])
  }

  function CleanLines(lines: seq<string>): (r: seq<string>)
    ensures |r| == |lines| && forall i :: 0 <= i < |lines| ==> r[i] == Clean(lines[i])
  {
    seq(|lines|, i requires 0 <= i < |lines| => Clean(lines[i]))
  }

  /** The index of the first "<<", or the length. */
  function FindSeparator(s: string): (n: nat)
    ensures n <= |s|
    ensures n < |s| ==> n + 1 < |s| && s[n] == s[n + 1] == '<'
  {
    if |s| < 2 then |s|
    else if s[0] == s[1] == '<' then 0
    else 1 + FindSeparator(s[1..])
  }

  predicate OnlyFiller(s: string) {
    forall i :: 0 <= i < |s| ==> s[i] == '<'
  }

  /** str.rstrip("<") */
  function StripRight(s: string): string {
    if s != [] && s[|s| - 1] == '<' then StripRight(s[..|s| - 1]) else s
  }

  function FillerToSpace(c: char): char {
    if c == '<' then ' ' else c
  }

  function FullNameOf(given: string, surname: string): string {
    Join(Words(MapChars(given + " " + surname, FillerToSpace)), " ")
  }

  function PassportData(name: string, birth: string, expiry: string, number: string, nationality: string): Fields {
    map[FullName := name,
        BirthDate := birth,
        ExpirationDate := expiry,
        DocumentNumber := number,
        IssuingCountry := "PH",
        Nationality := nationality]
  }

  function PassportFields(first: string, second: string, split: nat, thisYear: nat): Fields
    requires |first| == |second| == 44 && 5 + split + 2 <= 44
  {
    PassportData(
      FullNameOf(first[5 + split + 2..], first[5..5 + split]),
      MrzDate(second[13..19], true, thisYear),
      MrzDate(second[21..27], false, thisYear),
      StripRight(second[..9]),
      if second[10..13] == "PHL" then "PH" else "")
  }

  function ReadPair(first: string, second: string, thisYear: nat): (Fields, Check)
    requires |first| == |second| == 44
  {
    if !ChecksPass(second) then (map[], Failed)
    else
      var names := first[5..];
      var split := FindSeparator(names);
      if split == |names| || OnlyFiller(names[..split]) || OnlyFiller(names[split + 2..]) then (map[], Unavailable)
      else
        var fields := PassportFields(first, second, split, thisYear);
        (fields, if forall k :: k in fields ==> fields[k] != "" then Passed else Unavailable)
  }

  /** `passport`, on the text read from the front image. */
  function Passport(text: string, thisYear: nat): (Fields, Check) {
    var pairs := Pairs(CleanLines(SplitLines(text)));
    if |pairs| != 1 then (map[], Unavailable) else ReadPair(pairs[0].0, pairs[0].1, thisYear)
  }

  /** `inspect_texts`; what the label patterns read from the other two document kinds is an input. */
  function InspectTexts(kind: string, front: string, back: string, labelled: (Fields, Check), thisYear: nat)
    : (Fields, Check)
  {
    if kind == "passport" then Passport(front, thisYear)
    else if kind !in {"philsys", "drivers_license"} || AllSpace(back) then (map[], Unavailable)
    else labelled
  }
}
