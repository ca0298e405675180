/** A TD3 machine readable zone printed as ICAO Doc 9303 Part 4 lays it out, and the proof that the
    passport reader gets the holder back from it. */
module Td3Printer {
  import opened Wrappers
  import opened KycTypes
  import opened TextLines
  import opened Optical
  import opened MrzChecks

  predicate IsLetter(c: char) {
    'A' <= c <= 'Z'
  }

  predicate IsWord(word: string) {
    word != "" && All(word, IsLetter)
  }

  predicate AreWords(words: seq<string>) {
    forall i :: 0 <= i < |words| ==> IsWord(words[i])
  }

  function Filler(n: nat): (s: string)
    ensures |s| == n && OnlyFiller(s)
  {
    seq(n, _ => '<')
  }

  function Pad(s: string, n: nat): (r: string)
    requires |s| <= n
    ensures |r| == n
  {
    s + Filler(n - |s|)
  }

  /** The six characters of a date: year, month and day of two digits each. */
  function PrintDate(d: Date): (s: string)
    requires d.Valid()
    ensures |s| == 6
  {
    TwoDigits(d.year % 100) + TwoDigits(d.month) + TwoDigits(d.day)
  }

  /** What a Philippine passport prints. */
  datatype Holder = Holder(
    surname: seq<string>,
    given: seq<string>,
    number: string,
    nationality: string,
    birth: Date,
    sex: char,
    expiry: Date,
    optional: string,
    subtype: char)
  {
    predicate Valid() {
      && surname != [] && AreWords(surname) && given != [] && AreWords(given)
      && |Join(surname, "<")| + 2 + |Join(given, "<")| <= 39
      && number != "" && |number| <= 9 && All(number, c => IsDigit(c) || IsLetter(c))
      && |nationality| == 3 && All(nationality, IsMrz) && IsMrz(sex) && IsName(subtype)
      && birth.Valid() && expiry.Valid()
      && |optional| <= 14 && All(optional, IsMrz)
    }

    function FirstLine(): (s: string)
      requires Valid()
      ensures |s| == 44
    {
      ['P', subtype] + "PHL" + Pad(Join(surname, "<") + "<<" + Join(given, "<"), 39)
    }

    /** The second line up to the composite check digit. */
    function Body(): (s: string)
      requires Valid()
      ensures |s| == 43
    {
      var document := Pad(number, 9);
      var born, expires, extra := PrintDate(birth), PrintDate(expiry), Pad(optional, 14);
      document + [Digit(document)] + nationality + born + [Digit(born)] + [sex]
      + expires + [Digit(expires)] + extra + [Digit(extra)]
    }

    function SecondLine(): (s: string)
      requires Valid()
      ensures |s| == 44
    {
      Body() + [Digit(Body()[..10] + Body()[13..20] + Body()[21..43])]
    }

    /** The fields an applicant reads off the passport. */
    function Fields(): Fields
      requires Valid()
    {
      PassportData(Join(given + surname, " "), IsoFormat(birth), IsoFormat(expiry), number, "PH")
    }
  }

  // ---------------------------------------------------------------- dates

  lemma DigitBack(n: nat)
    requires n < 10
    ensures IsDigit(DigitChar(n)) && (DigitChar(n) - '0') as nat == n
  {
  }

  lemma NumberBack(n: nat)
    requires n < 100
    ensures All(TwoDigits(n), IsDigit) && Number(TwoDigits(n)) == n
  {
    DigitBack(n / 10);
    DigitBack(n % 10);
  }

  lemma TwoDigitsInjective(m: nat, n: nat)
    requires m < 100 && n < 100 && TwoDigits(m) == TwoDigits(n)
    ensures m == n
  {
    NumberBack(m);
    NumberBack(n);
  }

  lemma IsoParts(d: Date)
    requires d.year <= 9999 && d.month < 100 && d.day < 100
    ensures var s := IsoFormat(d);
            && s[..2] == TwoDigits(d.year / 100) && s[2..4] == TwoDigits(d.year % 100) && s[4] == '-'
            && s[5..7] == TwoDigits(d.month) && s[7] == '-' && s[8..] == TwoDigits(d.day)
  {
    hide TwoDigits;
  }

  lemma IsoFormatInjective(d: Date, e: Date)
    requires d.year <= 9999 && d.month < 100 && d.day < 100 && e.year <= 9999 && e.month < 100 && e.day < 100
    requires IsoFormat(d) == IsoFormat(e)
    ensures d == e
  {
    IsoParts(d);
    IsoParts(e);
    TwoDigitsInjective(d.year / 100, e.year / 100);
    TwoDigitsInjective(d.year % 100, e.year % 100);
    TwoDigitsInjective(d.month, e.month);
    TwoDigitsInjective(d.day, e.day);
  }

  /** date.fromisoformat undoes date.isoformat. */
  lemma IsoRoundTrip(d: Date)
    requires d.Valid()
    ensures FromIso(IsoFormat(d)) == Some(d)
  {
    IsoParts(d);
    NumberBack(d.year / 100);
    NumberBack(d.year % 100);
    NumberBack(d.month);
    NumberBack(d.day);
    var s := IsoFormat(d);
    assert s[..4] == s[..2] + s[2..4];
    hide IsoFormat, TwoDigits, Number, DaysIn;
  }

  /** The year a printed date is read as. */
  function YearRead(year: nat, birth: bool, thisYear: nat): nat {
    var read := 2000 + year % 100;
    if birth && read > thisYear then read - 100 else read
  }

  lemma DateRead(d: Date, birth: bool, thisYear: nat)
    requires d.Valid()
    ensures var e := Date(YearRead(d.year, birth, thisYear), d.month, d.day);
            MrzDate(PrintDate(d), birth, thisYear) == if e.Valid() then IsoFormat(e) else ""
  {
    var s := PrintDate(d);
    NumberBack(d.year % 100);
    NumberBack(d.month);
    NumberBack(d.day);
    assert s[..2] == TwoDigits(d.year % 100) && s[2..4] == TwoDigits(d.month) && s[4..] == TwoDigits(d.day);
    assert s == s[..2] + s[2..4] + s[4..];
    hide TwoDigits, Number, DaysIn;
  }

  lemma YearReadBack(year: nat, thisYear: nat)
    ensures YearRead(year, false, thisYear) == year <==> 2000 <= year <= 2099
    ensures 2000 <= thisYear <= 2099 ==> (YearRead(year, true, thisYear) == year <==> thisYear - 100 < year <= thisYear)
  {
  }

  lemma DateReadBack(d: Date, birth: bool, thisYear: nat)
    requires d.Valid()
    ensures MrzDate(PrintDate(d), birth, thisYear) == IsoFormat(d) <==> YearRead(d.year, birth, thisYear) == d.year
  {
    hide YearRead, IsoFormat, PrintDate, MrzDate;
    DateRead(d, birth, thisYear);
    var e := Date(YearRead(d.year, birth, thisYear), d.month, d.day);
    if e.Valid() && IsoFormat(e) == IsoFormat(d) {
      IsoFormatInjective(e, d);
    }
  }

  /** A printed birth date is read back exactly when it lies in the last hundred years, this year included. */
  lemma BirthDateReadBack(d: Date, thisYear: nat)
    requires d.Valid() && 2000 <= thisYear <= 2099
    ensures MrzDate(PrintDate(d), true, thisYear) == IsoFormat(d) <==> thisYear - 100 < d.year <= thisYear
  {
    hide YearRead, IsoFormat, PrintDate, MrzDate;
    DateReadBack(d, true, thisYear);
    YearReadBack(d.year, thisYear);
  }

  /** A printed expiry date is read back exactly when it lies in this century. */
  lemma ExpiryReadBack(d: Date, thisYear: nat)
    requires d.Valid()
    ensures MrzDate(PrintDate(d), false, thisYear) == IsoFormat(d) <==> 2000 <= d.year <= 2099
  {
    hide YearRead, IsoFormat, PrintDate, MrzDate;
    DateReadBack(d, false, thisYear);
    YearReadBack(d.year, thisYear);
  }

  // ---------------------------------------------------------------- names

  /** Letters with single fillers between them. */
  predicate IsNamePart(s: string) {
    && s != "" && All(s, IsName) && s[0] != '<' && s[|s| - 1] != '<'
    && forall i :: 0 <= i < |s| - 1 ==> !(s[i] == '<' && s[i + 1] == '<')
  }

  lemma {:induction false} JoinIsNamePart(words: seq<string>)
    requires words != [] && AreWords(words)
    ensures IsNamePart(Join(words, "<"))
  {
    assert IsWord(words[0]);
    if |words| > 1 {
      JoinIsNamePart(words[1..]);
    }
  }

  lemma {:induction false} SeparatorFound(part: string, rest: string)
    requires part == "" || IsNamePart(part)
    ensures FindSeparator(part + "<<" + rest) == |part|
  {
    var s := part + "<<" + rest;
    if part != "" {
      assert s[1..] == part[1..] + "<<" + rest;
      if |part| > 1 && part[1] == '<' {
        assert part[2] != '<';
        assert s[1..][1..] == part[2..] + "<<" + rest;
        SeparatorFound(part[2..], rest);
      } else {
        SeparatorFound(part[1..], rest);
      }
    }
  }

  lemma {:induction false} JoinWithSpaces(words: seq<string>)
    requires AreWords(words)
    ensures MapChars(Join(words, "<"), FillerToSpace) == Join(words, " ")
  {
    if words != [] {
      assert IsWord(words[0]);
      assert MapChars(words[0], FillerToSpace) == words[0];
      if |words| > 1 {
        var rest := Join(words[1..], "<");
        JoinWithSpaces(words[1..]);
        assert MapChars(words[0] + "<" + rest, FillerToSpace) == words[0] + " " + MapChars(rest, FillerToSpace);
      }
    }
  }

  lemma {:induction false} SkipSpaces(spaces: string, rest: string)
    requires AllSpace(spaces)
    ensures Words(spaces + rest) == Words(rest)
  {
    if spaces == "" {
      assert spaces + rest == rest;
    } else {
      assert (spaces + rest)[1..] == spaces[1..] + rest;
      SkipSpaces(spaces[1..], rest);
    }
  }

  lemma {:induction false} WordEndsAt(word: string, rest: string)
    requires All(word, IsLetter) && (rest == "" || IsSpace(rest[0]))
    ensures WordEnd(word + rest) == |word|
  {
    if word == "" {
      assert word + rest == rest;
    } else {
      assert (word + rest)[1..] == word[1..] + rest;
      WordEndsAt(word[1..], rest);
    }
  }

  lemma FirstWord(word: string, rest: string)
    requires IsWord(word) && (rest == "" || IsSpace(rest[0]))
    ensures Words(word + rest) == [word] + Words(rest)
  {
    WordEndsAt(word, rest);
    var text := word + rest;
    assert text[|word|..] == rest && text[..|word|] == word;
    assert IsLetter(text[0]);
  }

  /** Splitting at white space undoes joining with spaces. */
  lemma {:induction false} WordsOfJoin(words: seq<string>, rest: string)
    requires words != [] && AreWords(words) && (rest == "" || IsSpace(rest[0]))
    ensures Words(Join(words, " ") + rest) == words + Words(rest)
  {
    hide Words;
    var word := words[0];
    assert IsWord(word);
    if |words| == 1 {
      FirstWord(word, rest);
    } else {
      var tail := Join(words[1..], " ") + rest;
      assert Join(words, " ") + rest == word + (" " + tail);
      FirstWord(word, " " + tail);
      SkipSpaces(" ", tail);
      WordsOfJoin(words[1..], rest);
    }
  }

  lemma NameReadBack(surname: seq<string>, given: seq<string>, padding: nat)
    requires surname != [] && AreWords(surname) && given != [] && AreWords(given)
    ensures FullNameOf(Join(given, "<") + Filler(padding), Join(surname, "<")) == Join(given + surname, " ")
  {
    assert Words("") == [];
    var spaces := seq(padding + 1, _ => ' ');
    NameMapped(surname, given, padding, spaces);
    hide Words, MapChars, Join, IsSpace;
    var last := Join(surname, " ");
    assert AllSpace(spaces) && IsSpace((spaces + last)[0]) by {
      SpaceIsSpace();
    }
    WordsOfJoin(given, spaces + last);
    SkipSpaces(spaces, last);
    WordsOfJoin(surname, "");
    assert last + "" == last;
    assert given + (surname + []) == given + surname;
  }

  lemma SpaceIsSpace()
    ensures IsSpace(' ')
  {
  }

  lemma NameMapped(surname: seq<string>, given: seq<string>, padding: nat, spaces: string)
    requires AreWords(surname) && AreWords(given) && spaces == seq(padding + 1, _ => ' ')
    ensures MapChars(Join(given, "<") + Filler(padding) + " " + Join(surname, "<"), FillerToSpace)
         == Join(given, " ") + (spaces + Join(surname, " "))
  {
    JoinWithSpaces(given);
    JoinWithSpaces(surname);
    hide Join;
    var line := Join(given, "<") + Filler(padding) + " " + Join(surname, "<");
    assert MapChars(line, FillerToSpace)
        == MapChars(Join(given, "<"), FillerToSpace) + (spaces + MapChars(Join(surname, "<"), FillerToSpace));
  }

  lemma {:induction false} StripFiller(s: string, n: nat)
    requires s != "" && s[|s| - 1] != '<'
    ensures StripRight(s + Filler(n)) == s
  {
    var padded := s + Filler(n);
    if n == 0 {
      assert padded == s;
    } else {
      assert padded[..|padded| - 1] == s + Filler(n - 1);
      StripFiller(s, n - 1);
    }
  }

  // ---------------------------------------------------------------- the two lines

  lemma Parts(h: Holder)
    requires h.Valid()
    ensures var s := h.SecondLine();
            var document, born, expires, extra := Pad(h.number, 9), PrintDate(h.birth), PrintDate(h.expiry),
                Pad(h.optional, 14);
            && s[..9] == document && s[9] == Digit(document)
            && s[10..13] == h.nationality
            && s[13..19] == born && s[19] == Digit(born) && s[20] == h.sex
            && s[21..27] == expires && s[27] == Digit(expires)
            && s[28..42] == extra && s[42] == Digit(extra)
  {
    hide Digit, PrintDate, Pad;
  }

  lemma LastPart(h: Holder)
    requires h.Valid()
    ensures h.SecondLine()[43] == Digit(Composite(h.SecondLine()))
  {
    hide Digit, Holder.Body;
    var s, body := h.SecondLine(), h.Body();
    assert s[..10] == body[..10] && s[13..20] == body[13..20] && s[21..43] == body[21..43];
  }

  lemma PrintedDateIsDigits(d: Date)
    requires d.Valid()
    ensures All(PrintDate(d), IsDigit)
  {
    NumberBack(d.year % 100);
    NumberBack(d.month);
    NumberBack(d.day);
    hide TwoDigits;
  }

  lemma DigitIsDigit(s: string)
    ensures IsDigit(Digit(s)) && IsMrz(Digit(s))
  {
  }

  lemma PadIsMrz(s: string, n: nat)
    requires |s| <= n && All(s, IsMrz)
    ensures All(Pad(s, n), IsMrz)
  {
  }

  lemma PrintedSecondLine(h: Holder)
    requires h.Valid()
    ensures IsSecondLine(h.SecondLine()) && ChecksPass(h.SecondLine()) && !IsFirstLine(h.SecondLine())
  {
    Parts(h);
    LastPart(h);
    PrintedDateIsDigits(h.birth);
    PrintedDateIsDigits(h.expiry);
    PadIsMrz(h.number, 9);
    PadIsMrz(h.optional, 14);
    var document, born, expires, extra := Pad(h.number, 9), PrintDate(h.birth), PrintDate(h.expiry),
        Pad(h.optional, 14);
    DigitIsDigit(document);
    DigitIsDigit(born);
    DigitIsDigit(expires);
    DigitIsDigit(extra);
    DigitIsDigit(Composite(h.SecondLine()));
    hide Digit, Composite, Pad, PrintDate, Holder.SecondLine;
    var s := h.SecondLine();
    assert s == s[..9] + [s[9]] + s[10..13] + s[13..19] + [s[19]] + [s[20]]
                + s[21..27] + [s[27]] + s[28..42] + [s[42]] + [s[43]];
    assert s[5..][4] == s[9] && !IsName(s[9]);
  }

  lemma PrintedFirstLine(h: Holder)
    requires h.Valid()
    ensures var surname, given := Join(h.surname, "<"), Join(h.given, "<");
            var s, tail := h.FirstLine(), given + Filler(39 - (|surname| + 2 + |given|));
            IsFirstLine(s) && s[5..] == surname + "<<" + tail && IsNamePart(surname) && IsNamePart(given)
  {
    JoinIsNamePart(h.surname);
    JoinIsNamePart(h.given);
    hide Join;
    var surname, given := Join(h.surname, "<"), Join(h.given, "<");
    var s, tail := h.FirstLine(), given + Filler(39 - (|surname| + 2 + |given|));
    assert s[5..] == surname + "<<" + tail;
  }

  /** What the reader makes of the printed lines, whatever the dates and the nationality are. */
  function FieldsRead(h: Holder, thisYear: nat): Fields
    requires h.Valid()
  {
    PassportData(
      Join(h.given + h.surname, " "),
      MrzDate(PrintDate(h.birth), true, thisYear),
      MrzDate(PrintDate(h.expiry), false, thisYear),
      h.number,
      if h.nationality == "PHL" then "PH" else "")
  }

  lemma ReadSplit(first: string, second: string, surname: string, tail: string, thisYear: nat)
    requires |first| == |second| == 44 && ChecksPass(second)
    requires first[5..] == surname + "<<" + tail && FindSeparator(first[5..]) == |surname|
    requires !OnlyFiller(surname) && !OnlyFiller(tail)
    ensures 5 + |surname| + 2 <= 44
    ensures first[5..5 + |surname|] == surname && first[5 + |surname| + 2..] == tail
    ensures var fields := PassportFields(first, second, |surname|, thisYear);
            ReadPair(first, second, thisYear)
                == (fields, if forall k :: k in fields ==> fields[k] != "" then Passed else Unavailable)
  {
    hide ChecksPass, FindSeparator, PassportFields, OnlyFiller;
    var names := first[5..];
    assert names[..|surname|] == surname && names[|surname| + 2..] == tail;
    assert first[5 + |surname| + 2..] == names[|surname| + 2..];
    assert first[5..5 + |surname|] == names[..|surname|];
  }

  lemma ReadPrinted(h: Holder, thisYear: nat)
    requires h.Valid()
    ensures var fields := FieldsRead(h, thisYear);
            ReadPair(h.FirstLine(), h.SecondLine(), thisYear)
              == (fields, if forall k :: k in fields ==> fields[k] != "" then Passed else Unavailable)
  {
    hide Holder.SecondLine, Holder.FirstLine, IsFirstLine, IsSecondLine, ChecksPass, Join, FullNameOf, MrzDate;
    hide StripRight, FindSeparator, PrintDate, Digit, PassportData, ReadPair;
    var surname, given := Join(h.surname, "<"), Join(h.given, "<");
    var n := 39 - (|surname| + 2 + |given|);
    PrintedFirstLine(h);
    PrintedSecondLine(h);
    Parts(h);
    SeparatorFound(surname, given + Filler(n));
    NameReadBack(h.surname, h.given, n);
    StripFiller(h.number, 9 - |h.number|);
    assert !OnlyFiller(surname) && (given + Filler(n))[0] != '<';
    ReadSplit(h.FirstLine(), h.SecondLine(), surname, given + Filler(n), thisYear);
    assert PassportFields(h.FirstLine(), h.SecondLine(), |surname|, thisYear) == FieldsRead(h, thisYear);
  }

  // ---------------------------------------------------------------- the text

  lemma {:induction false} OnePair(before: seq<string>, first: string, second: string, after: seq<string>)
    requires IsFirstLine(first) && IsSecondLine(second) && !IsFirstLine(second)
    requires forall l :: l in before || l in after ==> !IsFirstLine(l)
    ensures Pairs(before + [first, second] + after) == [(first, second)]
  {
    hide IsFirstLine, IsSecondLine;
    var lines := before + [first, second] + after;
    if before == [] {
      NoPair([second] + after);
      assert lines[1..] == [second] + after;
    } else {
      assert lines[1..] == before[1..] + [first, second] + after;
      OnePair(before[1..], first, second, after);
    }
  }

  lemma {:induction false} NoPair(lines: seq<string>)
    requires forall l :: l in lines ==> !IsFirstLine(l)
    ensures Pairs(lines) == []
  {
    if |lines| >= 2 {
      NoPair(lines[1..]);
    }
  }

  /** The text read from the front image shows the two printed lines, and no other line looks like a first one. */
  ghost predicate Shows(text: string, first: string, second: string) {
    exists before: seq<string>, after: seq<string> ::
      && CleanLines(SplitLines(text)) == before + [first, second] + after
      && forall l :: l in before || l in after ==> !IsFirstLine(l)
  }

  lemma PassportShown(text: string, first: string, second: string, thisYear: nat)
    requires Shows(text, first, second) && IsFirstLine(first) && IsSecondLine(second) && !IsFirstLine(second)
    ensures Passport(text, thisYear) == ReadPair(first, second, thisYear)
  {
    hide IsFirstLine, IsSecondLine, ReadPair, CleanLines, SplitLines;
    var before: seq<string>, after: seq<string> :|
      && CleanLines(SplitLines(text)) == before + [first, second] + after
      && forall l :: l in before || l in after ==> !IsFirstLine(l);
    OnePair(before, first, second, after);
  }

  /** Reading a text that shows a printed passport gives its fields back and passes, exactly when the
      holder is a Philippine national, the birth date lies in the last hundred years and the expiry
      date in this century. */
  lemma ReadingUndoesPrinting(h: Holder, text: string, thisYear: nat)
    requires h.Valid() && Shows(text, h.FirstLine(), h.SecondLine()) && 2000 <= thisYear <= 2099
    ensures Passport(text, thisYear) == (h.Fields(), Passed)
            <==> h.nationality == "PHL" && thisYear - 100 < h.birth.year <= thisYear && 2000 <= h.expiry.year <= 2099
  {
    hide Passport, ReadPair, IsFirstLine, IsSecondLine, ChecksPass, MrzDate, PrintDate, Holder.FirstLine;
    hide Holder.SecondLine, Join, IsoFormat, Shows, PassportData;
    PrintedFirstLine(h);
    PrintedSecondLine(h);
    PassportShown(text, h.FirstLine(), h.SecondLine(), thisYear);
    ReadPrinted(h, thisYear);
    BirthDateReadBack(h.birth, thisYear);
    ExpiryReadBack(h.expiry, thisYear);
    WordsShow(h.given + h.surname);
    var nationality := if h.nationality == "PHL" then "PH" else "";
    DataAgree(Join(h.given + h.surname, " "), h.number,
              MrzDate(PrintDate(h.birth), true, thisYear), MrzDate(PrintDate(h.expiry), false, thisYear), nationality,
              IsoFormat(h.birth), IsoFormat(h.expiry), "PH");
  }

  lemma DataAgree(name: string, number: string, birth: string, expiry: string, nationality: string,
                  birth': string, expiry': string, nationality': string)
    ensures PassportData(name, birth, expiry, number, nationality)
            == PassportData(name, birth', expiry', number, nationality')
            <==> birth == birth' && expiry == expiry' && nationality == nationality'
    ensures var data := PassportData(name, birth, expiry, number, nationality);
            (forall k :: k in data ==> data[k] != "")
                <==> name != "" && birth != "" && expiry != "" && number != "" && nationality != ""
  {
    var data, data' := PassportData(name, birth, expiry, number, nationality),
        PassportData(name, birth', expiry', number, nationality');
    assert data[BirthDate] == birth && data[ExpirationDate] == expiry && data[Nationality] == nationality;
    assert data[FullName] == name && data[DocumentNumber] == number;
    assert data'[BirthDate] == birth' && data'[ExpirationDate] == expiry' && data'[Nationality] == nationality';
  }

  lemma WordsShow(words: seq<string>)
    requires words != [] && IsWord(words[0])
    ensures Join(words, " ") != ""
  {
  }

  lemma CleanKeepsMrz(s: string)
    requires All(s, IsMrz)
    ensures Clean(s) == s
  {
    assert MapChars(s, UpperChar) == s;
    FilterKeeps(s, c => !IsSpace(c));
  }

  lemma {:induction false} FilterKeeps(s: string, keep: char -> bool)
    requires All(s, keep)
    ensures Filter(s, keep) == s
  {
    if s != "" {
      FilterKeeps(s[1..], keep);
    }
  }

  /** Two lines of the form of a zone, one below the other, are shown by their text. */
  lemma LinesShow(first: string, second: string)
    requires IsFirstLine(first) && IsSecondLine(second)
    ensures Shows(JoinLines([first, second]), first, second)
  {
    hide Clean, IsFirstLine, SplitLines, JoinLines;
    FirstLineIsMrz(first);
    CleanKeepsMrz(first);
    CleanKeepsMrz(second);
    MrzHasNoBreak(first);
    MrzHasNoBreak(second);
    SplitJoin([first, second]);
    var none: seq<string> := [];
    assert CleanLines([first, second]) == none + [first, second] + none;
  }

  /** The two lines printed one below the other are such a text. */
  lemma PrintedTextShows(h: Holder)
    requires h.Valid()
    ensures Shows(JoinLines([h.FirstLine(), h.SecondLine()]), h.FirstLine(), h.SecondLine())
  {
    hide IsFirstLine, IsSecondLine, ChecksPass, Holder.FirstLine, Holder.SecondLine, JoinLines, Shows;
    PrintedFirstLine(h);
    PrintedSecondLine(h);
    LinesShow(h.FirstLine(), h.SecondLine());
  }

  /** `typed` is `line` in any mixture of upper and lower case, with white space anywhere. */
  predicate Retyped(typed: string, line: string)
    decreases |typed|
  {
    if typed == "" then line == ""
    else if IsSpace(typed[0]) then Retyped(typed[1..], line)
    else
      && line != ""
      && (typed[0] == line[0] || ('a' <= typed[0] <= 'z' && typed[0] as int - 32 == line[0] as int))
      && Retyped(typed[1..], line[1..])
  }

  lemma {:induction false} CleanUndoesTyping(typed: string, line: string)
    requires All(line, IsMrz) && Retyped(typed, line)
    ensures Clean(typed) == line
  {
    if typed != "" {
      var c := UpperChar(typed[0]);
      assert MapChars(typed, UpperChar)[1..] == MapChars(typed[1..], UpperChar);
      if IsSpace(typed[0]) {
        CleanUndoesTyping(typed[1..], line);
      } else {
        CleanUndoesTyping(typed[1..], line[1..]);
        assert c == line[0];
      }
    }
  }

  /** Two printed lines below one another are shown however the text engine spaces them and whatever case
      it reads. */
  lemma RetypedTextShows(h: Holder, first: string, second: string)
    requires h.Valid() && Retyped(first, h.FirstLine()) && Retyped(second, h.SecondLine())
    requires NoBreak(first) && NoBreak(second)
    ensures Shows(JoinLines([first, second]), h.FirstLine(), h.SecondLine())
  {
    hide Clean, IsFirstLine, SplitLines, JoinLines, Holder.FirstLine, Holder.SecondLine, Retyped, NoBreak, ChecksPass;
    PrintedFirstLine(h);
    PrintedSecondLine(h);
    FirstLineIsMrz(h.FirstLine());
    CleanUndoesTyping(first, h.FirstLine());
    CleanUndoesTyping(second, h.SecondLine());
    SplitJoin([first, second]);
    var none: seq<string> := [];
    assert CleanLines([first, second]) == none + [h.FirstLine(), h.SecondLine()] + none;
  }

  lemma FirstLineIsMrz(s: string)
    requires IsFirstLine(s)
    ensures All(s, IsMrz)
  {
    assert forall i :: 5 <= i < 44 ==> IsName(s[5..][i - 5]) && s[5..][i - 5] == s[i];
    assert forall i :: 2 <= i < 5 ==> s[2..5][i - 2] == s[i];
  }

  lemma MrzHasNoBreak(s: string)
    requires All(s, IsMrz)
    ensures NoBreak(s)
  {
  }

  // ---------------------------------------------------------------- a printed passport altered

  /** A good second line has digits among its last 39 characters, also after one change. */
  lemma AlteredIsSecondLine(second: string, p: nat, c: char)
    requires IsSecondLine(second) && ChecksPass(second) && p < 44 && IsMrz(c)
    ensures IsSecondLine(second[p := c]) && !IsFirstLine(second[p := c])
  {
    DigitIsDigit(second[13..19]);
    DigitIsDigit(second[21..27]);
    hide Digit, Composite;
    var altered := second[p := c];
    var k := if p == 19 then 27 else 19;
    assert altered[k] == second[k] && !IsName(altered[k]);
    assert altered[5..][k - 5] == altered[k];
  }

  /** Reading a text that shows a passport whose good second line had one character changed fails,
      exactly unless the position is covered by no check digit or the two values agree modulo 10. */
  lemma AlterationDetected(text: string, first: string, second: string, p: nat, c: char, thisYear: nat)
    requires IsFirstLine(first) && IsSecondLine(second) && ChecksPass(second)
    requires p < 44 && IsMrz(c) && c != second[p] && Shows(text, first, second[p := c])
    ensures Passport(text, thisYear).1 == Failed
            <==> !(p in UNCOVERED || (p !in CHECK_DIGITS && Value(c) % 10 == Value(second[p]) % 10))
  {
    AlteredIsSecondLine(second, p, c);
    PassportShown(text, first, second[p := c], thisYear);
    ChangeGoesUnnoticed(second, p, c);
    FirstLineIsMrz(first);
    hide Passport, Shows, ChecksPass, IsFirstLine, IsSecondLine, PassportFields, FindSeparator;
    LengthsOfLines(first, second[p := c]);
  }

  lemma LengthsOfLines(first: string, second: string)
    requires IsFirstLine(first) && IsSecondLine(second)
    ensures |first| == |second| == 44
  {
  }

  // ---------------------------------------------------------------- when a text fails

  /** Lines `i` and `i + 1` have the form of a zone. */
  predicate ZoneAt(lines: seq<string>, i: nat) {
    i + 1 < |lines| && IsFirstLine(lines[i]) && IsSecondLine(lines[i + 1])
  }

  /** The two lines of a zone: "P", a letter or filler, "PHL" and 39 letters or fillers; and 44 letters,
      digits or fillers. */
  lemma ZoneForm(a: string, b: string)
    ensures IsFirstLine(a)
        <==> (exists subtype, names: string :: |names| == 39 && a == ['P', subtype] + "PHL" + names
                && forall c :: c in [subtype] + names ==> 'A' <= c <= 'Z' || c == '<')
    ensures IsSecondLine(b)
        <==> |b| == 44 && forall c :: c in b ==> 'A' <= c <= 'Z' || '0' <= c <= '9' || c == '<'
  {
    if IsFirstLine(a) {
      var names := a[5..];
      assert a == ['P', a[1]] + a[2..5] + names;
      assert forall c :: c in names ==> IsName(c);
    }
    if exists subtype, names: string :: |names| == 39 && a == ['P', subtype] + "PHL" + names
         && forall c :: c in [subtype] + names ==> 'A' <= c <= 'Z' || c == '<' {
      var subtype, names: string :| |names| == 39 && a == ['P', subtype] + "PHL" + names
        && forall c :: c in [subtype] + names ==> 'A' <= c <= 'Z' || c == '<';
      assert a[2..5] == "PHL" && a[5..] == names;
      assert subtype in [subtype] + names;
      assert forall i :: 0 <= i < 39 ==> names[i] in [subtype] + names;
    }
    assert forall i :: 0 <= i < |b| ==> b[i] in b;
  }

  ghost predicate OnlyZone(lines: seq<string>, i: nat) {
    ZoneAt(lines, i) && forall j: nat :: ZoneAt(lines, j) ==> j == i
  }

  ghost predicate TwoZones(lines: seq<string>) {
    exists i: nat, j: nat :: i < j && ZoneAt(lines, i) && ZoneAt(lines, j)
  }

  lemma ZonesShift(lines: seq<string>, i: nat)
    requires |lines| >= 2
    ensures ZoneAt(lines, i + 1) <==> ZoneAt(lines[1..], i)
  {
    hide IsFirstLine, IsSecondLine;
  }

  lemma {:induction false} PairsAreZones(lines: seq<string>) returns (i: nat)
    ensures |Pairs(lines)| == 0 ==> forall j: nat :: !ZoneAt(lines, j)
    ensures |Pairs(lines)| == 1 ==>
              OnlyZone(lines, i) && Pairs(lines)[0].0 == lines[i] && Pairs(lines)[0].1 == lines[i + 1]
    ensures |Pairs(lines)| >= 2 ==> TwoZones(lines)
    ensures |Pairs(lines)| >= 1 ==> ZoneAt(lines, i)
  {
    i := 0;
    if |lines| >= 2 {
      var rest := lines[1..];
      var k := PairsAreZones(rest);
      hide IsFirstLine, IsSecondLine;
      forall j: nat ensures ZoneAt(lines, j + 1) <==> ZoneAt(rest, j) {
        ZonesShift(lines, j);
      }
      forall j: nat | j > 0 ensures ZoneAt(lines, j) <==> ZoneAt(rest, j - 1) {
        ZonesShift(lines, j - 1);
      }
      if ZoneAt(lines, 0) {
        assert Pairs(lines) == [(lines[0], lines[1])] + Pairs(rest);
        if |Pairs(rest)| >= 1 {
          assert ZoneAt(lines, k + 1);
        }
      } else {
        assert Pairs(lines) == Pairs(rest);
        i := k + 1;
        if |Pairs(rest)| >= 2 {
          var m: nat, n: nat :| m < n && ZoneAt(rest, m) && ZoneAt(rest, n);
          assert ZoneAt(lines, m + 1) && ZoneAt(lines, n + 1);
        }
      }
    }
  }

  /** A text fails exactly when it shows one zone whose second line has a wrong check digit; without a zone,
      or with several, there is no answer and nothing is read. */
  lemma PassportFailsExactly(text: string, lines: seq<string>, thisYear: nat)
    requires lines == CleanLines(SplitLines(text))
    ensures Passport(text, thisYear).1 == Failed
        <==> exists i: nat :: OnlyZone(lines, i) && !ChecksPass(lines[i + 1])
    ensures (forall i: nat :: !OnlyZone(lines, i)) ==> Passport(text, thisYear) == (map[], Unavailable)
  {
    var i := PairsAreZones(lines);
    hide IsFirstLine, IsSecondLine, CleanLines, SplitLines, ChecksPass, PassportFields, Pairs, ZoneAt, ReadPair;
    if |Pairs(lines)| == 1 {
      ZoneLengths(lines, i);
      PairFails(lines[i], lines[i + 1], thisYear);
      assert Passport(text, thisYear) == ReadPair(lines[i], lines[i + 1], thisYear);
      assert OnlyZone(lines, i);
    } else if |Pairs(lines)| >= 2 {
      var m: nat, n: nat :| m < n && ZoneAt(lines, m) && ZoneAt(lines, n);
    } else {
      assert forall j: nat :: !OnlyZone(lines, j);
    }
  }

  lemma ZoneLengths(lines: seq<string>, i: nat)
    requires ZoneAt(lines, i)
    ensures i + 1 < |lines| && |lines[i]| == |lines[i + 1]| == 44
  {
  }

  lemma PairFails(first: string, second: string, thisYear: nat)
    requires |first| == |second| == 44
    ensures ReadPair(first, second, thisYear).1 == Failed <==> !ChecksPass(second)
  {
    hide ChecksPass, PassportFields, FindSeparator;
  }

  /** Position `i` of a first line is where its names part. */
  predicate Separates(first: string, i: nat)
    requires |first| == 44
  {
    && 5 <= i < 43 && first[i] == '<' && first[i + 1] == '<'
    && forall j :: 5 <= j < i ==> first[j] != '<' || first[j + 1] != '<'
  }

  lemma {:induction false} SeparatorIsFirst(s: string)
    ensures FindSeparator(s) <= |s|
    ensures forall j :: 0 <= j < FindSeparator(s) && j + 1 < |s| ==> s[j] != '<' || s[j + 1] != '<'
  {
    if |s| >= 2 && !(s[0] == s[1] == '<') {
      SeparatorIsFirst(s[1..]);
      assert forall j :: 0 < j && j + 1 < |s| ==> s[j] == s[1..][j - 1] && s[j + 1] == s[1..][j];
    }
  }

  /** A good second line is read exactly when the first one has a name on either side of its separator; it
      then passes when no field is empty, and is left open otherwise. */
  lemma NamesDecide(first: string, second: string, thisYear: nat, i: nat)
    requires |first| == |second| == 44 && ChecksPass(second)
    ensures (forall j: nat :: !Separates(first, j)) ==> ReadPair(first, second, thisYear) == (map[], Unavailable)
    ensures Separates(first, i) ==>
              var r := ReadPair(first, second, thisYear);
              if (exists j :: 5 <= j < i && first[j] != '<') && (exists j :: i + 2 <= j < 44 && first[j] != '<') then
                && r.0 == PassportFields(first, second, i - 5, thisYear)
                && r.1 == if "" in r.0.Values then Unavailable else Passed
              else r == (map[], Unavailable)
  {
    hide ChecksPass, PassportFields;
    var names := first[5..];
    var n := FindSeparator(names);
    SeparatorIsFirst(names);
    if n < |names| {
      assert first[n + 5] == '<' && first[n + 6] == '<';
      assert forall j :: 5 <= j < 44 ==> first[j] == names[j - 5];
      assert Separates(first, n + 5);
    }
    if Separates(first, i) {
      assert names[i - 5] == '<' && names[i - 4] == '<';
      assert n < |names| && n + 5 == i;
      assert OnlyFiller(names[..n]) <==> forall j :: 5 <= j < i ==> first[j] == '<' by {
        assert forall j :: 5 <= j < i ==> first[j] == names[..n][j - 5];
      }
      assert OnlyFiller(names[n + 2..]) <==> forall j :: i + 2 <= j < 44 ==> first[j] == '<' by {
        assert forall j :: i + 2 <= j < 44 ==> first[j] == names[n + 2..][j - i - 2];
      }
      var fields := PassportFields(first, second, n, thisYear);
      assert "" in fields.Values <==> exists k :: k in fields && fields[k] == "";
    }
  }

  /** Nationality is read as that of the Philippines or not at all, the issuing country always is, and the
      number is what stands before the fillers. */
  lemma FieldsOfPair(first: string, second: string, split: nat, thisYear: nat)
    requires |first| == |second| == 44 && split <= 37
    ensures var fields := PassportFields(first, second, split, thisYear);
            && fields.Keys == {FullName, BirthDate, ExpirationDate, DocumentNumber, IssuingCountry, Nationality}
            && fields[IssuingCountry] == "PH"
            && fields[Nationality] == (if second[10] == 'P' && second[11] == 'H' && second[12] == 'L' then "PH" else "")
            && fields[DocumentNumber] <= second[..9]
            && (forall i :: |fields[DocumentNumber]| <= i < 9 ==> second[i] == '<')
            && (fields[DocumentNumber] != "" ==> second[|fields[DocumentNumber]| - 1] != '<')
  {
    hide FullNameOf, MrzDate;
    StripsRight(second[..9]);
    assert second[10..13] == [second[10], second[11], second[12]];
  }

  lemma {:induction false} StripsRight(s: string)
    ensures StripRight(s) <= s && forall i :: |StripRight(s)| <= i < |s| ==> s[i] == '<'
    ensures StripRight(s) != "" ==> s[|StripRight(s)| - 1] != '<'
  {
    if s != "" && s[|s| - 1] == '<' {
      StripsRight(s[..|s| - 1]);
    }
  }

  /** Only the six digits of a date are read as a date. */
  lemma OnlyDatesAreRead(value: string, birth: bool, thisYear: nat) returns (d: Date)
    requires MrzDate(value, birth, thisYear) != ""
    ensures d.Valid() && PrintDate(d) == value && MrzDate(value, birth, thisYear) == IsoFormat(d)
  {
    var year := 2000 + Number(value[..2]);
    d := Date(if birth && year > thisYear then year - 100 else year, Number(value[2..4]), Number(value[4..]));
    DigitsPrinted(value[..2]);
    DigitsPrinted(value[2..4]);
    DigitsPrinted(value[4..]);
    hide Number, DaysIn, IsoFormat, TwoDigits;
    assert value == value[..2] + value[2..4] + value[4..];
  }

  lemma DigitsPrinted(s: string)
    requires |s| == 2 && All(s, IsDigit)
    ensures Number(s) < 100 && TwoDigits(Number(s)) == s
  {
  }

  /** The months, and the years in which February has a 29th. */
  lemma Calendar(year: nat, month: nat)
    requires 1 <= month <= 12
    ensures DaysIn(year, month)
         == [31, if IsLeap(year) then 29 else 28, 31, 30, 31, 30, 31, 31, 30, 31, 30, 31][month - 1]
    ensures IsLeap(2024) && IsLeap(2000) && !IsLeap(2023) && !IsLeap(2100)
  {
  }

  // ---------------------------------------------------------------- the filler the standard allows

  lemma {:induction false} NothingWeighs(n: nat)
    ensures WeightedSum(Filler(n)) == 0
  {
    if n > 0 {
      assert Filler(n)[..n - 1] == Filler(n - 1);
      NothingWeighs(n - 1);
    }
  }

  /** The second line with a filler instead of the digit 0 after the empty optional field. */
  function WithFiller(h: Holder): string
    requires h.Valid()
  {
    h.SecondLine()[42 := '<']
  }

  /** Section 4.2.2.2 of ICAO Doc 9303 Part 4 lets the issuer of a passport without optional data print a
      filler as its check digit. Such a line differs from the printed one in nothing but that zero, its
      other four digits are good, and the reader fails it. */
  lemma FillerForZeroFails(h: Holder, text: string, thisYear: nat)
    requires h.Valid() && h.optional == "" && Shows(text, h.FirstLine(), WithFiller(h))
    ensures h.SecondLine()[42] == '0'
    ensures var b := WithFiller(h);
            && Digit(b[..9]) == b[9] && Digit(b[13..19]) == b[19] && Digit(b[21..27]) == b[27]
                && Digit(Composite(b)) == b[43]
    ensures Passport(text, thisYear).1 == Failed
  {
    hide Passport, Shows, ChecksPass, IsFirstLine, IsSecondLine, Holder.FirstLine, Holder.SecondLine, Digit, Composite;
    PrintedFirstLine(h);
    PrintedSecondLine(h);
    ZeroIsPrinted(h);
    AlterationDetected(text, h.FirstLine(), h.SecondLine(), 42, '<', thisYear);
    FillerWeighsNothing(h.SecondLine());
  }

  lemma ZeroIsPrinted(h: Holder)
    requires h.Valid() && h.optional == ""
    ensures h.SecondLine()[42] == '0'
  {
    Parts(h);
    hide Holder.SecondLine;
    assert Pad(h.optional, 14) == Filler(14);
    NothingWeighs(14);
  }

  lemma FillerWeighsNothing(second: string)
    requires |second| == 44 && second[42] == '0' && ChecksPass(second)
    ensures var b := second[42 := '<'];
            && Digit(b[..9]) == b[9] && Digit(b[13..19]) == b[19] && Digit(b[21..27]) == b[27]
                && Digit(Composite(b)) == b[43]
  {
    var b := second[42 := '<'];
    CompositeOfChange(second, 42, '<');
    DigitMissesChange(Composite(second), CompositeIndex(42), '<');
    assert b[..9] == second[..9] && b[13..19] == second[13..19] && b[21..27] == second[21..27];
    hide Digit, Composite;
  }

  /** There is such a passport. */
  lemma PassportWithFiller() returns (h: Holder)
    ensures h.Valid() && h.optional == ""
    ensures Shows(JoinLines([h.FirstLine(), WithFiller(h)]), h.FirstLine(), WithFiller(h))
  {
    h := Holder(["REYES"], ["ANA"], "P1234567A", "PHL", Date(1990, 1, 31), 'F', Date(2030, 1, 31), "", '<');
    assert Join(["REYES"], "<") == "REYES" && Join(["ANA"], "<") == "ANA";
    PrintedFirstLine(h);
    PrintedSecondLine(h);
    AlteredIsSecondLine(h.SecondLine(), 42, '<');
    LinesShow(h.FirstLine(), WithFiller(h));
  }
}
