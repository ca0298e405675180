/** Which values survive being written to the environment file and read back. */
module EnvFileLimits {
  import opened TextLines
  import opened EnvFile

  // ---------------------------------------------------------------- lines of a joined text

  lemma {:induction false} LineEndAfter(prefix: string, s: string)
    requires NoBreak(prefix)
    ensures LineEnd(prefix + s) == |prefix| + LineEnd(s)
  {
    if prefix == "" {
      assert prefix + s == s;
    } else {
      assert (prefix + s)[1..] == prefix[1..] + s;
      LineEndAfter(prefix[1..], s);
    }
  }

  lemma {:induction false} LineEndBefore(s: string, rest: string)
    ensures LineEnd(s + "\n" + rest) == LineEnd(s)
  {
    if s == "" {
      assert (s + "\n" + rest)[0] == '\n';
    } else {
      assert (s + "\n" + rest)[1..] == s[1..] + "\n" + rest;
      LineEndBefore(s[1..], rest);
    }
  }

  lemma LineEndFed(s: string)
    ensures LineEnd(s + "\n") == LineEnd(s)
  {
    LineEndBefore(s, "");
    assert s + "\n" == s + "\n" + "";
  }

  /** Where the line after the one that ends at `n` begins. */
  function NextLine(text: string, n: nat): (k: nat)
    requires n < |text|
    ensures n < k <= |text|
  {
    if text[n] == '\r' && n + 1 < |text| && text[n + 1] == '\n' then n + 2 else n + 1
  }

  lemma FirstAndRest(text: string)
    requires LineEnd(text) < |text|
    ensures SplitLines(text) == [text[..LineEnd(text)]] + SplitLines(text[NextLine(text, LineEnd(text))..])
  {
  }

  lemma SameCut(s: string, rest: string, n: nat)
    requires n <= |s|
    ensures var text, head := s + "\n" + rest, s + "\n";
            && text[..n] == head[..n] && NextLine(text, n) == NextLine(head, n)
  {
    var text, head := s + "\n" + rest, s + "\n";
    assert forall i :: 0 <= i <= |s| ==> text[i] == head[i];
  }

  lemma CutAfter(s: string, rest: string, k: nat)
    requires k <= |s| + 1
    ensures var text, head := s + "\n" + rest, s + "\n";
            if k > |s| then text[k..] == rest && head[k..] == ""
            else text[k..] == s[k..] + "\n" + rest && head[k..] == s[k..] + "\n"
  {
  }

  /** A line feed separates: what follows it is split on its own, whatever stands before. */
  lemma {:induction false} SplitAfterFeed(s: string, rest: string)
    ensures SplitLines(s + "\n" + rest) == SplitLines(s + "\n") + SplitLines(rest)
    decreases |s|
  {
    var n := LineEnd(s);
    var text, head := s + "\n" + rest, s + "\n";
    assert SplitLines("") == [];
    hide SplitLines, LineEnd, NextLine;
    LineEndBefore(s, rest);
    LineEndFed(s);
    FirstAndRest(text);
    FirstAndRest(head);
    SameCut(s, rest, n);
    var k := NextLine(head, n);
    CutAfter(s, rest, k);
    if k <= |s| {
      SplitAfterFeed(s[k..], rest);
    }
    AppendAssociates([head[..n]], SplitLines(head[k..]), SplitLines(rest));
  }

  lemma AppendAssociates(a: seq<string>, b: seq<string>, c: seq<string>)
    ensures (a + b) + c == a + (b + c)
  {
  }

  /** The first line of every part is a line of the whole. */
  lemma {:induction false} FirstLineOfPart(parts: seq<string>, i: nat)
    requires i < |parts|
    ensures parts[i][..LineEnd(parts[i])] in SplitLines(JoinLines(parts))
  {
    hide SplitLines, LineEnd;
    var s, rest := parts[0], JoinLines(parts[1..]);
    SplitAfterFeed(s, rest);
    if i == 0 {
      FirstLine(s);
      assert SplitLines(s + "\n")[0] in SplitLines(s + "\n");
    } else {
      FirstLineOfPart(parts[1..], i - 1);
    }
  }

  lemma FirstLine(s: string)
    ensures SplitLines(s + "\n") != [] && SplitLines(s + "\n")[0] == s[..LineEnd(s)]
  {
    hide LineEnd;
    LineEndFed(s);
    assert (s + "\n")[..LineEnd(s)] == s[..LineEnd(s)];
  }

  // ---------------------------------------------------------------- what a line contributes

  lemma {:induction false} LineIsRead(lines: seq<string>, line: string)
    requires ReadLines(lines).Fine? && line in lines
    ensures !ParseLine(line).Bad?
    ensures ParseLine(line).Pair? ==> ParseLine(line).key in ReadLines(lines).value
    ensures ParseLine(line).Pair? ==> ReadLines(lines).value[ParseLine(line).key] == ParseLine(line).value
  {
    hide ParseLine;
    var init, last := lines[..|lines| - 1], lines[|lines| - 1];
    if line != last {
      LineIsRead(init, line);
    }
  }

  lemma {:induction false} TrimKeepsFirst(s: string)
    requires s != "" && !IsSpace(s[0])
    ensures TrimBlanks(s) != "" && TrimBlanks(s) <= s
  {
    if IsSpace(s[|s| - 1]) {
      TrimKeepsFirst(s[..|s| - 1]);
    }
  }

  /** An assignment whose closing quote is on another line: the opening quote becomes part of the value. */
  lemma ReadUnclosed(key: string, part: string)
    requires IsKey(key) && '\'' !in part
    ensures var entry := ParseLine(key + "='" + part);
            !entry.Skipped? && (entry.Pair? ==> entry.key == key && '\'' in entry.value)
  {
    var unclosed := "'" + part;
    assert key + "='" + part == key + "=" + unclosed;
    KeyOfAssign(key, unclosed);
    TrimKeepsFirst(unclosed);
    var s := Strip(unclosed);
    assert s[0] == '\'' && forall i :: 0 < i < |s| ==> s[i] == part[i - 1];
    hide IsComment, IsKey, TrimBlanks;
  }

  lemma LineOfPart(prefix: string, value: string, rest: string)
    requires NoBreak(prefix)
    ensures (prefix + (value + rest))[..|prefix| + LineEnd(value)] == prefix + value[..LineEnd(value)]
    ensures LineEnd(value) < |value| ==> LineEnd(prefix + (value + rest)) == |prefix| + LineEnd(value)
  {
    hide LineEnd;
    LineEndAfter(prefix, value + rest);
    if LineEnd(value) < |value| {
      LineEndPrefix(value, rest);
    }
    CutInside(prefix, value, rest, LineEnd(value));
  }

  lemma UnclosedLine(key: string, value: string)
    requires IsKey(key)
    ensures Assign(key, value)[..|key| + 2 + LineEnd(value)] == key + "='" + value[..LineEnd(value)]
    ensures LineEnd(value) < |value| ==> LineEnd(Assign(key, value)) == |key| + 2 + LineEnd(value)
  {
    hide LineEnd, Assign, IsKey, NoBreak;
    AssignParts(key, value);
    LineOfPart(key + "='", value, "'");
  }

  lemma AssignParts(key: string, value: string)
    requires IsKey(key)
    ensures Assign(key, value) == (key + "='") + (value + "'") && |key + "='"| == |key| + 2 && NoBreak(key + "='")
  {
  }

  lemma CutInside(prefix: string, value: string, rest: string, n: nat)
    requires n <= |value|
    ensures (prefix + (value + rest))[..|prefix| + n] == prefix + value[..n]
  {
  }

  lemma {:induction false} LineEndPrefix(s: string, rest: string)
    requires LineEnd(s) < |s|
    ensures LineEnd(s + rest) == LineEnd(s)
  {
    if !IsBreak(s[0]) {
      assert (s + rest)[1..] == s[1..] + rest;
      LineEndPrefix(s[1..], rest);
    }
  }

  lemma {:induction false} NoBreakLine(s: string)
    ensures LineEnd(s) == |s| <==> NoBreak(s)
  {
    if s != "" && !IsBreak(s[0]) {
      NoBreakLine(s[1..]);
      assert forall i :: 1 <= i < |s| ==> s[i] == s[1..][i - 1];
    }
  }

  /** A value with a line break the writer lets through is not read back. */
  lemma BrokenValue(text: string, u: Updates, key: string)
    requires Proper(u) && Read(text).Fine? && Update(text, u).Fine?
    requires key in u.values && !NoBreak(u.values[key])
    requires Read(Update(text, u).value).Fine?
    ensures var r := Read(Update(text, u).value).value;
            key in r ==> r[key] != u.values[key]
  {
    hide ReadLines, Repeats, NewLines, JoinLines, SplitLines, Assign, LineEnd, ParseLine, IsKey;
    var value, parts := u.values[key], NewLines(SplitLines(text), u);
    var i := AssignIsWritten(SplitLines(text), u, key);
    NoBreakLine(value);
    UnclosedLine(key, value);
    FirstLineOfPart(parts, i);
    var line := key + "='" + value[..LineEnd(value)];
    LineIsRead(SplitLines(JoinLines(parts)), line);
    ReadUnclosed(key, value[..LineEnd(value)]);
  }

  lemma AssignIsWritten(lines: seq<string>, u: Updates, key: string) returns (i: nat)
    requires Proper(u) && key in u.values
    ensures i < |NewLines(lines, u)| && NewLines(lines, u)[i] == Assign(key, u.values[key])
  {
    hide Assign, KeyOf, Added;
    if key in Seen(lines, u) {
      var line :| line in lines && KeyOf(line) == key;
      i :| 0 <= i < |lines| && lines[i] == line;
    } else {
      AddedHas(u.order, u, Seen(lines, u), key);
      var added := Added(u.order, u.values, Seen(lines, u));
      var k :| 0 <= k < |added| && added[k] == Assign(key, u.values[key]);
      i := |lines| + k;
    }
  }

  /** The updated file reads as the old map overridden by the updates exactly when no value holds a
      character `splitlines` splits at: the writer itself refuses only the line feed. */
  lemma ReadAfterUpdateExactly(text: string, u: Updates)
    requires Proper(u) && Read(text).Fine?
    ensures Update(text, u).Fine?
    ensures Read(Update(text, u).value) == Fine(Read(text).value + u.values) <==> OneLine(u)
  {
    hide Read, Update, Proper;
    UpdateSucceeds(text, u);
    if OneLine(u) {
      ReadAfterUpdate(text, u);
    } else {
      var key :| key in u.values && !NoBreak(u.values[key]);
      if Read(Update(text, u).value).Fine? {
        BrokenValue(text, u, key);
      }
    }
  }

  lemma UpdateSucceeds(text: string, u: Updates)
    requires Proper(u) && Read(text).Fine?
    ensures u.Valid() && Update(text, u).Fine?
  {
    ReadRewritten(SplitLines(text), u);
    hide ReadLines, Repeats;
  }

  // ---------------------------------------------------------------- updating twice

  /** Text and a line feed after a line break make one more line. */
  lemma BrokenPart(part: string)
    requires part != "" && !IsBreak(part[|part| - 1]) && !NoBreak(part)
    ensures |SplitLines(part + "\n")| >= 2
  {
    hide SplitLines, LineEnd, NoBreak, IsBreak;
    var fed, n := part + "\n", LineEnd(part);
    NoBreakLine(part);
    LineEndFed(part);
    FirstAndRest(fed);
    assert n < |part| - 1;
    var rest := fed[NextLine(fed, n)..];
    assert rest != "";
    SplitIsEmpty(rest);
  }

  lemma SplitIsEmpty(text: string)
    ensures SplitLines(text) == [] <==> text == ""
  {
  }

  /** A text has as many lines as the parts it was joined from, or more if a part has a line break
      inside. */
  lemma {:induction false} SplitCount(parts: seq<string>)
    ensures |SplitLines(JoinLines(parts))| >= |parts|
    ensures (exists i :: 0 <= i < |parts| && parts[i] != "" && !IsBreak(parts[i][|parts[i]| - 1])
                && !NoBreak(parts[i])) ==> |SplitLines(JoinLines(parts))| > |parts|
  {
    hide SplitLines, NoBreak, IsBreak;
    if parts != [] {
      SplitAfterFeed(parts[0], JoinLines(parts[1..]));
      SplitIsEmpty(parts[0] + "\n");
      SplitCount(parts[1..]);
      if parts[0] != "" && !IsBreak(parts[0][|parts[0]| - 1]) && !NoBreak(parts[0]) {
        BrokenPart(parts[0]);
      }
    }
  }

  lemma BrokenAssign(key: string, value: string)
    requires IsKey(key) && !NoBreak(value)
    ensures var line := Assign(key, value); line != "" && !IsBreak(line[|line| - 1]) && !NoBreak(line)
  {
    var line, n := Assign(key, value), |key| + 2;
    assert forall i :: 0 <= i < |value| ==> line[n + i] == value[i];
  }

  /** A second update finds more lines than the first has written, if a value has a line break. */
  lemma SecondUpdateGrows(text: string, u: Updates)
    requires Proper(u) && !OneLine(u) && Update(text, u).Fine?
    ensures Update(Update(text, u).value, u) != Update(text, u)
  {
    hide Assign, KeyOf, Repeats, SplitLines, JoinLines, NewLines, Feeds, IsKey;
    var key :| key in u.values && !NoBreak(u.values[key]);
    var new' := NewLines(SplitLines(text), u);
    var i := AssignIsWritten(SplitLines(text), u, key);
    BrokenAssign(key, u.values[key]);
    SplitCount(new');
    var again := SplitLines(Written(new'));
    NewLinesNoFeed(SplitLines(text), u);
    FeedsOfWritten(new');
    NewLinesNoFeed(again, u);
    FeedsOfWritten(NewLines(again, u));
    NewLinesAreMore(again, u);
  }

  lemma NewLinesAreMore(lines: seq<string>, u: Updates)
    requires u.Valid()
    ensures |NewLines(lines, u)| >= |lines|
  {
  }

  /** Updating an updated file changes nothing, exactly when no value holds a character `splitlines`
      splits at. */
  lemma UpdateIsIdempotentExactly(text: string, u: Updates)
    requires Proper(u) && Update(text, u).Fine?
    ensures Update(Update(text, u).value, u) == Update(text, u) <==> OneLine(u)
  {
    hide Update, Proper, OneLine;
    if OneLine(u) {
      UpdateIsIdempotent(text, u);
    } else {
      SecondUpdateGrows(text, u);
    }
  }

  /** A value the writer accepts and the file loses: it holds the next-line character. */
  lemma LostValue(key: string) returns (u: Updates)
    requires IsKey(key)
    ensures Proper(u) && key in u.values && Read("").Fine? && Update("", u).Fine?
    ensures Read(Update("", u).value) != Fine(Read("").value + u.values)
  {
    var value := "\U{85}";
    u := Updates([key], map[key := value]);
    assert SplitLines("") == [] && ReadLines([]).Fine?;
    assert IsBreak(value[0]) && !NoBreak(u.values[key]);
    ReadAfterUpdateExactly("", u);
  }
}
