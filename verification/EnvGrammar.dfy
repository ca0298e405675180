/** The lines an environment file may have, and what `read_env` makes of each form. */
module EnvGrammar {
  import opened TextLines
  import opened EnvFile

  /** Nothing to strip. */
  predicate Trimmed(s: string) {
    s == "" || (!IsSpace(s[0]) && !IsSpace(s[|s| - 1]))
  }

  lemma {:induction false} SkipsBlanks(blanks: string, s: string)
    requires AllSpace(blanks)
    ensures SkipBlanks(blanks + s) == SkipBlanks(s)
  {
    if blanks == "" {
      assert blanks + s == s;
    } else {
      assert (blanks + s)[1..] == blanks[1..] + s;
      SkipsBlanks(blanks[1..], s);
    }
  }

  lemma {:induction false} TrimsBlanks(s: string, blanks: string)
    requires AllSpace(blanks)
    ensures TrimBlanks(s + blanks) == TrimBlanks(s)
  {
    if blanks == "" {
      assert s + blanks == s;
    } else {
      var n := |blanks| - 1;
      assert (s + blanks)[..|s + blanks| - 1] == s + blanks[..n];
      TrimsBlanks(s, blanks[..n]);
    }
  }

  lemma StripsBlanks(before: string, s: string, after: string)
    requires AllSpace(before) && AllSpace(after) && Trimmed(s)
    ensures Strip(before + s + after) == s
  {
    assert before + s + after == before + (s + after);
    SkipsBlanks(before, s + after);
    if s == "" {
      assert s + after == after + "";
      SkipsBlanks(after, "");
    } else {
      assert SkipBlanks(s + after) == s + after;
      TrimsBlanks(s, after);
    }
  }

  /** The value of an assignment, once blanks are stripped. */
  lemma AssignmentRead(key: string, before: string, core: string, after: string)
    requires IsKey(key) && AllSpace(before) && AllSpace(after) && Trimmed(core)
    ensures ParseLine(key + "=" + (before + core + after))
         == if '$' in core && !Quoted(core, '\'') then Bad(UnquotedDollar) else Pair(key, Unquote(core))
  {
    KeyOfAssign(key, before + core + after);
    StripsBlanks(before, core, after);
    hide IsKey, EqualsAt, IsComment, Strip;
  }

  lemma Enclosed(value: string, quote: char)
    requires quote == '\'' || quote == '"'
    ensures var core := [quote] + value + [quote];
            Trimmed(core) && Quoted(core, quote) && Unquote(core) == value && (Quoted(core, '\'') <==> quote == '\'')
    ensures forall c :: c != quote ==> (c in [quote] + value + [quote] <==> c in value)
  {
    var core := [quote] + value + [quote];
    assert core[1..|core| - 1] == value;
  }

  /** A single-quoted value is read as it stands between the quotes, dollars and inner quotes included. */
  lemma SingleQuotedRead(key: string, before: string, value: string, after: string)
    requires IsKey(key) && AllSpace(before) && AllSpace(after)
    ensures ParseLine(key + "=" + (before + ("'" + value + "'") + after)) == Pair(key, value)
  {
    hide IsKey, ParseLine, Quoted, Unquote, Trimmed;
    Enclosed(value, '\'');
    AssignmentRead(key, before, "'" + value + "'", after);
  }

  /** A double-quoted value likewise, but for a dollar, which is refused. */
  lemma DoubleQuotedRead(key: string, before: string, value: string, after: string)
    requires IsKey(key) && AllSpace(before) && AllSpace(after)
    ensures ParseLine(key + "=" + (before + ("\"" + value + "\"") + after))
         == if '$' in value then Bad(UnquotedDollar) else Pair(key, value)
  {
    hide IsKey, ParseLine, Quoted, Unquote, Trimmed;
    Enclosed(value, '"');
    AssignmentRead(key, before, "\"" + value + "\"", after);
  }

  /** Any other value is read without the blanks around it; a dollar is refused. */
  lemma PlainRead(key: string, before: string, value: string, after: string)
    requires IsKey(key) && AllSpace(before) && AllSpace(after) && Trimmed(value)
    requires |value| < 2 || value[0] != value[|value| - 1] || value[0] !in {'\'', '"'}
    ensures ParseLine(key + "=" + (before + value + after))
         == if '$' in value then Bad(UnquotedDollar) else Pair(key, value)
  {
    hide IsKey, ParseLine, Trimmed;
    AssignmentRead(key, before, value, after);
  }

  predicate Upper(c: char) {
    'A' <= c <= 'Z'
  }

  /** A line assigns to `key` if it starts with the key, upper-case letters, digits and underscores behind an
      upper-case letter, and an equals sign. */
  predicate AssignsTo(line: string, key: string) {
    && key + "=" <= line && key != "" && Upper(key[0])
    && forall c :: c in key ==> Upper(c) || '0' <= c <= '9' || c == '_'
  }

  lemma KeysAre(key: string)
    ensures IsKey(key)
        <==> (key != "" && Upper(key[0]) && forall c :: c in key ==> Upper(c) || '0' <= c <= '9' || c == '_')
  {
    assert forall i :: 0 <= i < |key| ==> key[i] in key;
  }

  lemma AssignsToKey(line: string, key: string)
    ensures AssignsTo(line, key) <==> IsKey(key) && KeyOf(line) == key && EqualsAt(line) < |line|
  {
    KeysAre(key);
    hide IsKey, EqualsAt, IsComment;
    if key + "=" <= line && IsKey(key) {
      assert line == key + "=" + line[|key| + 1..];
      KeyOfAssign(key, line[|key| + 1..]);
    } else if KeyOf(line) == key && EqualsAt(line) < |line| {
      assert line[..|key| + 1] == key + "=";
    }
  }

  /** Only blanks, or blanks and a number sign. */
  predicate Ignored(line: string) {
    AllSpace(line) || exists i :: 0 <= i < |line| && line[i] == '#' && AllSpace(line[..i])
  }

  lemma {:induction false} IgnoredIsComment(line: string)
    ensures IsComment(line) <==> Ignored(line)
  {
    if line != "" {
      if IsSpace(line[0]) {
        IgnoredIsComment(line[1..]);
        IgnoredShifts(line);
      } else {
        assert SkipBlanks(line) == line;
        assert line[0] == '#' ==> AllSpace(line[..0]);
        forall i | 0 < i < |line| ensures !AllSpace(line[..i]) {
          assert line[..i][0] == line[0];
        }
      }
    }
  }

  lemma IgnoredShifts(line: string)
    requires line != "" && IsSpace(line[0])
    ensures Ignored(line) <==> Ignored(line[1..])
  {
    assert AllSpace(line) <==> AllSpace(line[1..]) by {
      assert forall i :: 0 < i < |line| ==> line[i] == line[1..][i - 1];
    }
    forall i | 0 <= i < |line[1..]| ensures AllSpace(line[..i + 1]) <==> AllSpace(line[1..][..i]) {
      assert line[..i + 1] == [line[0]] + line[1..][..i];
    }
    if Ignored(line) && !AllSpace(line) {
      var i :| 0 <= i < |line| && line[i] == '#' && AllSpace(line[..i]);
      assert i > 0 && line[1..][i - 1] == '#' && AllSpace(line[1..][..i - 1]);
    }
    if Ignored(line[1..]) && !AllSpace(line[1..]) {
      var i :| 0 <= i < |line[1..]| && line[1..][i] == '#' && AllSpace(line[1..][..i]);
      assert line[i + 1] == '#' && AllSpace(line[..i + 1]);
    }
  }

  /** What one more line does to what was read before: it is skipped, it is refused, or it adds its key. */
  lemma LineExactly(m: map<string, string>, line: string)
    ensures Ignored(line) ==> ReadLine(m, line) == Fine(m)
    ensures !Ignored(line) ==>
              (ReadLine(m, line) == Fails(InvalidSyntax) <==> forall key: string :: !AssignsTo(line, key))
    ensures !Ignored(line) ==>
              (ReadLine(m, line) == Fails(DuplicateKey) <==> exists key: string :: AssignsTo(line, key) && key in m)
    ensures forall key: string :: !Ignored(line) && AssignsTo(line, key) && key !in m ==>
              ReadLine(m, line) == Fails(UnquotedDollar)
              || (ReadLine(m, line).Fine? && ParseLine(line).Pair?
                  && ReadLine(m, line).value == m[key := ParseLine(line).value])
  {
    IgnoredIsComment(line);
    AssignsToKey(line, KeyOf(line));
    forall key: string ensures AssignsTo(line, key) ==> key == KeyOf(line) {
      AssignsToKey(line, key);
    }
    hide IsComment, AssignsTo, Ignored, IsKey, Strip;
  }

  /** The writer refuses a file in which two lines start with the same updated key, and otherwise a value
      with a single quote or a line feed. */
  lemma UpdateRefusesExactly(text: string, u: Updates)
    requires u.Valid()
    ensures var lines := SplitLines(text);
            var twice := exists i, j ::
              0 <= i < j < |lines| && KeyOf(lines[i]) == KeyOf(lines[j]) && KeyOf(lines[i]) in u.values;
            && (Update(text, u) == Fails(DuplicateKey) <==> twice)
            && (Update(text, u) == Fails(UnsupportedValue)
                <==> !twice && exists k, c :: k in u.values && c in u.values[k] && (c == '\'' || c == '\n'))
            && (Update(text, u).Fails? ==> Update(text, u).failure in {DuplicateKey, UnsupportedValue})
  {
    hide KeyOf, NewLines, SplitLines;
    forall k | k in u.values
      ensures Supported(u.values[k]) <==> !exists c :: c in u.values[k] && (c == '\'' || c == '\n')
    {
    }
  }
}
