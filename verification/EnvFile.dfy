/** The environment file: the reader of validate-kyc-deployment.py and the writer of enable-staging-kyc.py. */
module EnvFile {
  import opened TextLines

  datatype Failure = InvalidSyntax | DuplicateKey | UnquotedDollar | UnsupportedValue

  datatype Outcome<+T> = Fine(value: T) | Fails(failure: Failure)

  // ---------------------------------------------------------------- lines

  /** The position of the first "=", or the length. */
  function EqualsAt(line: string): (n: nat)
    ensures n <= |line|
    ensures forall i :: 0 <= i < n ==> line[i] != '='
    ensures n < |line| ==> line[n] == '='
  {
    if line == "" || line[0] == '=' then 0 else 1 + EqualsAt(line[1..])
  }

  /** `line.partition("=")[0]` */
  function KeyOf(line: string): string {
    line[..EqualsAt(line)]
  }

  function SkipBlanks(s: string): string {
    if s != "" && IsSpace(s[0]) then SkipBlanks(s[1..]) else s
  }

  function TrimBlanks(s: string): string {
    if s != "" && IsSpace(s[|s| - 1]) then TrimBlanks(s[..|s| - 1]) else s
  }

  /** str.strip() */
  function Strip(s: string): string {
    TrimBlanks(SkipBlanks(s))
  }

  predicate IsKey(key: string) {
    key != "" && 'A' <= key[0] <= 'Z' && forall i :: 0 <= i < |key| ==>
        'A' <= key[i] <= 'Z' || '0' <= key[i] <= '9' || key[i] == '_'
  }

  predicate Quoted(value: string, quote: char) {
    |value| >= 2 && value[0] == value[|value| - 1] == quote
  }

  function Unquote(value: string): string {
    if Quoted(value, '\'') || Quoted(value, '"') then value[1..|value| - 1] else value
  }

  datatype Entry = Skipped | Pair(key: string, value: string) | Bad(failure: Failure)

  predicate IsComment(line: string) {
    var s := SkipBlanks(line);
    s == "" || s[0] == '#'
  }

  /** One line of the loop of `read_env`, without the duplicate check. */
  function ParseLine(line: string): Entry {
    if IsComment(line) then Skipped
    else
      var n := EqualsAt(line);
      if n == |line| || !IsKey(line[..n]) then Bad(InvalidSyntax)
      else
        var value := Strip(line[n + 1..]);
        if '$' in value && !Quoted(value, '\'') then Bad(UnquotedDollar) else Pair(line[..n], Unquote(value))
  }

  function ReadLines(lines: seq<string>): Outcome<map<string, string>> {
    if lines == [] then Fine(map[])
    else
      match ReadLines(lines[..|lines| - 1])
      case Fails(failure) => Fails(failure)
      case Fine(result) => ReadLine(result, lines[|lines| - 1])
  }

  function ReadLine(result: map<string, string>, line: string): Outcome<map<string, string>> {
    match ParseLine(line)
    case Skipped => Fine(result)
    case Bad(UnquotedDollar) => Fails(if KeyOf(line) in result then DuplicateKey else UnquotedDollar)
    case Bad(failure) => Fails(failure)
    case Pair(key, value) => if key in result then Fails(DuplicateKey) else Fine(result[key := value])
  }

  /** `read_env` */
  function Read(text: string): Outcome<map<string, string>> {
    ReadLines(SplitLines(text))
  }

  // ---------------------------------------------------------------- the writer

  /** A Python dictionary of strings, with its insertion order. */
  datatype Updates = Updates(order: seq<string>, values: map<string, string>)
  {
    ghost predicate Valid() {
      && (forall k :: k in order <==> k in values)
      && (forall i, j :: 0 <= i < j < |order| ==> order[i] != order[j])
    }
  }

  function Assign(key: string, value: string): string {
    key + "='" + value + "'"
  }

  function Rewrite(line: string, u: Updates): string {
    if KeyOf(line) in u.values then Assign(KeyOf(line), u.values[KeyOf(line)]) else line
  }

  function RewriteAll(lines: seq<string>, u: Updates): (r: seq<string>)
    ensures |r| == |lines| && forall i :: 0 <= i < |lines| ==> r[i] == Rewrite(lines[i], u)
  {
    seq(|lines|, i requires 0 <= i < |lines| => Rewrite(lines[i], u))
  }

  /** The updated keys that occur. */
  function Seen(lines: seq<string>, u: Updates): set<string> {
    set line | line in lines && KeyOf(line) in u.values :: KeyOf(line)
  }

  function Added(order: seq<string>, values: map<string, string>, seen: set<string>): seq<string>
    requires forall k :: k in order ==> k in values
  {
    if order == [] then []
    else
      Added(order[..|order| - 1], values, seen)
      + (if order[|order| - 1] in seen then [] else [Assign(order[|order| - 1], values[order[|order| - 1]])])
  }

  function NewLines(lines: seq<string>, u: Updates): seq<string>
    requires u.Valid()
  {
    RewriteAll(lines, u) + Added(u.order, u.values, Seen(lines, u))
  }

  /** "\n".join(lines) + "\n" */
  function Written(lines: seq<string>): string {
    if lines == [] then "\n" else JoinLines(lines)
  }

  predicate Supported(value: string) {
    '\'' !in value && '\n' !in value
  }

  ghost predicate Repeats(lines: seq<string>, u: Updates) {
    exists i, j :: 0 <= i < j < |lines| && KeyOf(lines[i]) == KeyOf(lines[j]) && KeyOf(lines[i]) in u.values
  }

  /** `update_env` */
  ghost function Update(text: string, u: Updates): Outcome<string>
    requires u.Valid()
  {
    var lines := SplitLines(text);
    if Repeats(lines, u) then Fails(DuplicateKey)
    else if exists k :: k in u.values && !Supported(u.values[k]) then Fails(UnsupportedValue)
    else Fine(Written(NewLines(lines, u)))
  }

  // ---------------------------------------------------------------- reading back one assignment

  lemma {:induction false} EqualsOf(key: string, rest: string)
    requires forall i :: 0 <= i < |key| ==> key[i] != '='
    ensures EqualsAt(key + "=" + rest) == |key|
  {
    var line := key + "=" + rest;
    if key != "" {
      assert line[1..] == key[1..] + "=" + rest;
      EqualsOf(key[1..], rest);
    }
  }

  lemma KeyOfAssign(key: string, rest: string)
    requires IsKey(key)
    ensures EqualsAt(key + "=" + rest) == |key| && KeyOf(key + "=" + rest) == key
            && (key + "=" + rest)[|key| + 1..] == rest
    ensures !IsComment(key + "=" + rest)
  {
    EqualsOf(key, rest);
    assert (key + "=" + rest)[0] == key[0];
  }

  lemma ReadAssign(key: string, value: string)
    requires IsKey(key) && '\'' !in value
    ensures KeyOf(Assign(key, value)) == key && ParseLine(Assign(key, value)) == Pair(key, value)
  {
    var quoted := "'" + value + "'";
    assert Assign(key, value) == key + "=" + quoted;
    KeyOfAssign(key, quoted);
    assert Strip(quoted) == quoted && Quoted(quoted, '\'');
    assert quoted[1..|quoted| - 1] == value;
  }

  // ---------------------------------------------------------------- reading back the file

  /** `u` with the keys of an environment file. */
  ghost predicate Proper(u: Updates) {
    && u.Valid()
    && (forall k :: k in u.values ==> IsKey(k) && Supported(u.values[k]))
  }

  ghost function Overridden(m: map<string, string>, u: Updates): map<string, string> {
    map k | k in m :: if k in u.values then u.values[k] else m[k]
  }

  lemma PairKey(line: string)
    ensures ParseLine(line).Pair? ==> KeyOf(line) == ParseLine(line).key
    ensures ParseLine(line).Skipped? ==> !IsKey(KeyOf(line))
  {
    if IsComment(line) {
      SkippedKey(line);
    }
  }

  lemma SkippedKey(line: string)
    requires IsComment(line)
    ensures !IsKey(KeyOf(line))
  {
    if line != "" && !IsSpace(line[0]) {
      assert line[0] == '#';
    }
  }

  lemma ReadAssignLine(m: map<string, string>, key: string, value: string)
    requires IsKey(key) && '\'' !in value && key !in m
    ensures KeyOf(Assign(key, value)) == key && ReadLine(m, Assign(key, value)) == Fine(m[key := value])
  {
    hide ParseLine, KeyOf, Assign;
    ReadAssign(key, value);
  }

  lemma OverriddenEntry(m: map<string, string>, key: string, value: string, u: Updates)
    ensures Overridden(m[key := value], u) == Overridden(m, u)[key := if key in u.values then u.values[key] else value]
  {
  }

  lemma ReadRewrittenLine(m: map<string, string>, line: string, u: Updates)
    requires Proper(u) && ReadLine(m, line).Fine?
    ensures ReadLine(Overridden(m, u), Rewrite(line, u)) == Fine(Overridden(ReadLine(m, line).value, u))
    ensures ReadLine(m, line).value.Keys * u.values.Keys
         == m.Keys * u.values.Keys + (if KeyOf(line) in u.values then {KeyOf(line)} else {})
    ensures KeyOf(line) in u.values ==> KeyOf(line) !in m
  {
    hide ParseLine, KeyOf, Assign, IsKey, Overridden;
    PairKey(line);
    var key := KeyOf(line);
    assert Overridden(m, u).Keys == m.Keys by {
      OverriddenKeys(m, u);
    }
    if ParseLine(line).Pair? {
      OverriddenEntry(m, key, ParseLine(line).value, u);
    }
    if key in u.values {
      ReadAssignLine(Overridden(m, u), key, u.values[key]);
    }
  }

  lemma OverriddenKeys(m: map<string, string>, u: Updates)
    ensures Overridden(m, u).Keys == m.Keys
  {
  }

  /** Rewriting the assigned lines overrides what is read, and the keys found are those that were assigned. */
  lemma {:induction false} ReadRewritten(lines: seq<string>, u: Updates)
    requires Proper(u) && ReadLines(lines).Fine?
    ensures ReadLines(RewriteAll(lines, u)) == Fine(Overridden(ReadLines(lines).value, u))
    ensures Seen(lines, u) == ReadLines(lines).value.Keys * u.values.Keys
    ensures !Repeats(lines, u)
  {
    hide ReadLine, KeyOf, Seen, Repeats, Assign, Overridden, Proper, Rewrite;
    if lines == [] {
      Nothing(u);
    } else {
      var init, last := lines[..|lines| - 1], lines[|lines| - 1];
      ReadRewritten(init, u);
      assert RewriteAll(lines, u)[..|lines| - 1] == RewriteAll(init, u);
      assert lines == init + [last];
      ReadRewrittenLine(ReadLines(init).value, last, u);
      SeenSnoc(init, last, u);
      RepeatsSnoc(init, last, u);
    }
  }

  lemma Nothing(u: Updates)
    ensures Overridden(map[], u) == map[] && Seen([], u) == {} && !Repeats([], u)
  {
  }

  lemma SeenSnoc(lines: seq<string>, last: string, u: Updates)
    ensures Seen(lines + [last], u) == Seen(lines, u) + (if KeyOf(last) in u.values then {KeyOf(last)} else {})
  {
  }

  lemma RepeatsSnoc(lines: seq<string>, last: string, u: Updates)
    requires !Repeats(lines, u) && KeyOf(last) !in Seen(lines, u)
    ensures !Repeats(lines + [last], u)
  {
  }

  /** The updates whose keys are not in `seen`. */
  ghost function Missing(order: seq<string>, values: map<string, string>, seen: set<string>): map<string, string>
    requires forall k :: k in order ==> k in values
  {
    map k | k in order && k !in seen :: values[k]
  }

  lemma ReadSnoc(lines: seq<string>, line: string)
    requires ReadLines(lines).Fine?
    ensures ReadLines(lines + [line]) == ReadLine(ReadLines(lines).value, line)
  {
    assert (lines + [line])[..|lines|] == lines;
  }

  lemma {:induction false} ReadAdded(lines: seq<string>, order: seq<string>, u: Updates, seen: set<string>)
    requires Proper(u) && order <= u.order && ReadLines(lines).Fine?
    requires ReadLines(lines).value.Keys * u.values.Keys == seen
    ensures ReadLines(lines + Added(order, u.values, seen))
            == Fine(ReadLines(lines).value + Missing(order, u.values, seen))
  {
    hide ReadLines, ReadLine, Assign, Missing;
    if order == [] {
      assert lines + Added(order, u.values, seen) == lines;
      NothingMissing(u.values, seen);
      assert ReadLines(lines).value + map[] == ReadLines(lines).value;
    } else {
      var init, last := order[..|order| - 1], order[|order| - 1];
      assert init <= u.order;
      ReadAdded(lines, init, u, seen);
      var before := lines + Added(init, u.values, seen);
      MissingSnoc(order, u.values, seen);
      if last !in seen {
        var line := Assign(last, u.values[last]);
        assert lines + Added(order, u.values, seen) == before + [line];
        ReadSnoc(before, line);
        assert last !in ReadLines(before).value;
        ReadAssignLine(ReadLines(before).value, last, u.values[last]);
        var m, missing := ReadLines(lines).value, Missing(init, u.values, seen);
        assert (m + missing)[last := u.values[last]] == m + missing[last := u.values[last]];
      } else {
        assert lines + Added(order, u.values, seen) == before;
      }
    }
  }

  lemma NothingMissing(values: map<string, string>, seen: set<string>)
    ensures Missing([], values, seen) == map[]
  {
  }

  lemma MissingSnoc(order: seq<string>, values: map<string, string>, seen: set<string>)
    requires order != [] && (forall k :: k in order ==> k in values)
    requires order[|order| - 1] !in order[..|order| - 1]
    ensures var init, last := order[..|order| - 1], order[|order| - 1];
            && last !in Missing(init, values, seen)
            && Missing(order, values, seen)
               == if last in seen then Missing(init, values, seen)
                   else Missing(init, values, seen)[last := values[last]]
  {
    var init, last := order[..|order| - 1], order[|order| - 1];
    assert forall k :: k in order <==> k in init || k == last;
  }

  /** Reading the new lines yields the old map overridden by the updates. */
  lemma ReadNewLines(lines: seq<string>, u: Updates)
    requires Proper(u) && ReadLines(lines).Fine?
    ensures ReadLines(NewLines(lines, u)) == Fine(ReadLines(lines).value + u.values)
  {
    hide ReadLines, Seen, Added, Repeats, RewriteAll, Overridden, Missing;
    ReadRewritten(lines, u);
    var m, seen := ReadLines(lines).value, Seen(lines, u);
    OverriddenKeys(m, u);
    ReadAdded(RewriteAll(lines, u), u.order, u, seen);
    OldAndNew(m, u, seen);
  }

  lemma OldAndNew(m: map<string, string>, u: Updates, seen: set<string>)
    requires u.Valid() && seen == m.Keys * u.values.Keys
    ensures Overridden(m, u) + Missing(u.order, u.values, seen) == m + u.values
  {
  }

  // ---------------------------------------------------------------- the text

  /** No value holds a character `splitlines` splits at. */
  ghost predicate OneLine(u: Updates) {
    forall k :: k in u.values ==> NoBreak(u.values[k])
  }

  lemma AssignNoBreak(key: string, value: string)
    requires IsKey(key) && NoBreak(value)
    ensures NoBreak(Assign(key, value))
  {
  }

  lemma {:induction false} AddedNoBreak(order: seq<string>, u: Updates, seen: set<string>)
    requires Proper(u) && OneLine(u) && order <= u.order
    ensures forall l :: l in Added(order, u.values, seen) ==> NoBreak(l)
  {
    hide Assign;
    if order != [] {
      var init, last := order[..|order| - 1], order[|order| - 1];
      assert init <= u.order && last in u.order;
      AddedNoBreak(init, u, seen);
      AssignNoBreak(last, u.values[last]);
    }
  }

  lemma NewLinesNoBreak(lines: seq<string>, u: Updates)
    requires Proper(u) && OneLine(u) && forall i :: 0 <= i < |lines| ==> NoBreak(lines[i])
    ensures forall i :: 0 <= i < |NewLines(lines, u)| ==> NoBreak(NewLines(lines, u)[i])
  {
    hide Assign, KeyOf, Seen;
    AddedNoBreak(u.order, u, Seen(lines, u));
    forall i | 0 <= i < |lines| ensures NoBreak(RewriteAll(lines, u)[i]) {
      if KeyOf(lines[i]) in u.values {
        AssignNoBreak(KeyOf(lines[i]), u.values[KeyOf(lines[i])]);
      }
    }
    var added := Added(u.order, u.values, Seen(lines, u));
    forall i | 0 <= i < |NewLines(lines, u)| ensures NoBreak(NewLines(lines, u)[i]) {
      if i >= |lines| {
        assert NewLines(lines, u)[i] == added[i - |lines|];
        assert added[i - |lines|] in added;
      }
    }
  }

  /** The lines of the file written, but for the empty file, are the lines that were written. */
  lemma SplitWritten(lines: seq<string>)
    requires forall i :: 0 <= i < |lines| ==> NoBreak(lines[i])
    ensures lines != [] ==> SplitLines(Written(lines)) == lines
    ensures lines == [] ==> SplitLines(Written(lines)) == [""]
  {
    SplitJoin(lines);
    assert "\n"[1..] == "" && SplitLines("") == [];
  }

  lemma ReadBlank()
    ensures ReadLines([""]) == ReadLines([])
  {
    assert [""][..0] == [];
    assert ReadLines([""][..0]) == Fine(map[]);
  }

  /** Reading the file `update_env` writes yields the old map overridden by the updates. */
  lemma ReadAfterUpdate(text: string, u: Updates)
    requires Proper(u) && OneLine(u) && Read(text).Fine?
    ensures Update(text, u).Fine? && Read(Update(text, u).value) == Fine(Read(text).value + u.values)
  {
    hide ReadLines, NewLines, Repeats;
    var lines := SplitLines(text);
    ReadRewritten(lines, u);
    ReadNewLines(lines, u);
    NewLinesNoBreak(lines, u);
    SplitWritten(NewLines(lines, u));
    ReadBlank();
  }

  /** What stands between the line feeds of the file written is what was written. */
  lemma FeedsOfWritten(lines: seq<string>)
    requires forall i :: 0 <= i < |lines| ==> '\n' !in lines[i]
    ensures Feeds(Written(lines)) == (if lines == [] then [""] else lines) + [""]
  {
    JoinLinesIsJoinFeeds(lines);
    assert "\n" == JoinFeeds(["", ""]);
    FeedsOfJoin((if lines == [] then [""] else lines) + [""]);
  }

  lemma NewLinesNoFeed(lines: seq<string>, u: Updates)
    requires Proper(u) && forall i :: 0 <= i < |lines| ==> NoBreak(lines[i])
    ensures forall i :: 0 <= i < |NewLines(lines, u)| ==> '\n' !in NewLines(lines, u)[i]
  {
    hide KeyOf, Seen, Assign;
    var added := Added(u.order, u.values, Seen(lines, u));
    forall i | 0 <= i < |NewLines(lines, u)| ensures '\n' !in NewLines(lines, u)[i] {
      if i >= |lines| {
        assert added[i - |lines|] in added;
        var key := AddedMember(u.order, u, Seen(lines, u), added[i - |lines|]);
        AssignNoFeed(key, u.values[key]);
      } else if KeyOf(lines[i]) in u.values {
        AssignNoFeed(KeyOf(lines[i]), u.values[KeyOf(lines[i])]);
      } else {
        assert forall c :: c in lines[i] ==> !IsBreak(c);
      }
    }
  }

  lemma AssignNoFeed(key: string, value: string)
    requires IsKey(key) && Supported(value)
    ensures '\n' !in Assign(key, value)
  {
  }

  /** Between the line feeds of the file written stand the old lines in their old places, one with an
      updated key replaced by the assignment of that key, and then assignments of the updated keys
      that no old line has. */
  lemma UntouchedLines(text: string, u: Updates, i: nat)
    requires Proper(u) && Update(text, u).Fine?
    ensures var old', new' := SplitLines(text), Feeds(Update(text, u).value);
            && |old'| < |new'|
            && (i < |old'| ==> new'[i] == if KeyOf(old'[i]) in u.values
                  then Assign(KeyOf(old'[i]), u.values[KeyOf(old'[i])]) else old'[i])
            && (|old'| <= i < |new'| - 1 && u.values != map[] ==>
                  exists key :: key in u.values && key !in Seen(old', u) && new'[i] == Assign(key, u.values[key]))
  {
    hide Assign, KeyOf, Repeats, Seen, Feeds, Written;
    var lines := SplitLines(text);
    var new' := NewLines(lines, u);
    NewLinesNoFeed(lines, u);
    FeedsOfWritten(new');
    var added := Added(u.order, u.values, Seen(lines, u));
    if |lines| <= i < |new'| {
      assert added[i - |lines|] in added;
      var key := AddedMember(u.order, u, Seen(lines, u), added[i - |lines|]);
    } else if new' == [] && u.values != map[] {
      var key :| key in u.values;
      assert lines == [];
      assert Seen([], u) == {} by { Nothing(u); }
      AddedHas(u.order, u, {}, key);
    }
  }

  // ---------------------------------------------------------------- doing it twice

  lemma {:induction false} AddedMember(order: seq<string>, u: Updates, seen: set<string>,
                                       line: string) returns (key: string)
    requires Proper(u) && order <= u.order && line in Added(order, u.values, seen)
    ensures key in order && key !in seen && key in u.values && line == Assign(key, u.values[key]) && KeyOf(line) == key
  {
    hide Assign, KeyOf;
    var init, last := order[..|order| - 1], order[|order| - 1];
    assert init <= u.order && last in u.order;
    if line in Added(init, u.values, seen) {
      key := AddedMember(init, u, seen, line);
    } else {
      key := last;
      ReadAssign(last, u.values[last]);
    }
  }

  /** What is added follows in the order of the updates. */
  lemma {:induction false} AddedInOrder(order: seq<string>, u: Updates, seen: set<string>, i: nat, j: nat)
      returns (a: nat, b: nat)
    requires Proper(u) && order <= u.order && i < j < |Added(order, u.values, seen)|
    ensures a < b < |order| && order[a] in u.values && order[b] in u.values
    ensures Added(order, u.values, seen)[i] == Assign(order[a], u.values[order[a]])
    ensures Added(order, u.values, seen)[j] == Assign(order[b], u.values[order[b]])
  {
    hide Assign, KeyOf;
    var init, last := order[..|order| - 1], order[|order| - 1];
    assert init <= u.order && last in u.order;
    var before := Added(init, u.values, seen);
    if j < |before| {
      a, b := AddedInOrder(init, u, seen, i, j);
    } else {
      assert before[i] in before;
      var key := AddedMember(init, u, seen, before[i]);
      a :| 0 <= a < |init| && init[a] == key;
      b := |order| - 1;
    }
  }

  lemma {:induction false} AddedHas(order: seq<string>, u: Updates, seen: set<string>, key: string)
    requires Proper(u) && order <= u.order && key in order && key !in seen
    ensures key in u.values && Assign(key, u.values[key]) in Added(order, u.values, seen)
  {
    var init, last := order[..|order| - 1], order[|order| - 1];
    assert init <= u.order && last in u.order;
    if key != last {
      AddedHas(init, u, seen, key);
    }
  }

  lemma {:induction false} AddedDistinct(order: seq<string>, u: Updates, seen: set<string>, i: nat, j: nat)
    requires Proper(u) && order <= u.order && i < j < |Added(order, u.values, seen)|
    ensures KeyOf(Added(order, u.values, seen)[i]) != KeyOf(Added(order, u.values, seen)[j])
  {
    hide Assign, KeyOf;
    var init, last := order[..|order| - 1], order[|order| - 1];
    assert init <= u.order && last in u.order && last !in init;
    var before := Added(init, u.values, seen);
    if j < |before| {
      AddedDistinct(init, u, seen, i, j);
    } else {
      ReadAssign(last, u.values[last]);
      var key := AddedMember(init, u, seen, before[i]);
    }
  }

  lemma {:induction false} NothingToAdd(order: seq<string>, values: map<string, string>, seen: set<string>)
    requires forall k :: k in order ==> k in values && k in seen
    ensures Added(order, values, seen) == []
  {
    if order != [] {
      NothingToAdd(order[..|order| - 1], values, seen);
    }
  }

  lemma RewriteTwice(line: string, u: Updates)
    requires Proper(u)
    ensures Rewrite(Rewrite(line, u), u) == Rewrite(line, u) && KeyOf(Rewrite(line, u)) == KeyOf(line)
  {
    hide Assign, KeyOf;
    if KeyOf(line) in u.values {
      ReadAssign(KeyOf(line), u.values[KeyOf(line)]);
    }
  }

  lemma NewLinesStable(lines: seq<string>, u: Updates)
    requires Proper(u)
    ensures RewriteAll(NewLines(lines, u), u) == NewLines(lines, u)
  {
    hide Assign, KeyOf, Rewrite, Seen;
    var added, new' := Added(u.order, u.values, Seen(lines, u)), NewLines(lines, u);
    forall i | 0 <= i < |new'| ensures Rewrite(new'[i], u) == new'[i] {
      if i < |lines| {
        RewriteTwice(lines[i], u);
      } else {
        assert added[i - |lines|] in added;
        var key := AddedMember(u.order, u, Seen(lines, u), new'[i]);
        AssignIsRewritten(key, u);
      }
    }
  }

  lemma AssignIsRewritten(key: string, u: Updates)
    requires Proper(u) && key in u.values
    ensures Rewrite(Assign(key, u.values[key]), u) == Assign(key, u.values[key])
  {
    ReadAssign(key, u.values[key]);
  }

  lemma NewLinesSeen(lines: seq<string>, u: Updates, key: string)
    requires Proper(u) && key in u.values
    ensures key in Seen(NewLines(lines, u), u)
  {
    hide Assign, KeyOf, Rewrite, Added;
    var new' := NewLines(lines, u);
    if key in Seen(lines, u) {
      var line :| line in lines && KeyOf(line) == key;
      var i :| 0 <= i < |lines| && lines[i] == line;
      RewriteTwice(line, u);
      assert new'[i] == Rewrite(line, u);
      assert KeyOf(new'[i]) == key && new'[i] in new';
    } else {
      AddedHas(u.order, u, Seen(lines, u), key);
      ReadAssign(key, u.values[key]);
      assert Assign(key, u.values[key]) in new';
    }
  }

  lemma NewLinesDoNotRepeat(lines: seq<string>, u: Updates)
    requires Proper(u) && !Repeats(lines, u)
    ensures !Repeats(NewLines(lines, u), u)
  {
    hide Assign, KeyOf, Rewrite, Added;
    var seen, new' := Seen(lines, u), NewLines(lines, u);
    var added := Added(u.order, u.values, seen);
    forall i, j | 0 <= i < j < |new'| && KeyOf(new'[i]) in u.values ensures KeyOf(new'[i]) != KeyOf(new'[j]) {
      if j < |lines| {
        RewriteTwice(lines[i], u);
        RewriteTwice(lines[j], u);
      } else if i < |lines| {
        RewriteTwice(lines[i], u);
        assert lines[i] in lines && KeyOf(lines[i]) in seen;
        assert new'[j] == added[j - |lines|];
        var key := AddedMember(u.order, u, seen, new'[j]);
      } else {
        AddedDistinct(u.order, u, seen, i - |lines|, j - |lines|);
      }
    }
  }

  /** Updating an updated file changes nothing. */
  lemma UpdateIsIdempotent(text: string, u: Updates)
    requires Proper(u) && OneLine(u) && Update(text, u).Fine?
    ensures Update(Update(text, u).value, u) == Update(text, u)
  {
    hide Assign, KeyOf, Rewrite, Repeats, Seen, Added, OneLine, NewLines, JoinLines;
    var lines := SplitLines(text);
    var new' := NewLines(lines, u);
    NewLinesNoBreak(lines, u);
    SplitWritten(new');
    NewLinesStable(lines, u);
    NewLinesDoNotRepeat(lines, u);
    if new' == [] {
      EmptyUpdate(lines, u);
    } else {
      forall k | k in u.order ensures k in Seen(new', u) {
        NewLinesSeen(lines, u, k);
      }
      NothingToAdd(u.order, u.values, Seen(new', u));
      assert NewLines(new', u) == new' by {
        NewLinesAre(new', u);
      }
    }
  }

  lemma NewLinesAre(lines: seq<string>, u: Updates)
    requires u.Valid() && RewriteAll(lines, u) == lines && Added(u.order, u.values, Seen(lines, u)) == []
    ensures NewLines(lines, u) == lines
  {
  }

  /** An empty file with nothing to add becomes one blank line, and stays that. */
  lemma EmptyUpdate(lines: seq<string>, u: Updates)
    requires Proper(u) && NewLines(lines, u) == []
    ensures NewLines([""], u) == [""] && !Repeats([""], u) && Written([""]) == Written([])
  {
    if u.order != [] {
      AddedHas(u.order, u, Seen(lines, u), u.order[0]);
    }
    assert u.values == map[];
    assert JoinLines([""]) == "" + "\n" + JoinLines([""][1..]);
  }
}
