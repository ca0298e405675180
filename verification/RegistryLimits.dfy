/** The file `save_registry` writes, read back: its pattern knows lines that end at line feeds only, the
    reader splits at every line break. */
module RegistryLimits {
  import opened Wrappers
  import opened TextLines
  import opened EnvFile
  import opened EnvFileLimits
  import opened RegistryEdit
  import opened RegistryParts

  // ---------------------------------------------------------------- keys of readable parts

  lemma {:induction false} NoBadLine(lines: seq<string>, i: nat)
    requires ReadLines(lines).Fine? && i < |lines|
    ensures !ParseLine(lines[i]).Bad?
  {
    hide ParseLine;
    if i < |lines| - 1 {
      NoBadLine(lines[..|lines| - 1], i);
    }
  }

  lemma KeyWithEquals(line: string, key: string)
    requires KeyOf(line) == key && EqualsAt(line) < |line|
    ensures Assigns(line, key)
  {
    assert line[..|key| + 1] == key + "=";
  }

  /** The first line of a part that assigns the key. */
  lemma KeyLine(part: string, key: string)
    requires IsKey(key) && Assigns(part, key)
    ensures KeyOf(part) == key && KeyOf(part[..LineEnd(part)]) == key
    ensures SplitLines(part) != [] && SplitLines(part)[0] == part[..LineEnd(part)]
  {
    var prefix, rest := key + "=", part[|key| + 1..];
    assert part == prefix + rest && NoBreak(prefix);
    LineEndAfter(prefix, rest);
    var line := part[..LineEnd(part)];
    assert line == key + "=" + rest[..LineEnd(rest)];
    KeyOfAssign(key, rest);
    KeyOfAssign(key, rest[..LineEnd(rest)]);
    hide LineEnd, KeyOf, IsKey, NoBreak;
    if LineEnd(part) < |part| {
      FirstAndRest(part);
    } else {
      assert line == part;
      WholeLine(part);
    }
  }

  lemma WholeLine(part: string)
    requires part != "" && LineEnd(part) == |part|
    ensures SplitLines(part) == [part]
  {
  }

  /** A readable part that assigns the key is read so. */
  lemma StartIsRead(part: string, key: string)
    requires IsKey(key) && Assigns(part, key) && Read(part).Fine?
    ensures key in Read(part).value
  {
    hide ReadLines, ParseLine, LineEnd, KeyOf, IsKey, SplitLines;
    KeyLine(part, key);
    var line := part[..LineEnd(part)];
    assert line in SplitLines(part);
    LineIsRead(SplitLines(part), line);
    PairKey(line);
  }

  lemma ReadableIsRegular(part: string, key: string)
    requires IsKey(key) && Read(part).Fine?
    ensures Assigns(part, key) <==> KeyOf(part) == key
  {
    if Assigns(part, key) {
      KeyLine(part, key);
    }
    if KeyOf(part) == key {
      if EqualsAt(part) == |part| {
        assert part == key && NoBreak(part);
        NoBreakLine(part);
        WholeLine(part);
        NoBadLine([part], 0);
        PairKey(part);
      }
      KeyWithEquals(part, key);
    }
  }

  lemma PartsAreRegular(parts: seq<string>)
    requires Merged(parts).Some?
    ensures Regular(parts)
  {
    hide Read, Merged, IsKey, Assigns, KeyOf;
    forall p, k | p in parts && IsKey(k) ensures Assigns(p, k) <==> KeyOf(p) == k {
      var i :| 0 <= i < |parts| && parts[i] == p;
      PartIsRead(parts, i);
      ReadableIsRegular(p, k);
    }
  }

  // ---------------------------------------------------------------- when nothing is lost

  /** Keys and values the edits write. */
  ghost predicate Writable(w: map<string, string>) {
    forall k :: k in w ==> IsKey(k) && '\'' !in w[k]
  }

  ghost function ReadKeys(part: string): set<string> {
    if Read(part).Fine? then Read(part).value.Keys else {}
  }

  /** The pattern sees what the reader sees: of a part that starts with a key of `w` the reader finds keys
      of `w` only, and of any other part none of them. */
  ghost predicate Even(part: string, w: map<string, string>) {
    if KeyOf(part) in w then ReadKeys(part) <= w.Keys else ReadKeys(part) !! w.Keys
  }

  ghost predicate AllEven(parts: seq<string>, w: map<string, string>) {
    forall p :: p in parts ==> Even(p, w)
  }

  lemma ReadWhole(key: string, value: string)
    requires IsKey(key) && '\'' !in value && NoBreak(value)
    ensures Read(Assign(key, value)) == Fine(map[key := value])
  {
    hide Assign, LineEnd, ParseLine, IsKey, SplitLines, ReadLine;
    var line := Assign(key, value);
    AssignNoBreak(key, value);
    NoBreakLine(line);
    WholeLine(line) by {
      AssignIsSolid(key, value);
      assert line in Solid([line]);
    }
    var none: map<string, string> := map[];
    ReadAssignLine(none, key, value);
    assert [line][..0] == [] && ReadLines([]) == Fine(none);
    assert ReadLines([line]) == ReadLine(none, line);
  }

  lemma ReadBroken(key: string, value: string)
    requires IsKey(key) && '\'' !in value && !NoBreak(value) && Read(Assign(key, value)).Fine?
    ensures key in Read(Assign(key, value)).value && Read(Assign(key, value)).value[key] != value
  {
    hide Assign, LineEnd, ParseLine, IsKey, SplitLines, ReadLines;
    var part, line := Assign(key, value), key + "='" + value[..LineEnd(value)];
    NoBreakLine(value);
    UnclosedLine(key, value);
    AssignParts(key, value);
    FirstAndRest(part);
    assert line in SplitLines(part);
    ReadUnclosed(key, value[..LineEnd(value)]);
    LineIsRead(SplitLines(part), line);
  }

  /** What is kept of the old keys. */
  ghost function Kept(m: map<string, string>, w: map<string, string>, starts: set<string>): map<string, string> {
    map l | l in m && (l !in w || l in starts) :: if l in w then w[l] else m[l]
  }

  lemma StartsAreRead(parts: seq<string>, key: string)
    requires Merged(parts).Some? && key in Starts(parts) && IsKey(key)
    ensures key in Merged(parts).value
  {
    hide Read, Merged, IsKey, Assigns, KeyOf, Regular;
    StartsOf(parts, key);
    var i :| 0 <= i < |parts| && KeyOf(parts[i]) == key;
    PartIsRead(parts, i);
    ReadableIsRegular(parts[i], key);
    StartIsRead(parts[i], key);
  }

  lemma KeptSplit(one: map<string, string>, rest: map<string, string>, w: map<string, string>, key: string,
                  starts: set<string>)
    requires one.Keys !! rest.Keys && forall l :: l in starts && l in w ==> l in rest
    requires if key in w then key in one && one.Keys <= w.Keys else one.Keys !! w.Keys
    ensures Kept(one + rest, w, {key} + starts)
         == (if key in w then map[key := w[key]] else one) + Kept(rest, w, starts)
  {
  }

  lemma {:induction false} MergedRewritten(parts: seq<string>, w: map<string, string>)
    requires Merged(parts).Some? && Writable(w) && OneLine(Values(w)) && AllEven(parts, w)
    ensures Merged(RewriteAll(parts, Values(w))) == Some(Kept(Merged(parts).value, w, Starts(parts)))
  {
    hide Read, IsKey, Assigns, KeyOf, Regular, Assign, Kept, Starts;
    if parts == [] {
      NothingKept(w);
    } else {
      var p, rest, k := parts[0], parts[1..], KeyOf(parts[0]);
      assert AllEven(rest, w) && Even(p, w);
      MergedRewritten(rest, w);
      assert RewriteAll(parts, Values(w))[1..] == RewriteAll(rest, Values(w));
      FirstStart(parts);
      forall l | l in Starts(rest) && l in w ensures l in Merged(rest).value {
        StartsAreRead(rest, l);
      }
      if k in w {
        ReadableIsRegular(p, k);
        StartIsRead(p, k);
        ReadWhole(k, w[k]);
      }
      KeptSplit(Read(p).value, Merged(rest).value, w, k, Starts(rest));
      KeptKeys(Merged(rest).value, w, Starts(rest));
    }
  }

  lemma KeptKeys(m: map<string, string>, w: map<string, string>, starts: set<string>)
    ensures Kept(m, w, starts).Keys <= m.Keys
  {
  }

  lemma NothingKept(w: map<string, string>)
    ensures Kept(map[], w, Starts([])) == map[]
  {
  }

  lemma FirstStart(parts: seq<string>)
    requires parts != []
    ensures Starts(parts) == {KeyOf(parts[0])} + Starts(parts[1..])
  {
    hide KeyOf;
    assert parts == [parts[0]] + parts[1..];
  }

  lemma {:induction false} MergedAdded(order: seq<string>, u: Updates, seen: set<string>)
    requires u.Valid() && order <= u.order && Writable(u.values) && OneLine(u)
    ensures Merged(Added(order, u.values, seen)) == Some(Missing(order, u.values, seen))
  {
    hide Read, IsKey, Assign, Missing, Updates.Valid;
    InOrder(u, order);
    if order == [] {
      NothingMissing(u.values, seen);
    } else {
      var n := |order| - 1;
      assert order[..n] <= u.order && order[n] in order;
      MergedAdded(order[..n], u, seen);
      MissingSnoc(order, u.values, seen);
      var line := Assign(order[n], u.values[order[n]]);
      if order[n] !in seen {
        ReadWhole(order[n], u.values[order[n]]);
        MergedOne(line);
        MergedConcat(Added(order[..n], u.values, seen), [line]);
        var missing := Missing(order[..n], u.values, seen);
        assert missing[order[n] := u.values[order[n]]] == missing + map[order[n] := u.values[order[n]]];
      } else {
        assert Added(order, u.values, seen) == Added(order[..n], u.values, seen);
      }
    }
  }

  lemma KeptAndMissing(m: map<string, string>, json: string, u: Updates, starts: set<string>)
    requires u.Valid() && REGISTRY in starts && REGISTRY in m && forall l :: l in starts && l in u.values ==> l in m
    ensures var w := map[REGISTRY := json] + u.values;
            && Kept(m, w, starts).Keys !! Missing(u.order, u.values, starts).Keys
            && Kept(m, w, starts) + Missing(u.order, u.values, starts) == m + w
  {
  }

  /** Where the pattern sees what the reader sees, nothing is lost. */
  lemma EvenReads(parts: seq<string>, json: string, u: Updates)
    requires Merged(parts).Some? && u.Valid() && REGISTRY in Starts(parts)
    requires var w := map[REGISTRY := json] + u.values;
             Writable(w) && Writable(u.values) && OneLine(Values(w)) && OneLine(u) && AllEven(parts, w)
    ensures var w := map[REGISTRY := json] + u.values;
            Merged(NewParts(parts, w, u.order, u.values)) == Some(Merged(parts).value + w)
  {
    hide Merged, IsKey, Kept, Missing, Starts, Added, AllEven;
    var w := map[REGISTRY := json] + u.values;
    MergedRewritten(parts, w);
    MergedAdded(u.order, u, Starts(parts));
    MergedConcat(RewriteAll(parts, Values(w)), Added(u.order, u.values, Starts(parts)));
    RegistryIsKey();
    forall l | l in Starts(parts) && (l == REGISTRY || l in u.values) ensures l in Merged(parts).value {
      StartsAreRead(parts, l);
    }
    KeptAndMissing(Merged(parts).value, json, u, Starts(parts));
  }

  // ---------------------------------------------------------------- when something is lost

  lemma NewPart(parts: seq<string>, json: string, u: Updates, key: string) returns (i: nat)
    requires u.Valid() && REGISTRY in Starts(parts)
    requires key in (map[REGISTRY := json] + u.values) && forall k :: k in u.values ==> IsKey(k)
    ensures var w := map[REGISTRY := json] + u.values;
            var new' := NewParts(parts, w, u.order, u.values);
            && i < |new'| && new'[i] == Assign(key, w[key])
            && (key !in Starts(parts) ==> i >= |parts|)
  {
    hide Assign, KeyOf, IsKey, Starts;
    var added := Added(u.order, u.values, Starts(parts));
    if key in Starts(parts) {
      StartsOf(parts, key);
      i :| 0 <= i < |parts| && KeyOf(parts[i]) == key;
    } else {
      AddedIs(u.order, u.values, Starts(parts), key);
      var k :| 0 <= k < |added| && added[k] == Assign(key, u.values[key]);
      i := |parts| + k;
    }
  }

  lemma {:induction false} AddedIs(order: seq<string>, values: map<string, string>, seen: set<string>, key: string)
    requires (forall k :: k in order ==> k in values) && key in order && key !in seen
    ensures Assign(key, values[key]) in Added(order, values, seen)
  {
    hide Assign;
    var n := |order| - 1;
    if key != order[n] {
      AddedIs(order[..n], values, seen, key);
    }
  }

  /** A value with a line break is not read back. */
  lemma BrokenIsLost(parts: seq<string>, json: string, u: Updates, m: map<string, string>)
    requires Merged(parts).Some? && u.Valid() && REGISTRY in Starts(parts)
    requires (forall k :: k in u.values ==> IsKey(k)) && Writable(map[REGISTRY := json] + u.values)
    requires var w := map[REGISTRY := json] + u.values;
             Merged(NewParts(parts, w, u.order, u.values)) == Some(m + w)
    ensures OneLine(Values(map[REGISTRY := json] + u.values))
  {
    hide Merged, IsKey, Starts, NewParts, Read, NoBreak, Assign, Updates.Valid;
    var w := map[REGISTRY := json] + u.values;
    InOrder(u, u.order);
    forall key | key in w ensures NoBreak(w[key]) {
      var i := NewPart(parts, json, u, key);
      PartIsRead(NewParts(parts, w, u.order, u.values), i);
      if !NoBreak(w[key]) {
        ReadBroken(key, w[key]);
      }
    }
  }

  /** A key behind the line break of a replaced part is lost. */
  lemma HiddenIsLost(parts: seq<string>, json: string, u: Updates, i: nat, key: string)
    requires Merged(parts).Some? && u.Valid() && i < |parts| && key in ReadKeys(parts[i])
    requires var w := map[REGISTRY := json] + u.values;
             Writable(w) && OneLine(Values(w)) && KeyOf(parts[i]) in w && key !in w
    ensures var w := map[REGISTRY := json] + u.values;
            Merged(NewParts(parts, w, u.order, u.values)) != Some(Merged(parts).value + w)
  {
    hide Merged, IsKey, Starts, Read, Assign, KeyOf, Added, NoBreak;
    var w := map[REGISTRY := json] + u.values;
    var new' := NewParts(parts, w, u.order, u.values);
    PartIsRead(parts, i);
    if Merged(new') == Some(Merged(parts).value + w) {
      var j := KeyFrom(new', key);
      if j < |parts| {
        var k := KeyOf(parts[j]);
        if k in w {
          ReadWhole(k, w[k]);
        } else {
          PartsDiffer(parts, i, j, key);
        }
      } else {
        var added := Added(u.order, u.values, Starts(parts));
        assert new'[j] == added[j - |parts|] && added[j - |parts|] in added;
        var k := AddedFrom(u.order, u.values, Starts(parts), new'[j]);
        ReadWhole(k, w[k]);
      }
    }
  }

  /** A key of the updates that no part starts with, but some part holds, is assigned twice. */
  lemma HiddenIsRepeated(parts: seq<string>, json: string, u: Updates, i: nat, key: string)
    requires Merged(parts).Some? && u.Valid() && i < |parts| && key in ReadKeys(parts[i]) && REGISTRY in Starts(parts)
    requires var w := map[REGISTRY := json] + u.values;
             && Writable(w) && OneLine(Values(w)) && KeyOf(parts[i]) !in w && key in w
             && (forall k :: k in u.values ==> IsKey(k))
    ensures Merged(NewParts(parts, map[REGISTRY := json] + u.values, u.order, u.values)).None?
  {
    hide Merged, IsKey, Read, Assign, KeyOf, Added, NoBreak, Starts, Regular;
    var w := map[REGISTRY := json] + u.values;
    var new' := NewParts(parts, w, u.order, u.values);
    assert new'[i] == parts[i];
    if key in Starts(parts) {
      StartsOf(parts, key);
      var j :| 0 <= j < |parts| && KeyOf(parts[j]) == key;
      PartIsRead(parts, j);
      ReadableIsRegular(parts[j], key);
      StartIsRead(parts[j], key);
      PartsDiffer(parts, i, j, key);
    } else {
      var j := NewPart(parts, json, u, key);
      ReadWhole(key, w[key]);
      if Merged(new').Some? {
        PartsDiffer(new', i, j, key);
      }
    }
  }

  /** What is read back is right exactly where every value is on one line and every part is even. */
  lemma NewPartsExactly(parts: seq<string>, json: string, u: Updates)
    requires Merged(parts).Some? && u.Valid() && REGISTRY in Starts(parts)
    requires Writable(map[REGISTRY := json] + u.values) && Writable(u.values)
    ensures var w := map[REGISTRY := json] + u.values;
            Merged(NewParts(parts, w, u.order, u.values)) == Some(Merged(parts).value + w)
            <==> OneLine(Values(w)) && AllEven(parts, w)
  {
    hide Merged, Read, KeyOf, Starts, NewParts, ReadKeys, IsKey, NoBreak;
    var w := map[REGISTRY := json] + u.values;
    if OneLine(Values(w)) && AllEven(parts, w) {
      assert OneLine(u) by {
        assert forall k :: k in u.values ==> w[k] == u.values[k];
      }
      EvenReads(parts, json, u);
    }
    if Merged(NewParts(parts, w, u.order, u.values)) == Some(Merged(parts).value + w) {
      BrokenIsLost(parts, json, u, Merged(parts).value);
      forall p | p in parts ensures Even(p, w) {
        var i :| 0 <= i < |parts| && parts[i] == p;
        if !Even(p, w) {
          if KeyOf(p) in w {
            var key :| key in ReadKeys(p) && key !in w;
            HiddenIsLost(parts, json, u, i, key);
          } else {
            var key :| key in ReadKeys(p) && key in w;
            HiddenIsRepeated(parts, json, u, i, key);
          }
        }
      }
    }
  }

  // ---------------------------------------------------------------- the whole edit

  lemma ReadsAs(content: string)
    ensures Reading(Read(content)) == Merged(Solid(Feeds(content)))
  {
    hide Read, Merged, Solid, JoinFeeds;
    ReadParts(Feeds(content));
    MergedSolid(Feeds(content));
  }

  lemma EmptyIsEven(w: map<string, string>)
    requires Writable(w)
    ensures Even("", w)
  {
    ReadNothing();
    hide Read;
  }

  lemma SolidIsEven(content: string, w: map<string, string>)
    requires Writable(w)
    ensures AllEven(Feeds(content), w) <==> AllEven(Solid(Feeds(content)), w)
  {
    hide Feeds, Even;
    EmptyIsEven(w);
  }

  /** A part of a readable text starts with a key at most once. */
  lemma {:induction false} OccursOnce(parts: seq<string>, key: string)
    requires Merged(parts).Some? && IsKey(key)
    ensures Occurrences(parts, key) == if Assigned(parts, key) then 1 else 0
  {
    hide Merged, Read, Assigns, IsKey, KeyOf;
    if Occurrences(parts, key) >= 2 {
      var i, j := TwoOccurrences(parts, key);
      PartIsRead(parts, i);
      PartIsRead(parts, j);
      StartIsRead(parts[i], key);
      StartIsRead(parts[j], key);
      PartsDiffer(parts, i, j, key);
    }
    SomeOccurrence(parts, key);
  }

  lemma {:induction false} TwoOccurrences(parts: seq<string>, key: string) returns (i: nat, j: nat)
    requires Occurrences(parts, key) >= 2
    ensures i < j < |parts| && Assigns(parts[i], key) && Assigns(parts[j], key)
  {
    hide Assigns;
    var n := |parts| - 1;
    if Occurrences(parts[..n], key) >= 2 {
      i, j := TwoOccurrences(parts[..n], key);
    } else {
      SomeOccurrence(parts[..n], key);
      i :| 0 <= i < n && Assigns(parts[..n][i], key);
      j := n;
    }
  }

  /** No quote, no carriage return, no line feed. */
  predicate Accepted(value: string) {
    forall c :: c in value ==> c != '\'' && c != '\r' && c != '\n'
  }

  /** `dotenv` accepts every value the edit writes. */
  ghost predicate AllPrintable(json: string, u: Updates) {
    Accepted(json) && forall k :: k in u.values ==> Accepted(u.values[k])
  }

  lemma AcceptedIsPrintable(value: string)
    ensures Accepted(value) <==> Printable(value)
  {
  }

  lemma AllAreAccepted(json: string, u: Updates)
    ensures AllPrintable(json, u) <==> Printable(json) && forall k :: k in u.values ==> Printable(u.values[k])
  {
    hide Printable, Accepted;
    AcceptedIsPrintable(json);
    forall k | k in u.values ensures Accepted(u.values[k]) <==> Printable(u.values[k]) {
      AcceptedIsPrintable(u.values[k]);
    }
  }

  lemma PrintableIsWritable(json: string, u: Updates)
    requires AllPrintable(json, u) && forall k :: k in u.values ==> IsKey(k)
    ensures Writable(map[REGISTRY := json] + u.values) && Writable(u.values)
  {
    RegistryIsKey();
    hide IsKey;
  }

  lemma SavedSucceeds(content: string, json: string, u: Updates)
    requires u.Valid() && Read(content).Fine?
    ensures Saved(content, json, u).Fine? <==> AllPrintable(json, u) && Assigned(Feeds(content), REGISTRY)
  {
    hide Read, Merged, Feeds, JoinFeeds, Printable, Occurrences, Assigned, Replaced, IsKey, SetAll, AllPrintable;
    AllAreAccepted(json, u);
    RegistryIsKey();
    ReadParts(Feeds(content));
    OccursOnce(Feeds(content), REGISTRY);
    SetAllSucceeds(JoinFeeds(Replaced(Feeds(content), REGISTRY, json)), u.order, u.values);
  }

  /** What the edit refuses, and how: a value `dotenv` does not accept, or a file without the registry. */
  lemma SaveRefusesExactly(content: string, json: string, u: Updates)
    requires u.Valid() && Read(content).Fine? && Saved(content, json, u).Fails?
    ensures Saved(content, json, u).failure
         == if Accepted(json) && !Assigned(Feeds(content), REGISTRY) then InvalidSyntax else UnsupportedValue
  {
    hide Read, Merged, Feeds, JoinFeeds, Printable, Occurrences, Assigned, Replaced, IsKey;
    AcceptedIsPrintable(json);
    RegistryIsKey();
    ReadParts(Feeds(content));
    OccursOnce(Feeds(content), REGISTRY);
    SetAllUnsupported(JoinFeeds(Replaced(Feeds(content), REGISTRY, json)), u.order, u.values);
  }

  /** A file in which two lines start with the registry is refused, readable or not. */
  lemma TwoRegistriesRefused(content: string, json: string, u: Updates, i: nat, j: nat)
    requires u.Valid() && Accepted(json) && i < j < |Feeds(content)|
    requires Assigns(Feeds(content)[i], REGISTRY) && Assigns(Feeds(content)[j], REGISTRY)
    ensures Saved(content, json, u) == Fails(InvalidSyntax)
  {
    hide Feeds, Assigns, Accepted, Printable;
    AcceptedIsPrintable(json);
    CountsTwo(Feeds(content), REGISTRY, i, j);
  }

  lemma {:induction false} CountsTwo(parts: seq<string>, key: string, i: nat, j: nat)
    requires i < j < |parts| && Assigns(parts[i], key) && Assigns(parts[j], key)
    ensures Occurrences(parts, key) >= 2
  {
    hide Assigns;
    var n := |parts| - 1;
    if j < n {
      CountsTwo(parts[..n], key, i, j);
    } else {
      assert Assigns(parts[..n][i], key);
      SomeOccurrence(parts[..n], key);
    }
  }

  lemma {:induction false} SetAllUnsupported(content: string, order: seq<string>, values: map<string, string>)
    requires forall k :: k in order ==> k in values
    ensures SetAll(content, order, values).Fails? ==> SetAll(content, order, values).failure == UnsupportedValue
  {
    hide Printable, Set;
    if order != [] {
      SetAllUnsupported(content, order[..|order| - 1], values);
    }
  }

  lemma SavedParts(content: string, json: string, u: Updates)
    requires u.Valid() && (forall k :: k in u.values ==> IsKey(k)) && Read(content).Fine?
    requires Saved(content, json, u).Fine?
    ensures var parts, w := Solid(Feeds(content)), map[REGISTRY := json] + u.values;
            && Merged(parts).Some? && AllPrintable(json, u) && REGISTRY in Starts(parts)
            && Solid(Feeds(Saved(content, json, u).value)) == NewParts(parts, w, u.order, u.values)
  {
    hide Read, Merged, Feeds, JoinFeeds, Occurrences, Assigns, Replaced, IsKey, SetAll, Solid, Regular, Printable;
    hide KeyOf, NewParts;
    var parts := Solid(Feeds(content));
    SavedSucceeds(content, json, u);
    ReadsAs(content);
    RegistryIsKey();
    PartsAreRegular(parts);
    NotEmpty(REGISTRY);
    RegistryStarts(parts);
    var start := JoinFeeds(Replaced(Feeds(content), REGISTRY, json));
    KeyNoFeed(REGISTRY, json);
    ReplacedFeeds(content, REGISTRY, json);
    SolidReplaced(Feeds(content), REGISTRY, json);
    ReplacedIsRewritten(parts, json);
    AllAreAccepted(json, u);
    SetAllOnParts(u.order, u, parts, json, start);
    AllChosen(json, u);
  }

  lemma AllChosen(json: string, u: Updates)
    requires u.Valid()
    ensures After(json, u.order, u.values) == map[REGISTRY := json] + u.values
  {
    assert Chosen(u.order, u.values) == u.values;
  }

  lemma RegistryStarts(parts: seq<string>)
    requires Regular(parts) && Assigned(parts, REGISTRY)
    ensures REGISTRY in Starts(parts)
  {
    hide Assigns, KeyOf, IsKey;
    RegistryIsKey();
  }

  lemma ReplacedIsRewritten(parts: seq<string>, json: string)
    requires Regular(parts)
    ensures Replaced(parts, REGISTRY, json) == RewriteAll(parts, Values(map[REGISTRY := json]))
  {
    hide Assigns, KeyOf, IsKey, Assign;
    RegistryIsKey();
    assert forall i :: 0 <= i < |parts| ==> parts[i] in parts;
  }

  /** For any readable file and any updates: the edit goes through exactly when `dotenv` accepts every
      value and a line that ends at a line feed starts with the registry. What it writes is then read as
      the old map with the new registry and the updates, exactly when no value has a line break and, of
      each line that ends at a line feed, the reader finds only edited keys if it starts with one, and
      none otherwise. */
  lemma SaveReadsExactly(content: string, json: string, u: Updates)
    requires u.Valid() && (forall k :: k in u.values ==> IsKey(k)) && Read(content).Fine?
    ensures Saved(content, json, u).Fine? <==> AllPrintable(json, u) && Assigned(Feeds(content), REGISTRY)
    ensures Saved(content, json, u).Fine? ==>
              var w := map[REGISTRY := json] + u.values;
              Read(Saved(content, json, u).value) == Fine(Read(content).value + w)
              <==> (forall k :: k in w ==> NoBreak(w[k])) && AllEven(Feeds(content), w)
  {
    hide Read, Merged, Feeds, Occurrences, Assigns, IsKey, SetAll, Solid, Saved, Printable, NoBreak, NewParts;
    hide KeyOf, AllEven;
    SavedSucceeds(content, json, u);
    if Saved(content, json, u).Fine? {
      var parts, w := Solid(Feeds(content)), map[REGISTRY := json] + u.values;
      SavedParts(content, json, u);
      PrintableIsWritable(json, u);
      NewPartsExactly(parts, json, u);
      ReadsAs(content);
      ReadsAs(Saved(content, json, u).value);
      SolidIsEven(content, w);
    }
  }

  // ---------------------------------------------------------------- plain files

  /** The only line breaks of the text are line feeds. */
  ghost predicate FeedsOnly(text: string) {
    forall i :: 0 <= i < |text| && IsBreak(text[i]) ==> text[i] == '\n'
  }

  lemma {:induction false} PartsAreClear(text: string)
    requires FeedsOnly(text)
    ensures forall i :: 0 <= i < |Feeds(text)| ==> NoBreak(Feeds(text)[i])
    decreases |text|
  {
    if text != "" {
      assert FeedsOnly(text[1..]) by {
        assert forall i :: 0 <= i < |text[1..]| ==> text[1..][i] == text[i + 1];
      }
      PartsAreClear(text[1..]);
    }
  }

  /** One line holds no other key than the one it starts with. */
  lemma ClearIsEven(part: string, w: map<string, string>)
    requires NoBreak(part) && Writable(w)
    ensures Even(part, w)
    ensures forall k :: k in ReadKeys(part) ==> KeyOf(part) == k
  {
    hide ReadLine, IsKey;
    EmptyIsEven(w);
    NoBreakLine(part);
    if part == "" {
      ReadNothing();
    } else {
      WholeLine(part);
      assert [part][..0] == [] && ReadLines([]) == Fine(map[]);
      assert Reading(Read(part)) == Reading(ReadLine(map[], part));
      OneLineReads(part);
    }
  }

  lemma OneLineReads(line: string)
    ensures ReadLine(map[], line).Fine? ==> forall k :: k in ReadLine(map[], line).value ==> KeyOf(line) == k
  {
    hide ParseLine;
    PairKey(line);
  }

  /** In a plain file the registry starts a line exactly when it is read. */
  lemma RegistryIsAssigned(content: string)
    requires FeedsOnly(content) && Read(content).Fine?
    ensures Assigned(Feeds(content), REGISTRY) <==> REGISTRY in Read(content).value
  {
    hide Read, Merged, Feeds, JoinFeeds, Assigns, IsKey, NoBreak, FeedsOnly, KeyOf;
    var parts := Feeds(content);
    RegistryIsKey();
    PartsAreClear(content);
    ReadParts(parts);
    if REGISTRY in Read(content).value {
      var i := KeyFrom(parts, REGISTRY);
      NothingWritable();
      ClearIsEven(parts[i], map[]);
      ReadableIsRegular(parts[i], REGISTRY);
    }
    if Assigned(parts, REGISTRY) {
      var p :| p in parts && Assigns(p, REGISTRY);
      var i :| 0 <= i < |parts| && parts[i] == p;
      PartIsRead(parts, i);
      StartIsRead(p, REGISTRY);
    }
  }

  lemma NothingWritable()
    ensures Writable(map[])
  {
  }

  lemma OneLineIsPrintable(value: string)
    requires '\'' !in value && NoBreak(value)
    ensures Printable(value)
  {
    assert forall c :: c in value ==> !IsBreak(c);
  }

  /** For a readable file whose only line breaks are line feeds, and values without a quote or a line
      break: the edit goes through exactly when the file has the registry, and reading its result
      yields the old map with the new registry, overridden by the updates. */
  lemma ReadAfterSave(content: string, json: string, u: Updates)
    requires Proper(u) && OneLine(u) && '\'' !in json && NoBreak(json)
    requires FeedsOnly(content) && Read(content).Fine?
    ensures Saved(content, json, u).Fine? <==> REGISTRY in Read(content).value
    ensures Saved(content, json, u).Fine? ==>
              Read(Saved(content, json, u).value) == Fine(Read(content).value + (map[REGISTRY := json] + u.values))
  {
    hide Read, Feeds, JoinFeeds, Assigned, IsKey, NoBreak, FeedsOnly, Saved, Printable, Even;
    SaveReadsExactly(content, json, u);
    RegistryIsAssigned(content);
    OneLineIsPrintable(json);
    forall k | k in u.values ensures Printable(u.values[k]) {
      OneLineIsPrintable(u.values[k]);
    }
    AllAreAccepted(json, u);
    PrintableIsWritable(json, u);
    PartsAreClear(content);
    var w := map[REGISTRY := json] + u.values;
    forall p | p in Feeds(content) ensures Even(p, w) {
      ClearIsEven(p, w);
    }
  }

  // ---------------------------------------------------------------- a file the edit spoils

  lemma TwoLines(first: string, second: string)
    requires first != "" && second != "" && NoBreak(first) && NoBreak(second)
    ensures SplitLines(first + "\U{b}" + second) == [first, second]
  {
    var tail := "\U{b}" + second;
    var text := first + "\U{b}" + second;
    assert text == first + tail && tail[0] == '\U{b}' && IsBreak(tail[0]);
    LineEndAfter(first, tail);
    NoBreakLine(second);
    WholeLine(second);
    FirstAndRest(text);
    assert text[..|first|] == first && text[|first| + 1..] == second;
  }

  lemma ReadTwo(first: string, second: string)
    requires ParseLine(first).Pair? && ParseLine(second).Pair? && ParseLine(first).key != ParseLine(second).key
    ensures ReadLines([first, second]).Fine?
    ensures ReadLines([first, second]).value.Keys == {ParseLine(first).key, ParseLine(second).key}
  {
    hide ParseLine;
    assert [first, second][..1] == [first] && [first][..0] == [];
    assert ReadLines([]) == Fine(map[]);
    assert ReadLines([first]) == ReadLine(map[], first);
    assert ReadLines([first, second]) == ReadLine(ReadLines([first]).value, second);
  }

  lemma TwoAssignments(key: string, other: string) returns (content: string)
    requires IsKey(key) && IsKey(other) && key != other
    ensures Read(content).Fine? && Feeds(content) == [content] && Assigns(content, key)
    ensures ReadKeys(content) == {key, other}
  {
    var first, second := Assign(key, ""), Assign(other, "");
    ReadAssign(key, "");
    ReadAssign(other, "");
    AssignNoBreak(key, "");
    AssignNoBreak(other, "");
    content := first + "\U{b}" + second;
    assert '\n' !in content;
    assert content == key + "=" + content[|key| + 1..];
    assert first != "" && second != "";
    hide SplitLines, ParseLine, ReadLines, Assign, KeyOf, IsKey, Feeds, JoinFeeds, NoBreak;
    TwoLines(first, second);
    ReadTwo(first, second);
    JoinedOne(content);
    FeedsOfJoin([content]);
  }

  /** A text without line feeds that holds another key beside the registry is spoiled. */
  lemma NeighbourIsLost(content: string, other: string, json: string)
    requires '\'' !in json && NoBreak(json) && Read(content).Fine? && Feeds(content) == [content]
    requires Assigns(content, REGISTRY) && other != REGISTRY && other in ReadKeys(content)
    ensures var saved := Saved(content, json, Updates([], map[]));
            saved.Fine? && Read(saved.value) != Fine(Read(content).value[REGISTRY := json])
  {
    hide Read, Feeds, Assigns, IsKey, NoBreak, Saved, Printable, KeyOf, ReadKeys;
    var u, w := Updates([], map[]), map[REGISTRY := json];
    assert w + u.values == w;
    RegistryIsKey();
    KeyLine(content, REGISTRY);
    OneLineIsPrintable(json);
    assert !Even(content, w);
    SaveReadsExactly(content, json, u);
    assert content in Feeds(content);
    assert Read(content).value + w == Read(content).value[REGISTRY := json];
  }

  /** A readable file the edit spoils: it swallows the key that stands behind a vertical tab. */
  lemma LostNeighbour(other: string, json: string) returns (content: string)
    requires IsKey(other) && other != REGISTRY && '\'' !in json && NoBreak(json)
    ensures Read(content).Fine? && other in Read(content).value
    ensures var saved := Saved(content, json, Updates([], map[]));
            saved.Fine? && Read(saved.value) != Fine(Read(content).value[REGISTRY := json])
  {
    hide Read, Feeds, Assigns, IsKey, NoBreak, Saved;
    RegistryIsKey();
    content := TwoAssignments(REGISTRY, other);
    NeighbourIsLost(content, other, json);
  }
}
