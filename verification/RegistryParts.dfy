/** The edits of `save_registry` as one edit of the parts between the line feeds, and the reader on those
    parts. */
module RegistryParts {
  import opened Wrappers
  import opened TextLines
  import opened EnvFile
  import opened EnvFileLimits
  import opened RegistryEdit

  // ---------------------------------------------------------------- reading in pieces

  /** Two readings together; no key may be assigned twice. */
  ghost function Together(a: Option<map<string, string>>, b: Option<map<string, string>>): Option<map<string, string>> {
    if a.Some? && b.Some? && a.value.Keys !! b.value.Keys then Some(a.value + b.value) else None
  }

  ghost function Reading(r: Outcome<map<string, string>>): Option<map<string, string>> {
    if r.Fine? then Some(r.value) else None
  }

  /** The parts read one by one. */
  ghost function Merged(parts: seq<string>): Option<map<string, string>> {
    if parts == [] then Some(map[]) else Together(Reading(Read(parts[0])), Merged(parts[1..]))
  }

  lemma TogetherAssociates(a: Option<map<string, string>>, b: Option<map<string, string>>,
                           c: Option<map<string, string>>)
    ensures Together(Together(a, b), c) == Together(a, Together(b, c))
  {
    if a.Some? && b.Some? && c.Some? {
      assert (a.value + b.value) + c.value == a.value + (b.value + c.value);
    }
  }

  lemma TogetherNothing(a: Option<map<string, string>>)
    ensures Together(a, Some(map[])) == a && Together(Some(map[]), a) == a
  {
    if a.Some? {
      assert a.value + map[] == a.value && map[] + a.value == a.value;
    }
  }

  lemma ReadLineTogether(m: map<string, string>, line: string)
    ensures Reading(ReadLine(m, line)) == Together(Some(m), Reading(ReadLine(map[], line)))
  {
    hide ParseLine;
    if ParseLine(line).Pair? {
      var key, value := ParseLine(line).key, ParseLine(line).value;
      var one: map<string, string> := map[];
      assert one[key := value] == map[key := value] && m[key := value] == m + map[key := value];
    }
    TogetherNothing(Some(m));
  }

  lemma ReadNothing()
    ensures ReadLine(map[], "") == Fine(map[]) && Read("") == Fine(map[])
  {
  }

  lemma {:induction false} ReadConcat(a: seq<string>, b: seq<string>)
    ensures Reading(ReadLines(a + b)) == Together(Reading(ReadLines(a)), Reading(ReadLines(b)))
  {
    hide ReadLine, Together;
    if b == [] {
      assert a + b == a;
      TogetherNothing(Reading(ReadLines(a)));
    } else {
      var init, last := b[..|b| - 1], b[|b| - 1];
      assert (a + b)[..|a + b| - 1] == a + init;
      ReadConcat(a, init);
      ReadStep(a + init, last);
      ReadStep(init, last);
      assert a + init + [last] == a + b && init + [last] == b;
      TogetherAssociates(Reading(ReadLines(a)), Reading(ReadLines(init)), Reading(ReadLine(map[], last)));
    }
  }

  lemma ReadStep(lines: seq<string>, line: string)
    ensures Reading(ReadLines(lines + [line]))
         == Together(Reading(ReadLines(lines)), Reading(ReadLine(map[], line)))
  {
    hide ReadLine;
    assert (lines + [line])[..|lines|] == lines;
    if ReadLines(lines).Fine? {
      ReadLineTogether(ReadLines(lines).value, line);
    }
  }

  lemma FedCut(s: string, n: nat)
    requires n < |s|
    ensures var fed, k := s + "\n", NextLine(s, n);
            && fed[..n] == s[..n]
            && if s[n] == '\r' && n + 1 == |s| then fed[NextLine(fed, n)..] == "" && s[k..] == ""
               else NextLine(fed, n) == k && fed[k..] == s[k..] + "\n"
  {
  }

  lemma FedWhole(s: string)
    requires LineEnd(s) == |s|
    ensures SplitLines(s + "\n") == if s == "" then [""] else [s]
    ensures SplitLines(s) == if s == "" then [] else [s]
  {
    LineEndFed(s);
    FirstAndRest(s + "\n");
    assert (s + "\n")[..|s|] == s && (s + "\n")[|s| + 1..] == "";
  }

  /** A line feed at the end of a text adds at most an empty line. */
  lemma {:induction false} FedLines(s: string)
    ensures SplitLines(s + "\n") == SplitLines(s) || SplitLines(s + "\n") == SplitLines(s) + [""]
    decreases |s|
  {
    hide SplitLines, LineEnd, NextLine;
    var n, fed := LineEnd(s), s + "\n";
    if n == |s| {
      FedWhole(s);
    } else {
      LineEndFed(s);
      FirstAndRest(fed);
      FirstAndRest(s);
      FedCut(s, n);
      if !(s[n] == '\r' && n + 1 == |s|) {
        FedLines(s[NextLine(s, n)..]);
      }
    }
  }

  lemma ReadFed(s: string)
    ensures Reading(ReadLines(SplitLines(s + "\n"))) == Reading(Read(s))
  {
    hide SplitLines, ReadLine, Together;
    FedLines(s);
    ReadStep(SplitLines(s), "");
    ReadNothing();
    TogetherNothing(Reading(Read(s)));
  }

  /** The reader sees the parts between the line feeds one by one. */
  lemma {:induction false} ReadParts(parts: seq<string>)
    requires parts != []
    ensures Reading(Read(JoinFeeds(parts))) == Merged(parts)
  {
    hide SplitLines, ReadLines, Together;
    if |parts| > 1 {
      var rest := JoinFeeds(parts[1..]);
      SplitAfterFeed(parts[0], rest);
      ReadConcat(SplitLines(parts[0] + "\n"), SplitLines(rest));
      ReadFed(parts[0]);
      ReadParts(parts[1..]);
    } else {
      assert parts[1..] == [];
      TogetherNothing(Reading(Read(parts[0])));
    }
  }

  lemma {:induction false} MergedConcat(a: seq<string>, b: seq<string>)
    ensures Merged(a + b) == Together(Merged(a), Merged(b))
  {
    hide Together, Read;
    if a == [] {
      assert a + b == b;
      TogetherNothing(Merged(b));
    } else {
      assert (a + b)[1..] == a[1..] + b;
      MergedConcat(a[1..], b);
      TogetherAssociates(Reading(Read(a[0])), Merged(a[1..]), Merged(b));
    }
  }

  lemma MergedOne(part: string)
    ensures Merged([part]) == Reading(Read(part))
  {
    hide Together, Read;
    TogetherNothing(Reading(Read(part)));
  }

  /** What one part assigns is part of what all assign. */
  lemma {:induction false} PartIsRead(parts: seq<string>, i: nat)
    requires Merged(parts).Some? && i < |parts|
    ensures Read(parts[i]).Fine?
    ensures forall k :: k in Read(parts[i]).value ==>
              k in Merged(parts).value && Merged(parts).value[k] == Read(parts[i]).value[k]
  {
    hide Read;
    if i > 0 {
      PartIsRead(parts[1..], i - 1);
    }
  }

  lemma {:induction false} KeyFrom(parts: seq<string>, key: string) returns (i: nat)
    requires Merged(parts).Some? && key in Merged(parts).value
    ensures i < |parts| && Read(parts[i]).Fine? && key in Read(parts[i]).value
  {
    hide Read;
    if key in Read(parts[0]).value {
      i := 0;
    } else {
      i := KeyFrom(parts[1..], key);
      i := i + 1;
    }
  }

  /** No two parts assign the same key. */
  lemma {:induction false} PartsDiffer(parts: seq<string>, i: nat, j: nat, key: string)
    requires Merged(parts).Some? && i < |parts| && j < |parts|
    requires Read(parts[i]).Fine? && key in Read(parts[i]).value && Read(parts[j]).Fine? && key in Read(parts[j]).value
    ensures i == j
  {
    hide Read;
    if i == 0 && j > 0 {
      PartIsRead(parts[1..], j - 1);
    } else if j == 0 && i > 0 {
      PartIsRead(parts[1..], i - 1);
    } else if i > 0 {
      PartsDiffer(parts[1..], i - 1, j - 1, key);
    }
  }

  // ---------------------------------------------------------------- the parts that are not empty

  function Solid(parts: seq<string>): (r: seq<string>)
    ensures forall p :: p in r <==> p in parts && p != ""
  {
    if parts == [] then [] else (if parts[0] == "" then [] else [parts[0]]) + Solid(parts[1..])
  }

  lemma {:induction false} SolidConcat(a: seq<string>, b: seq<string>)
    ensures Solid(a + b) == Solid(a) + Solid(b)
  {
    if a == [] {
      assert a + b == b;
    } else {
      assert (a + b)[1..] == a[1..] + b;
      SolidConcat(a[1..], b);
    }
  }

  lemma {:induction false} MergedSolid(parts: seq<string>)
    ensures Merged(Solid(parts)) == Merged(parts)
  {
    hide Together, Read;
    if parts != [] {
      MergedSolid(parts[1..]);
      if parts[0] == "" {
        ReadNothing();
        assert Solid(parts) == Solid(parts[1..]);
        TogetherNothing(Merged(parts[1..]));
      } else {
        assert Solid(parts)[1..] == Solid(parts[1..]);
      }
    }
  }

  lemma {:induction false} FeedsAppend(text: string, rest: string)
    ensures Feeds(text + "\n" + rest) == Feeds(text) + Feeds(rest)
  {
    var whole := text + "\n" + rest;
    if text == "" {
      assert whole[1..] == rest;
    } else {
      assert whole[1..] == text[1..] + "\n" + rest;
      FeedsAppend(text[1..], rest);
    }
  }

  lemma {:induction false} SolidStripped(text: string)
    ensures Solid(Feeds(StripFeeds(text))) == Solid(Feeds(text))
  {
    hide Solid, Feeds;
    if text != "" && text[|text| - 1] == '\n' {
      var shorter := text[..|text| - 1];
      SolidStripped(shorter);
      assert text == shorter + "\n" + "";
      FeedsAppend(shorter, "");
      SolidConcat(Feeds(shorter), Feeds(""));
      NoFeeds();
    }
  }

  lemma NoFeeds()
    ensures Feeds("") == [""] && Solid([""]) == []
  {
  }

  lemma ReplacedConcat(a: seq<string>, b: seq<string>, key: string, value: string)
    ensures Replaced(a + b, key, value) == Replaced(a, key, value) + Replaced(b, key, value)
  {
    hide Assigns, Assign;
  }

  lemma {:induction false} SolidReplaced(parts: seq<string>, key: string, value: string)
    ensures Solid(Replaced(parts, key, value)) == Replaced(Solid(parts), key, value)
  {
    hide Assigns, Assign, Replaced;
    if parts != [] {
      var p, rest := [parts[0]], parts[1..];
      assert parts == p + rest;
      SolidReplaced(rest, key, value);
      ReplacedConcat(p, rest, key, value);
      SolidConcat(p, rest);
      SolidConcat(Replaced(p, key, value), Replaced(rest, key, value));
      ReplacedConcat(Solid(p), Solid(rest), key, value);
      SolidReplacedOne(parts[0], key, value);
    }
  }

  lemma SolidReplacedOne(part: string, key: string, value: string)
    ensures Solid(Replaced([part], key, value)) == Replaced(Solid([part]), key, value)
  {
    hide Assigns, Assign;
    NotEmpty(key);
    AssignIsSolid(key, value);
  }

  lemma {:induction false} SomeOccurrence(parts: seq<string>, key: string)
    ensures Occurrences(parts, key) > 0 <==> exists i :: 0 <= i < |parts| && Assigns(parts[i], key)
  {
    hide Assigns;
    if parts != [] {
      SomeOccurrence(parts[..|parts| - 1], key);
    }
  }

  ghost predicate Assigned(parts: seq<string>, key: string) {
    exists p :: p in parts && Assigns(p, key)
  }

  /** `Set` on the parts that are not empty. */
  ghost function SetParts(parts: seq<string>, key: string, value: string): seq<string> {
    if Assigned(parts, key) then Replaced(parts, key, value) else parts + [Assign(key, value)]
  }

  lemma AssignIsSolid(key: string, value: string)
    ensures Solid([Assign(key, value)]) == [Assign(key, value)]
  {
  }

  lemma ReplacedFeeds(content: string, key: string, value: string)
    requires '\n' !in key && '\n' !in value
    ensures Feeds(JoinFeeds(Replaced(Feeds(content), key, value))) == Replaced(Feeds(content), key, value)
  {
    hide Assigns, Feeds, JoinFeeds;
    FeedsOfJoin(Replaced(Feeds(content), key, value));
  }

  lemma AppendedFeeds(text: string, key: string, value: string)
    requires '\n' !in key && '\n' !in value
    ensures Feeds(text + "\n" + Assign(key, value) + "\n") == Feeds(text) + [Assign(key, value)] + [""]
  {
    hide Feeds, JoinFeeds;
    var line := Assign(key, value);
    NoFeeds();
    FeedsAppend(text + "\n" + line, "");
    assert text + "\n" + line + "\n" == text + "\n" + line + "\n" + "";
    FeedsAppend(text, line);
    FeedsOfJoin([line]);
    assert JoinFeeds([line]) == line by {
      JoinedOne(line);
    }
  }

  lemma JoinedOne(line: string)
    ensures JoinFeeds([line]) == line
  {
  }

  lemma SetIsOnParts(content: string, key: string, value: string)
    requires '\n' !in key && '\n' !in value
    ensures Solid(Feeds(Set(content, key, value))) == SetParts(Solid(Feeds(content)), key, value)
  {
    hide Assigns, Feeds, JoinFeeds, Solid, Assign, Replaced, StripFeeds, Occurrences;
    var parts := Feeds(content);
    SomeOccurrence(parts, key);
    NotEmpty(key);
    if Occurrences(parts, key) > 0 {
      ReplacedFeeds(content, key, value);
      SolidReplaced(parts, key, value);
    } else {
      AppendedFeeds(StripFeeds(content), key, value);
      SolidConcat(Feeds(StripFeeds(content)) + [Assign(key, value)], [""]);
      SolidConcat(Feeds(StripFeeds(content)), [Assign(key, value)]);
      SolidStripped(content);
      AssignIsSolid(key, value);
      NoFeeds();
    }
  }

  lemma {:induction false} StripsFeeds(text: string)
    ensures StripFeeds(text) <= text && forall c :: c in text[|StripFeeds(text)|..] ==> c == '\n'
    ensures StripFeeds(text) != "" ==> StripFeeds(text)[|StripFeeds(text)| - 1] != '\n'
  {
    if text != "" && text[|text| - 1] == '\n' {
      var shorter := text[..|text| - 1];
      StripsFeeds(shorter);
      assert text[|StripFeeds(text)|..] == shorter[|StripFeeds(text)|..] + "\n";
    }
  }

  /** One edit, character by character: every line that ends at a line feed and starts with the key becomes
      the assignment and the others stay; where there is none, the assignment follows the text, with one
      line feed in place of those the text ends with. */
  lemma SetExactly(content: string, key: string, value: string)
    requires '\n' !in key && '\n' !in value
    ensures var old', new' := Feeds(content), Feeds(Set(content, key, value));
            Assigned(old', key) ==>
              && |new'| == |old'|
              && forall i :: 0 <= i < |old'| ==>
                   new'[i] == if key + "=" <= old'[i] then key + "='" + value + "'" else old'[i]
    ensures !Assigned(Feeds(content), key) ==>
              exists kept: string :: kept <= content && (kept == "" || kept[|kept| - 1] != '\n')
                && (forall c :: c in content[|kept|..] ==> c == '\n')
                && Set(content, key, value) == kept + "\n" + (key + "='" + value + "'") + "\n"
  {
    SomeOccurrence(Feeds(content), key);
    StripsFeeds(content);
    hide Feeds, JoinFeeds, StripFeeds, Occurrences;
    if Occurrences(Feeds(content), key) > 0 {
      ReplacedFeeds(content, key, value);
    } else {
      assert Set(content, key, value) == StripFeeds(content) + "\n" + (key + "='" + value + "'") + "\n";
    }
  }

  lemma NotEmpty(key: string)
    ensures !Assigns("", key)
  {
    assert |key + "="| > 0;
  }

  // ---------------------------------------------------------------- all updates at once

  /** The keys the parts start with. */
  ghost function Starts(parts: seq<string>): set<string> {
    set p | p in parts :: KeyOf(p)
  }

  /** The pattern finds the keys the parts start with. */
  ghost predicate Regular(parts: seq<string>) {
    forall p, k :: p in parts && IsKey(k) ==> (Assigns(p, k) <==> KeyOf(p) == k)
  }

  ghost function Values(values: map<string, string>): Updates {
    Updates([], values)
  }

  /** Each part that starts with a key of `w` replaced; what no part starts with follows. */
  ghost function NewParts(parts: seq<string>, w: map<string, string>, order: seq<string>,
                          values: map<string, string>): seq<string>
    requires forall k :: k in order ==> k in values
  {
    RewriteAll(parts, Values(w)) + Added(order, values, Starts(parts))
  }

  lemma AssignStarts(key: string, value: string, k: string)
    requires IsKey(key) && IsKey(k)
    ensures KeyOf(Assign(key, value)) == key && (Assigns(Assign(key, value), k) <==> key == k)
  {
    var line := Assign(key, value);
    assert line == key + "=" + ("'" + value + "'");
    KeyOfAssign(key, "'" + value + "'");
    if Assigns(line, k) {
      KeyOfAssign(k, line[|k| + 1..]);
      assert line == k + "=" + line[|k| + 1..];
    }
  }

  lemma {:induction false} AddedFrom(order: seq<string>, values: map<string, string>, seen: set<string>, line: string)
      returns (key: string)
    requires (forall k :: k in order ==> k in values) && line in Added(order, values, seen)
    ensures key in order && key !in seen && line == Assign(key, values[key])
  {
    hide Assign;
    var n := |order| - 1;
    if line in Added(order[..n], values, seen) {
      key := AddedFrom(order[..n], values, seen, line);
    } else {
      key := order[n];
    }
  }

  lemma AddedSnoc(order: seq<string>, values: map<string, string>, seen: set<string>)
    requires order != [] && forall k :: k in order ==> k in values
    ensures var n := |order| - 1;
            Added(order, values, seen)
            == Added(order[..n], values, seen) + if order[n] in seen then [] else [Assign(order[n], values[order[n]])]
  {
  }

  lemma AddedAssign(order: seq<string>, values: map<string, string>, seen: set<string>, key: string, i: nat)
    requires (forall k :: k in order ==> k in values && IsKey(k)) && IsKey(key) && key !in order
    requires i < |Added(order, values, seen)|
    ensures !Assigns(Added(order, values, seen)[i], key)
  {
    hide Assign, Assigns, IsKey;
    var k := AddedFrom(order, values, seen, Added(order, values, seen)[i]);
    AssignStarts(k, values[k], key);
  }

  lemma OldParts(parts: seq<string>, w: map<string, string>, init: seq<string>, values: map<string, string>,
                 key: string, value: string)
    requires Regular(parts) && (forall k :: k in w ==> IsKey(k)) && IsKey(key) && key !in init
    requires forall k :: k in init ==> k in values && IsKey(k)
    ensures var old' := NewParts(parts, w, init, values);
            && (forall i :: 0 <= i < |parts| ==>
                  && (Assigns(old'[i], key) <==> KeyOf(parts[i]) == key)
                  && Rewrite(parts[i], Values(w[key := value]))
                     == if KeyOf(parts[i]) == key then Assign(key, value) else old'[i])
            && forall i :: |parts| <= i < |old'| ==> !Assigns(old'[i], key)
  {
    hide Assign, KeyOf, Assigns, IsKey, Rewrite, Added, Regular, Starts;
    var old', added := NewParts(parts, w, init, values), Added(init, values, Starts(parts));
    forall i | 0 <= i < |parts|
      ensures Assigns(old'[i], key) <==> KeyOf(parts[i]) == key
      ensures Rewrite(parts[i], Values(w[key := value]))
           == if KeyOf(parts[i]) == key then Assign(key, value) else old'[i]
    {
      RewrittenStart(parts, i, w, key, value);
    }
    forall i | |parts| <= i < |old'| ensures !Assigns(old'[i], key) {
      assert old'[i] == added[i - |parts|];
      AddedAssign(init, values, Starts(parts), key, i - |parts|);
    }
  }

  /** Setting one more key adds it to the keys set. */
  lemma SetOneMore(parts: seq<string>, w: map<string, string>, order: seq<string>, values: map<string, string>)
    requires Regular(parts) && (forall k :: k in w ==> IsKey(k)) && (forall k :: k in order ==> k in values && IsKey(k))
    requires order != [] && order[|order| - 1] !in order[..|order| - 1]
    ensures var n := |order| - 1;
            var key, value := order[n], values[order[n]];
            SetParts(NewParts(parts, w, order[..n], values), key, value)
            == NewParts(parts, w[key := value], order, values)
  {
    hide Assign, KeyOf, Assigns, IsKey, Rewrite, Added, Regular, Starts;
    var n := |order| - 1;
    var key, init, value := order[n], order[..n], values[order[n]];
    var old' := NewParts(parts, w, init, values);
    AddedSnoc(order, values, Starts(parts));
    OldParts(parts, w, init, values, key, value);
    StartsOf(parts, key);
    if key in Starts(parts) {
      var i :| 0 <= i < |parts| && KeyOf(parts[i]) == key;
      assert old'[i] in old';
      assert Replaced(old', key, value) == NewParts(parts, w[key := value], order, values);
    } else {
      assert !Assigned(old', key);
      assert RewriteAll(parts, Values(w[key := value])) == RewriteAll(parts, Values(w));
    }
  }

  lemma StartsOf(parts: seq<string>, key: string)
    ensures key in Starts(parts) <==> exists i :: 0 <= i < |parts| && KeyOf(parts[i]) == key
  {
    hide KeyOf;
    if key in Starts(parts) {
      var p :| p in parts && KeyOf(p) == key;
      var i :| 0 <= i < |parts| && parts[i] == p;
    }
    assert forall i :: 0 <= i < |parts| ==> parts[i] in parts;
  }

  lemma RewrittenStart(parts: seq<string>, i: nat, w: map<string, string>, key: string, value: string)
    requires Regular(parts) && i < |parts| && IsKey(key) && (forall k :: k in w ==> IsKey(k))
    ensures Assigns(Rewrite(parts[i], Values(w)), key) <==> KeyOf(parts[i]) == key
    ensures Rewrite(parts[i], Values(w[key := value]))
         == if KeyOf(parts[i]) == key then Assign(key, value) else Rewrite(parts[i], Values(w))
  {
    hide Assign, KeyOf, Assigns, IsKey;
    var k := KeyOf(parts[i]);
    assert parts[i] in parts;
    if k in w {
      AssignStarts(k, w[k], key);
    }
  }

  /** The first `order` of the updates as a map. */
  ghost function Chosen(order: seq<string>, values: map<string, string>): map<string, string>
    requires forall k :: k in order ==> k in values
  {
    map k | k in order :: values[k]
  }

  lemma ChosenSnoc(order: seq<string>, values: map<string, string>)
    requires order != [] && forall k :: k in order ==> k in values
    ensures var n := |order| - 1;
            Chosen(order, values) == Chosen(order[..n], values)[order[n] := values[order[n]]]
  {
    assert forall k :: k in order <==> k in order[..|order| - 1] || k == order[|order| - 1];
  }

  /** What the file holds after the registry and the first `order` of the updates. */
  ghost function After(json: string, order: seq<string>, values: map<string, string>): map<string, string>
    requires forall k :: k in order ==> k in values
  {
    map[REGISTRY := json] + Chosen(order, values)
  }

  /** Every update goes through if `dotenv` accepts its value. */
  lemma {:induction false} SetAllSucceeds(content: string, order: seq<string>, values: map<string, string>)
    requires forall k :: k in order ==> k in values
    ensures SetAll(content, order, values).Fine? <==> forall k :: k in order ==> Printable(values[k])
  {
    hide Printable, Set;
    if order != [] {
      var n := |order| - 1;
      SetAllSucceeds(content, order[..n], values);
      assert forall k :: k in order <==> k in order[..n] || k == order[n];
    }
  }

  lemma NoUpdates(parts: seq<string>, json: string, values: map<string, string>)
    ensures NewParts(parts, After(json, [], values), [], values) == RewriteAll(parts, Values(map[REGISTRY := json]))
  {
    assert Chosen([], values) == map[] && map[REGISTRY := json] + map[] == map[REGISTRY := json];
  }

  lemma SetLast(parts: seq<string>, json: string, order: seq<string>, values: map<string, string>, text: string)
    requires Regular(parts) && order != [] && order[|order| - 1] !in order[..|order| - 1]
    requires forall k :: k in order ==> k in values && IsKey(k) && Printable(values[k])
    requires var init := order[..|order| - 1];
             Solid(Feeds(text)) == NewParts(parts, After(json, init, values), init, values)
    ensures var key := order[|order| - 1];
            Solid(Feeds(Set(text, key, values[key]))) == NewParts(parts, After(json, order, values), order, values)
  {
    hide Solid, Feeds, Regular, Set, SetParts, IsKey, Printable, NewParts, Chosen;
    var n := |order| - 1;
    KeyNoFeed(order[n], values[order[n]]);
    SetIsOnParts(text, order[n], values[order[n]]);
    ChosenSnoc(order, values);
    var w := After(json, order[..n], values);
    assert w[order[n] := values[order[n]]] == After(json, order, values);
    assert forall k :: k in w ==> IsKey(k) by {
      hide *;
      RegistryIsKey();
      ChosenKeys(json, order[..n], values);
    }
    SetOneMore(parts, w, order, values);
  }

  lemma ChosenKeys(json: string, order: seq<string>, values: map<string, string>)
    requires forall k :: k in order ==> k in values
    ensures forall k :: k in After(json, order, values) <==> k == REGISTRY || k in order
  {
  }

  /** The edits one after the other are one edit of the parts that are not empty. */
  lemma {:induction false} SetAllOnParts(order: seq<string>, u: Updates, parts: seq<string>, json: string,
                                         start: string)
    requires u.Valid() && order <= u.order && (forall k :: k in u.values ==> IsKey(k) && Printable(u.values[k]))
    requires Regular(parts) && Solid(Feeds(start)) == RewriteAll(parts, Values(map[REGISTRY := json]))
    ensures (forall k :: k in order ==> k in u.values) && SetAll(start, order, u.values).Fine?
    ensures Solid(Feeds(SetAll(start, order, u.values).value))
         == NewParts(parts, After(json, order, u.values), order, u.values)
  {
    hide Solid, Feeds, Regular, RewriteAll, Set, IsKey, Printable, NewParts, After, Updates.Valid;
    InOrder(u, order);
    if order == [] {
      NoUpdates(parts, json, u.values);
    } else {
      var n := |order| - 1;
      assert order[..n] <= u.order;
      SetAllOnParts(order[..n], u, parts, json, start);
      SetLast(parts, json, order, u.values, SetAll(start, order[..n], u.values).value);
    }
  }

  lemma KeyNoFeed(key: string, value: string)
    requires IsKey(key) && Printable(value)
    ensures '\n' !in key && '\n' !in value
  {
  }

  lemma InOrder(u: Updates, order: seq<string>)
    requires u.Valid() && order <= u.order
    ensures forall k :: k in order ==> k in u.values
    ensures order != [] ==> order[|order| - 1] !in order[..|order| - 1]
  {
  }
}
