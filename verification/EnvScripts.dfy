/** `read_env` and `update_env` as the loops they are. */
module EnvScripts {
  import opened TextLines
  import opened EnvFile

  lemma {:induction false} FailureStays(lines: seq<string>, i: nat)
    requires i <= |lines| && ReadLines(lines[..i]).Fails?
    ensures ReadLines(lines) == ReadLines(lines[..i])
    decreases |lines| - i
  {
    if i == |lines| {
      assert lines[..i] == lines;
    } else {
      assert lines[..i + 1][..i] == lines[..i];
      FailureStays(lines, i + 1);
    }
  }

  /** The loop of `read_env`. */
  method ReadEnv(text: string) returns (r: Outcome<map<string, string>>)
    ensures r == Read(text)
  {
    var lines := SplitLines(text);
    var result: map<string, string> := map[];
    for i := 0 to |lines|
      invariant ReadLines(lines[..i]) == Fine(result)
    {
      var line := lines[i];
      assert lines[..i + 1][..i] == lines[..i];
      if IsComment(line) {
        continue;
      }
      var n := EqualsAt(line);
      var key := line[..n];
      if n == |line| || !IsKey(key) {
        FailureStays(lines, i + 1);
        return Fails(InvalidSyntax);
      }
      if key in result {
        FailureStays(lines, i + 1);
        return Fails(DuplicateKey);
      }
      var value := Strip(line[n + 1..]);
      if '$' in value && !Quoted(value, '\'') {
        FailureStays(lines, i + 1);
        return Fails(UnquotedDollar);
      }
      result := result[key := Unquote(value)];
    }
    assert lines[..|lines|] == lines;
    r := Fine(result);
  }

  /** The loop of `update_env` over the old lines. */
  method RewriteLines(lines: seq<string>, u: Updates) returns (repeated: bool, seen: set<string>, result: seq<string>)
    ensures repeated <==> Repeats(lines, u)
    ensures !repeated ==> seen == Seen(lines, u) && result == RewriteAll(lines, u)
  {
    hide Assign, KeyOf;
    repeated, seen, result := false, {}, [];
    for i := 0 to |lines|
      invariant !Repeats(lines[..i], u)
      invariant seen == Seen(lines[..i], u) && result == RewriteAll(lines[..i], u)
    {
      var key := KeyOf(lines[i]);
      assert lines[..i + 1] == lines[..i] + [lines[i]];
      SeenSnoc(lines[..i], lines[i], u);
      if key in u.values {
        if key in seen {
          var line :| line in lines[..i] && KeyOf(line) == key;
          var j :| 0 <= j < i && lines[j] == line;
          assert Repeats(lines, u);
          repeated := true;
          return;
        }
        seen := seen + {key};
        result := result + [Assign(key, u.values[key])];
      } else {
        result := result + [lines[i]];
      }
      RepeatsSnoc(lines[..i], lines[i], u);
    }
    assert lines[..|lines|] == lines;
  }

  /** `update_env` */
  method UpdateEnv(text: string, u: Updates) returns (r: Outcome<string>)
    requires u.Valid()
    ensures r == Update(text, u)
  {
    hide Assign, KeyOf, Seen, Repeats, RewriteAll;
    var lines := SplitLines(text);
    var repeated, seen, result := RewriteLines(lines, u);
    if repeated {
      return Fails(DuplicateKey);
    }
    ghost var rewritten := result;
    for i := 0 to |u.order|
      invariant result == rewritten + Added(u.order[..i], u.values, seen)
    {
      var key := u.order[i];
      assert u.order[..i + 1][..i] == u.order[..i];
      if key !in seen {
        result := result + [Assign(key, u.values[key])];
      }
    }
    assert u.order[..|u.order|] == u.order;
    for i := 0 to |u.order|
      invariant forall k :: k in u.order[..i] ==> Supported(u.values[k])
    {
      if !Supported(u.values[u.order[i]]) {
        return Fails(UnsupportedValue);
      }
    }
    r := Fine(Written(result));
  }
}
