/** The text edit of `save_registry` in ocpp-staging.py. Its pattern knows lines that end at line feeds
    only. */
module RegistryEdit {
  import opened TextLines
  import opened EnvFile

  /** text.rstrip("\n") */
  function StripFeeds(text: string): string {
    if text != "" && text[|text| - 1] == '\n' then StripFeeds(text[..|text| - 1]) else text
  }

  predicate Assigns(line: string, key: string) {
    key + "=" <= line
  }

  function Occurrences(parts: seq<string>, key: string): nat {
    if parts == [] then 0
    else Occurrences(parts[..|parts| - 1], key) + (if Assigns(parts[|parts| - 1], key) then 1 else 0)
  }

  /** `re.sub` of the lines that assign `key`. */
  function Replaced(parts: seq<string>, key: string, value: string): (r: seq<string>)
    ensures |r| == |parts| && forall i :: 0 <= i < |parts| ==>
            r[i] == if Assigns(parts[i], key) then Assign(key, value) else parts[i]
  {
    seq(|parts|, i requires 0 <= i < |parts| => if Assigns(parts[i], key) then Assign(key, value) else parts[i])
  }

  /** The body of the loop over the updates. */
  function Set(content: string, key: string, value: string): string {
    var parts := Feeds(content);
    if Occurrences(parts, key) > 0 then JoinFeeds(Replaced(parts, key, value))
    else StripFeeds(content) + "\n" + Assign(key, value) + "\n"
  }

  /** What `dotenv` accepts. */
  predicate Printable(value: string) {
    '\'' !in value && '\r' !in value && '\n' !in value
  }

  const REGISTRY := "OCPP_CHARGER_REGISTRY_JSON"

  function SetAll(content: string, order: seq<string>, values: map<string, string>): Outcome<string>
    requires forall k :: k in order ==> k in values
  {
    if order == [] then Fine(content)
    else
      match SetAll(content, order[..|order| - 1], values)
      case Fails(failure) => Fails(failure)
      case Fine(text) =>
        var key := order[|order| - 1];
        if Printable(values[key]) then Fine(Set(text, key, values[key])) else Fails(UnsupportedValue)
  }

  /** The new content of the private file. */
  function Saved(content: string, json: string, u: Updates): Outcome<string>
    requires forall k :: k in u.order ==> k in u.values
  {
    if !Printable(json) then Fails(UnsupportedValue)
    else if Occurrences(Feeds(content), REGISTRY) != 1 then Fails(InvalidSyntax)
    else SetAll(JoinFeeds(Replaced(Feeds(content), REGISTRY, json)), u.order, u.values)
  }

  lemma RegistryIsKey()
    ensures IsKey(REGISTRY)
  {
  }

  /** The loop of `save_registry` over the updates. */
  method SaveRegistry(content: string, json: string, u: Updates) returns (r: Outcome<string>)
    requires u.Valid()
    ensures r == Saved(content, json, u)
  {
    if !Printable(json) {
      return Fails(UnsupportedValue);
    }
    var parts := Feeds(content);
    if Occurrences(parts, REGISTRY) != 1 {
      return Fails(InvalidSyntax);
    }
    var start := JoinFeeds(Replaced(parts, REGISTRY, json));
    var text := start;
    for i := 0 to |u.order|
      invariant SetAll(start, u.order[..i], u.values) == Fine(text)
    {
      var key := u.order[i];
      assert u.order[..i + 1][..i] == u.order[..i];
      if !Printable(u.values[key]) {
        SetAllFails(start, u.order, u.values, i + 1);
        return Fails(UnsupportedValue);
      }
      text := Set(text, key, u.values[key]);
    }
    assert u.order[..|u.order|] == u.order;
    r := Fine(text);
  }

  lemma {:induction false} SetAllFails(content: string, order: seq<string>, values: map<string, string>, i: nat)
    requires i <= |order| && (forall k :: k in order ==> k in values) && SetAll(content, order[..i], values).Fails?
    ensures SetAll(content, order, values) == SetAll(content, order[..i], values)
    decreases |order| - i
  {
    if i == |order| {
      assert order[..i] == order;
    } else {
      assert order[..i + 1][..i] == order[..i];
      SetAllFails(content, order, values, i + 1);
    }
  }
}
