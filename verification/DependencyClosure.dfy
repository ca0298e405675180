/** The worklist of lock_dependencies.py against the least closure of the project's requirements. */
module DependencyClosure {
  import opened Wrappers

  /** A requirement by its canonical name and its extras: the identity the script remembers. */
  datatype Requirement = Requirement(name: string, extras: set<string>)

  /** A dependency of a distribution; `applies(extra)` is its marker evaluated on linux, None stands for no marker. */
  datatype Dependency = Dependency(requirement: Requirement, marker: Option<string -> bool>)

  datatype Distribution = Distribution(version: string, dependencies: seq<Dependency>)

  type Environment = map<string, Distribution>

  /** The marker holds for an extra that was asked for, or for none. */
  ghost predicate Applies(dependency: Dependency, extras: set<string>) {
    dependency.marker.None?
    || exists extra :: extra in (if extras == {} then {""} else extras) && dependency.marker.value(extra)
  }

  /** `b` is pulled in by `a`. */
  ghost predicate Pulls(installed: Environment, a: Requirement, b: Requirement) {
    a.name in installed &&
    exists i :: 0 <= i < |installed[a.name].dependencies|
      && Applies(installed[a.name].dependencies[i], a.extras) && installed[a.name].dependencies[i].requirement == b
  }

  ghost predicate IsChain(installed: Environment, path: seq<Requirement>) {
    path != [] && forall k :: 0 <= k < |path| - 1 ==> Pulls(installed, path[k], path[k + 1])
  }

  /** Reached from a root through installed distributions. */
  ghost predicate Needed(installed: Environment, roots: seq<Requirement>, r: Requirement) {
    exists path :: IsChain(installed, path) && path[0] in roots && path[|path| - 1] == r
  }

  // ---------------------------------------------------------------- the closure is the least one

  lemma RootNeeded(installed: Environment, roots: seq<Requirement>, r: Requirement)
    requires r in roots
    ensures Needed(installed, roots, r)
  {
    assert IsChain(installed, [r]) && [r][0] in roots;
  }

  lemma PulledNeeded(installed: Environment, roots: seq<Requirement>, a: Requirement, b: Requirement)
    requires Needed(installed, roots, a) && Pulls(installed, a, b)
    ensures Needed(installed, roots, b)
  {
    var path :| IsChain(installed, path) && path[0] in roots && path[|path| - 1] == a;
    assert IsChain(installed, path + [b]) && (path + [b])[0] in roots;
  }

  ghost predicate Closed(installed: Environment, s: set<Requirement>) {
    forall a, b :: a in s && Pulls(installed, a, b) ==> b in s
  }

  lemma {:induction false} ClosedHoldsChain(installed: Environment, s: set<Requirement>, path: seq<Requirement>)
    requires IsChain(installed, path) && path[0] in s && Closed(installed, s)
    ensures path[|path| - 1] in s
    decreases |path|
  {
    if |path| > 1 {
      assert Pulls(installed, path[0], path[0 + 1]);
      var rest := path[1..];
      forall k | 0 <= k < |rest| - 1 ensures Pulls(installed, rest[k], rest[k + 1]) {
        assert Pulls(installed, path[k + 1], path[k + 1 + 1]);
      }
      ClosedHoldsChain(installed, s, rest);
    }
  }

  /** Every closed set with the roots holds whatever is needed. */
  lemma ClosureIsLeast(installed: Environment, roots: seq<Requirement>, s: set<Requirement>)
    requires Closed(installed, s) && forall r :: r in roots ==> r in s
    ensures forall r :: Needed(installed, roots, r) ==> r in s
  {
    forall r | Needed(installed, roots, r) ensures r in s {
      var path :| IsChain(installed, path) && path[0] in roots && path[|path| - 1] == r;
      ClosedHoldsChain(installed, s, path);
    }
  }

  // ---------------------------------------------------------------- the worklist

  /** Everything that can ever be pending. */
  ghost function Universe(installed: Environment, roots: seq<Requirement>): set<Requirement> {
    (set r | r in roots)
    + (set name, i | name in installed
        && 0 <= i < |installed[name].dependencies| :: installed[name].dependencies[i].requirement)
  }

  ghost predicate Sound(installed: Environment, roots: seq<Requirement>, pending: seq<Requirement>,
                        seen: set<Requirement>) {
    && (forall r :: r in pending ==> Needed(installed, roots, r) && r in Universe(installed, roots))
    && (forall r :: r in seen ==> Needed(installed, roots, r) && r in Universe(installed, roots) && r.name in installed)
  }

  /** What is seen is expanded, up to what is still pending. */
  ghost predicate Complete(installed: Environment, roots: seq<Requirement>, pending: seq<Requirement>,
                           seen: set<Requirement>) {
    && (forall r :: r in roots ==> r in seen || r in pending)
    && (forall a, b :: a in seen && Pulls(installed, a, b) ==> b in seen || b in pending)
  }

  ghost predicate PinsAre(installed: Environment, pins: map<string, string>, seen: set<Requirement>) {
    && (forall r :: r in seen ==> r.name in pins)
    && (forall name :: name in pins ==>
        name in installed && pins[name] == installed[name].version && exists r :: r in seen && r.name == name)
  }

  /** The dependencies of one distribution that its requirement pulls in, appended in order. */
  method Expand(installed: Environment, r: Requirement, pending: seq<Requirement>) returns (more: seq<Requirement>)
    requires r.name in installed
    ensures pending <= more
    ensures forall b :: b in more[|pending|..] <==> Pulls(installed, r, b)
  {
    var dependencies := installed[r.name].dependencies;
    more := pending;
    for i := 0 to |dependencies|
      invariant pending <= more
      invariant forall b :: b in more[|pending|..] <==>
        exists k :: 0 <= k < i && Applies(dependencies[k], r.extras) && dependencies[k].requirement == b
    {
      var parsed := dependencies[i];
      var chosen := MarkerHolds(parsed, r.extras);
      ghost var before := more[|pending|..];
      if chosen {
        more := more + [parsed.requirement];
        assert more[|pending|..] == before + [parsed.requirement];
      }
      forall b ensures b in more[|pending|..] <==>
        exists k :: 0 <= k < i + 1 && Applies(dependencies[k], r.extras) && dependencies[k].requirement == b
      {
        if chosen && b == parsed.requirement {
          assert Applies(dependencies[i], r.extras);
        }
      }
    }
  }

  /** `not parsed.marker or any(parsed.marker.evaluate(...) for extra in ...)` */
  method MarkerHolds(dependency: Dependency, extras: set<string>) returns (holds: bool)
    ensures holds == Applies(dependency, extras)
    ensures dependency.marker.None? ==> holds
    ensures dependency.marker.Some? && extras == {} ==> holds == dependency.marker.value("")
    ensures dependency.marker.Some? && extras != {} ==>
              (holds <==> exists extra :: extra in extras && dependency.marker.value(extra))
  {
    if dependency.marker.None? {
      return true;
    }
    var left := if extras == {} then {""} else extras;
    ghost var all := left;
    while left != {}
      invariant left <= all
      invariant forall extra :: extra in all && extra !in left ==> !dependency.marker.value(extra)
      decreases left
    {
      var extra :| extra in left;
      if dependency.marker.value(extra) {
        return true;
      }
      left := left - {extra};
    }
    holds := false;
  }

  /** The loop: None stands for the error raised on a distribution that is not installed. */
  method Lock(installed: Environment, roots: seq<Requirement>) returns (pins: Option<map<string, string>>)
    ensures pins.None? <==> exists r :: Needed(installed, roots, r) && r.name !in installed
    ensures pins.Some? ==>
              forall name :: name in pins.value <==> exists r :: Needed(installed, roots, r) && r.name == name
    ensures pins.Some? ==> forall name :: name in pins.value ==> pins.value[name] == installed[name].version
  {
    hide Needed, Universe, Pulls, Sound, Complete, PinsAre;
    var pending, seen, pinned: map<string, string> := roots, {}, map[];
    Begin(installed, roots);
    while pending != []
      invariant Sound(installed, roots, pending, seen)
      invariant Complete(installed, roots, pending, seen)
      invariant PinsAre(installed, pinned, seen)
      decreases Universe(installed, roots) - seen, |pending|
    {
      var last := |pending| - 1;
      var requirement := pending[last];
      if requirement in seen {
        PopSeen(installed, roots, pending, seen);
        pending := pending[..last];
        continue;
      }
      assert Needed(installed, roots, requirement) by {
        PendingNeeded(installed, roots, pending, seen);
      }
      if requirement.name !in installed {
        return None;
      }
      ghost var was := pending;
      pending := Expand(installed, requirement, pending[..last]);
      Expanded(installed, roots, was, seen, requirement, pending);
      Shrinks(installed, roots, seen, requirement);
      Pinned(installed, pinned, seen, requirement);
      seen := seen + {requirement};
      pinned := pinned[requirement.name := installed[requirement.name].version];
    }
    Finished(installed, roots, seen, pinned);
    pins := Some(pinned);
  }

  lemma Shrinks(installed: Environment, roots: seq<Requirement>, seen: set<Requirement>, r: Requirement)
    requires r in Universe(installed, roots) && r !in seen
    ensures Universe(installed, roots) - (seen + {r}) < Universe(installed, roots) - seen
  {
    assert r in Universe(installed, roots) - seen;
  }

  lemma Begin(installed: Environment, roots: seq<Requirement>)
    ensures Sound(installed, roots, roots, {}) && Complete(installed, roots, roots, {}) && PinsAre(installed, map[], {})
  {
    forall r | r in roots ensures Needed(installed, roots, r) {
      RootNeeded(installed, roots, r);
    }
  }

  lemma PendingNeeded(installed: Environment, roots: seq<Requirement>, pending: seq<Requirement>,
                      seen: set<Requirement>)
    requires pending != [] && Sound(installed, roots, pending, seen)
    ensures Needed(installed, roots, pending[|pending| - 1])
  {
    assert pending[|pending| - 1] in pending;
  }

  lemma Pinned(installed: Environment, pins: map<string, string>, seen: set<Requirement>, r: Requirement)
    requires PinsAre(installed, pins, seen) && r.name in installed
    ensures PinsAre(installed, pins[r.name := installed[r.name].version], seen + {r})
  {
    var pins' := pins[r.name := installed[r.name].version];
    forall name | name in pins' ensures exists q :: q in seen + {r} && q.name == name {
      if name == r.name {
        assert r in seen + {r};
      } else {
        var q :| q in seen && q.name == name;
        assert q in seen + {r};
      }
    }
  }

  /** With nothing pending, what was seen is exactly what is needed. */
  lemma Finished(installed: Environment, roots: seq<Requirement>, seen: set<Requirement>, pins: map<string, string>)
    requires Sound(installed, roots, [], seen) && Complete(installed, roots, [], seen) && PinsAre(installed, pins, seen)
    ensures forall r :: Needed(installed, roots, r) ==> r.name in installed
    ensures forall name :: name in pins <==> exists r :: Needed(installed, roots, r) && r.name == name
    ensures forall name :: name in pins ==> name in installed && pins[name] == installed[name].version
  {
    hide Needed, Pulls;
    ClosureIsLeast(installed, roots, seen);
  }

  lemma PopSeen(installed: Environment, roots: seq<Requirement>, pending: seq<Requirement>, seen: set<Requirement>)
    requires pending != [] && pending[|pending| - 1] in seen
    requires Sound(installed, roots, pending, seen) && Complete(installed, roots, pending, seen)
    ensures Sound(installed, roots, pending[..|pending| - 1], seen)
            && Complete(installed, roots, pending[..|pending| - 1], seen)
  {
    assert forall r :: r in pending ==> r in pending[..|pending| - 1] || r == pending[|pending| - 1];
  }

  lemma PulledInUniverse(installed: Environment, roots: seq<Requirement>, a: Requirement, b: Requirement)
    requires Pulls(installed, a, b)
    ensures b in Universe(installed, roots)
  {
  }

  lemma Expanded(installed: Environment, roots: seq<Requirement>, was: seq<Requirement>, seen: set<Requirement>,
                 r: Requirement, pending: seq<Requirement>)
    requires was != [] && r == was[|was| - 1] && r.name in installed
    requires Sound(installed, roots, was, seen) && Complete(installed, roots, was, seen)
    requires was[..|was| - 1] <= pending && forall b :: b in pending[|was| - 1..] <==> Pulls(installed, r, b)
    ensures Sound(installed, roots, pending, seen + {r}) && Complete(installed, roots, pending, seen + {r})
    ensures r in Universe(installed, roots)
  {
    hide Pulls, Needed, Universe;
    var kept, added := was[..|was| - 1], pending[|was| - 1..];
    assert pending == kept + added;
    assert forall b :: b in was ==> b in kept || b == r;
    forall b | b in added ensures Needed(installed, roots, b) && b in Universe(installed, roots) {
      assert r in was;
      PulledNeeded(installed, roots, r, b);
      PulledInUniverse(installed, roots, r, b);
    }
  }
}
