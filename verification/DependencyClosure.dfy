/** The transitive dependencies of a requirements file, resolved from installed
    package metadata by a worklist. */
module DependencyClosure {
  import opened Prelude
  import opened HashChain

  datatype Requirement = Requirement(name: Token, extras: set<string>, marker: Option<string>)

  /** A package together with the extras asked of it. */
  datatype Key = Key(name: Token, extras: set<string>)

  /** What is installed, and how a marker evaluates for one value of `extra`. */
  datatype Environment = Environment(installed: map<Token, seq<Requirement>>, holds: (string, string) -> bool)

  function KeyOf(requirement: Requirement): Key {
    Key(requirement.name, requirement.extras)
  }

  /** _marker_applies: for any of the extras, or for the empty one if there are none. */
  predicate Applies(e: Environment, requirement: Requirement, extras: set<string>) {
    requirement.marker.None? ||
    (if extras == {} then e.holds(requirement.marker.value, "")
     else exists extra :: extra in extras && e.holds(requirement.marker.value, extra))
  }

  /** The keys that a key's package asks for. */
  ghost function Successors(e: Environment, key: Key): set<Key> {
    if key.name in e.installed then
      set r | r in e.installed[key.name] && Applies(e, r, key.extras) :: KeyOf(r)
    else {}
  }

  /** Contains the direct requirements and is closed under applicable ones. */
  ghost predicate Closed(e: Environment, direct: seq<Requirement>, keys: set<Key>) {
    && (forall r :: r in direct ==> KeyOf(r) in keys)
    && (forall k :: k in keys ==> Successors(e, k) <= keys)
  }

  /** In every closed set: needed, whatever else is. */
  ghost predicate Needed(e: Environment, direct: seq<Requirement>, keys: set<Key>) {
    forall s :: Closed(e, direct, s) ==> keys <= s
  }

  ghost predicate LeastClosed(e: Environment, direct: seq<Requirement>, keys: set<Key>) {
    Closed(e, direct, keys) && Needed(e, direct, keys)
  }

  ghost function NamesOf(keys: set<Key>): set<Token> {
    set k | k in keys :: k.name
  }

  /** Every key that can ever be queued; finite, so that the worklist terminates on
      cyclic requirements too. */
  ghost function Universe(e: Environment, direct: seq<Requirement>): set<Key> {
    (set r | r in direct :: KeyOf(r)) +
    (set n, r | n in e.installed && r in e.installed[n] :: KeyOf(r))
  }

  ghost function Queued(queue: seq<Key>): set<Key> {
    set k | k in queue
  }

  function Keys(requirements: seq<Requirement>): (keys: seq<Key>)
    ensures |keys| == |requirements| && forall i :: 0 <= i < |keys| ==> keys[i] == KeyOf(requirements[i])
  {
    if requirements == [] then [] else [KeyOf(requirements[0])] + Keys(requirements[1..])
  }

  /** The names of the least closed set, all of them installed. */
  ghost predicate ResolvedBy(e: Environment, direct: seq<Requirement>, closure: set<Key>, names: set<Token>) {
    LeastClosed(e, direct, closure) && names == NamesOf(closure) && names <= e.installed.Keys
  }

  /** A needed package that is not installed. */
  ghost predicate MissingIn(e: Environment, direct: seq<Requirement>, needed: set<Key>, name: Token) {
    Needed(e, direct, needed) && name in NamesOf(needed) && name !in e.installed
  }

  /** Some key in the set asks for this one through a requirement whose marker applies. */
  ghost predicate AskedFor(e: Environment, keys: set<Key>, k: Key) {
    exists j, r :: j in keys && j.name in e.installed && r in e.installed[j.name] && Applies(e, r, j.extras)
                   && k == Key(r.name, r.extras)
  }

  /** The least closed set holds each applicable requirement together with the extras
      asked of it, and nothing that no requirement asks for. */
  lemma ClosureIsJustified(e: Environment, direct: seq<Requirement>, keys: set<Key>, k: Key)
    requires LeastClosed(e, direct, keys)
    ensures k in keys <==> (exists r :: r in direct && k == Key(r.name, r.extras)) || AskedFor(e, keys, k)
  {
    if !(exists r :: r in direct && k == Key(r.name, r.extras)) && !AskedFor(e, keys, k) {
      forall r | r in direct ensures KeyOf(r) in keys - {k} {
      }
      forall j | j in keys - {k} ensures Successors(e, j) <= keys - {k} {
      }
      assert Closed(e, direct, keys - {k});
    }
    forall r | r in direct ensures Key(r.name, r.extras) in keys {
      assert KeyOf(r) in keys;
    }
    if AskedFor(e, keys, k) {
      var j, r :| j in keys && j.name in e.installed && r in e.installed[j.name] && Applies(e, r, j.extras)
                  && k == Key(r.name, r.extras);
      assert KeyOf(r) in Successors(e, j);
    }
  }

  /** There is at most one resolution, and none if a needed package is missing. */
  lemma ResolutionIsUnique(
    e: Environment, direct: seq<Requirement>, a: set<Key>, b: set<Key>, names: set<Token>, others: set<Token>)
    requires ResolvedBy(e, direct, a, names)
    ensures ResolvedBy(e, direct, b, others) ==> names == others
    ensures forall name :: !MissingIn(e, direct, b, name)
  {
    if ResolvedBy(e, direct, b, others) {
      assert a <= b && b <= a;
    }
    forall name ensures !MissingIn(e, direct, b, name) {
      assert Needed(e, direct, b) ==> b <= a;
    }
  }

  lemma QueuedPop(queue: seq<Key>)
    requires queue != []
    ensures Queued(queue) == Queued(queue[..|queue| - 1]) + {queue[|queue| - 1]}
  {
    assert queue == queue[..|queue| - 1] + [queue[|queue| - 1]];
  }

  lemma QueuedConcat(a: seq<Key>, b: seq<Key>)
    ensures Queued(a + b) == Queued(a) + Queued(b)
  {
  }

  lemma NamesAdd(keys: set<Key>, key: Key)
    ensures NamesOf(keys + {key}) == NamesOf(keys) + {key.name}
  {
    forall n | n in NamesOf(keys) + {key.name} ensures n in NamesOf(keys + {key}) {
      var k :| k in keys + {key} && k.name == n;
    }
  }

  /** Everything pending or visited is needed, and nothing asked for is missing. */
  ghost predicate Progress(e: Environment, direct: seq<Requirement>, visited: set<Key>, pending: set<Key>) {
    && visited + pending <= Universe(e, direct)
    && Needed(e, direct, visited + pending)
    && (forall r :: r in direct ==> KeyOf(r) in visited + pending)
    && (forall k :: k in visited ==> Successors(e, k) <= visited + pending)
  }

  lemma Start(e: Environment, direct: seq<Requirement>, queue: seq<Key>)
    requires queue == Keys(direct)
    ensures Progress(e, direct, {}, Queued(queue))
  {
    forall k | k in queue ensures k in Universe(e, direct) && exists r :: r in direct && KeyOf(r) == k {
      var i :| 0 <= i < |queue| && queue[i] == k;
      assert direct[i] in direct;
    }
    forall r | r in direct ensures KeyOf(r) in Queued(queue) {
      var i :| 0 <= i < |direct| && direct[i] == r;
      assert queue[i] in queue;
    }
  }

  lemma Visit(e: Environment, direct: seq<Requirement>, visited: set<Key>, pending: set<Key>, key: Key)
    requires Progress(e, direct, visited, pending + {key})
    ensures Progress(e, direct, visited + {key}, pending + Successors(e, key))
  {
    SuccessorsInUniverse(e, direct, key);
    NeededMore(e, direct, visited + (pending + {key}), key);
    assert visited + {key} + (pending + Successors(e, key)) == visited + (pending + {key}) + Successors(e, key);
  }

  lemma Measure(e: Environment, direct: seq<Requirement>, visited: set<Key>, key: Key)
    requires key !in visited && key in Universe(e, direct)
    ensures |Universe(e, direct) - (visited + {key})| < |Universe(e, direct) - visited|
  {
    SmallerSet(Universe(e, direct) - (visited + {key}), Universe(e, direct) - visited);
  }

  /** _dependency_closure. It terminates on every finite requirement graph and gives
      exactly the names of the least set of (package, extras) pairs that contains the
      direct requirements and is closed under applicable ones; it fails exactly when
      that set needs a package that is not installed. */
  method Resolve(e: Environment, direct: seq<Requirement>)
    returns (result: Result<set<Token>, Token>)
    ensures result.Ok? ==> exists closure :: ResolvedBy(e, direct, closure, result.value)
    ensures result.Err? ==> exists needed :: MissingIn(e, direct, needed, result.error)
  {
    var queue := Keys(direct);
    var visited: set<Key> := {};
    var names: set<Token> := {};
    var missing: Option<Token> := None;
    Start(e, direct, queue);
    while queue != [] && missing.None?
      invariant Progress(e, direct, visited, Queued(queue))
      invariant names == NamesOf(visited)
      invariant missing.None? ==> names <= e.installed.Keys
      invariant missing.Some? ==> missing.value in names && missing.value !in e.installed
      decreases missing.None?, |Universe(e, direct) - visited|, |queue|
    {
      var key := queue[|queue| - 1];
      var rest := queue[..|queue| - 1];
      QueuedPop(queue);
      if key in visited {
        Skip(e, direct, visited, Queued(rest), key);
        queue := rest;
      } else {
        Visit(e, direct, visited, Queued(rest), key);
        Measure(e, direct, visited, key);
        NamesAdd(visited, key);
        visited := visited + {key};
        names := names + {key.name};
        var more := Applicable(e, key);
        QueuedConcat(rest, more);
        queue := rest + more;
        if key.name !in e.installed {
          missing := Some(key.name);
        }
      }
    }
    NeededPart(e, direct, visited, Queued(queue));
    if missing.Some? {
      assert MissingIn(e, direct, visited, missing.value);
      result := Err(missing.value);
    } else {
      Finish(e, direct, visited);
      assert ResolvedBy(e, direct, visited, names);
      result := Ok(names);
    }
  }

  lemma Skip(e: Environment, direct: seq<Requirement>, visited: set<Key>, pending: set<Key>, key: Key)
    requires Progress(e, direct, visited, pending + {key}) && key in visited
    ensures Progress(e, direct, visited, pending)
  {
    assert visited + (pending + {key}) == visited + pending;
  }

  lemma NeededPart(e: Environment, direct: seq<Requirement>, visited: set<Key>, pending: set<Key>)
    requires Progress(e, direct, visited, pending)
    ensures Needed(e, direct, visited)
  {
    forall s | Closed(e, direct, s) ensures visited <= s {
      assert visited + pending <= s;
    }
  }

  lemma Finish(e: Environment, direct: seq<Requirement>, visited: set<Key>)
    requires Progress(e, direct, visited, {})
    ensures LeastClosed(e, direct, visited)
  {
    assert visited + {} == visited;
  }

  lemma SmallerSet<T>(a: set<T>, b: set<T>)
    requires a < b
    ensures |a| < |b|
  {
    assert b == a + (b - a) && b - a != {};
  }

  lemma NeededMore(e: Environment, direct: seq<Requirement>, keys: set<Key>, key: Key)
    requires Needed(e, direct, keys) && key in keys
    ensures Needed(e, direct, keys + Successors(e, key))
  {
    forall s | Closed(e, direct, s) ensures keys + Successors(e, key) <= s {
      assert key in s;
    }
  }

  lemma SuccessorsInUniverse(e: Environment, direct: seq<Requirement>, key: Key)
    ensures Successors(e, key) <= Universe(e, direct)
  {
  }

  /** _marker_applies: the marker is evaluated once for each extra, or once for the
      empty text when there is none. */
  method MarkerApplies(e: Environment, requirement: Requirement, extras: set<string>) returns (applies: bool)
    ensures applies <==> Applies(e, requirement, extras)
  {
    if requirement.marker.None? {
      return true;
    }
    var values := if extras == {} then {""} else extras;
    applies := false;
    while values != {}
      invariant applies || (exists v :: v in values && e.holds(requirement.marker.value, v)) <==>
                Applies(e, requirement, extras)
      decreases |values|
    {
      var v :| v in values;
      values := values - {v};
      applies := applies || e.holds(requirement.marker.value, v);
    }
  }

  /** A marker that applies for some extras applies for more of them too, so that
      asking a package for more extras never drops what it asks for. */
  lemma MoreExtrasAskForMore(e: Environment, name: Token, extras: set<string>, more: set<string>)
    requires extras != {} && extras <= more
    ensures Successors(e, Key(name, extras)) <= Successors(e, Key(name, more))
  {
    if name in e.installed {
      forall r | r in e.installed[name] && Applies(e, r, extras) ensures Applies(e, r, more) {
      }
    }
  }

  /** The inner loop: the requirements whose markers apply. */
  method Applicable(e: Environment, key: Key) returns (more: seq<Key>)
    ensures Queued(more) == Successors(e, key)
  {
    more := [];
    var metadata := if key.name in e.installed then e.installed[key.name] else [];
    for i := 0 to |metadata|
      invariant Queued(more) == set r | r in metadata[..i] && Applies(e, r, key.extras) :: KeyOf(r)
    {
      assert metadata[..i + 1] == metadata[..i] + [metadata[i]];
      var applies := MarkerApplies(e, metadata[i], key.extras);
      if applies {
        assert Queued(more + [KeyOf(metadata[i])]) == Queued(more) + {KeyOf(metadata[i])};
        more := more + [KeyOf(metadata[i])];
      }
    }
    assert metadata[..|metadata|] == metadata;
  }
}
