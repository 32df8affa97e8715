/**
 * The two dependency worklists of the licence generator
 * (scripts/generate-third-party-licenses.py). Orders that do not affect the result, such as the
 * enumeration of a set, are whatever order the caller's sequence has.
 */
module DependencyClosure {
  import opened Basics

  function Members(ids: seq<string>): set<string> {
    set id | id in ids
  }

  /** `next` never leads out of `s`. */
  ghost predicate Closed(s: set<string>, next: string -> set<string>) {
    forall x | x in s :: next(x) <= s
  }

  /** The least set that holds the roots and is closed under `next`. */
  ghost predicate IsLeastClosed(s: set<string>, roots: set<string>, next: string -> set<string>) {
    && roots <= s
    && Closed(s, next)
    && forall t | roots <= t && Closed(t, next) :: s <= t
  }

  /** Every closed set holding the roots has a bad member: no closure could have succeeded. */
  ghost predicate Unavoidable(roots: set<string>, next: string -> set<string>, bad: string -> bool) {
    forall t | roots <= t && Closed(t, next) :: exists x :: x in t && bad(x)
  }

  /** The result is determined by the graph alone, so the order of popping does not matter. */
  lemma LeastClosedIsUnique(a: set<string>, b: set<string>, roots: set<string>, next: string -> set<string>)
    requires IsLeastClosed(a, roots, next) && IsLeastClosed(b, roots, next)
    ensures a == b
  {
    assert a <= b && b <= a;
  }

  // ----- Cargo

  datatype DependencyKind = Normal | Build | Dev

  /** `kinds` is absent when the metadata does not give a list. */
  datatype CargoDependency = CargoDependency(pkg: string, kinds: Option<seq<DependencyKind>>)

  type CargoGraph = map<string, seq<CargoDependency>>

  predicate HasKinds(d: CargoDependency) {
    d.kinds.Some? && d.kinds.value != []
  }

  predicate Ships(d: CargoDependency) {
    HasKinds(d) && (Normal in d.kinds.value || Build in d.kinds.value)
  }

  ghost predicate CargoBad(g: CargoGraph, id: string) {
    id !in g || exists d :: d in g[id] && !HasKinds(d)
  }

  ghost function CargoNext(g: CargoGraph, id: string): set<string> {
    if CargoBad(g, id) then {} else set i | 0 <= i < |g[id]| && Ships(g[id][i]) :: g[id][i].pkg
  }

  ghost function CargoUniverse(g: CargoGraph, workspace: seq<string>): set<string> {
    Members(workspace) + (set id, i | id in g && 0 <= i < |g[id]| :: g[id][i].pkg)
  }

  method SelectedCargoPackages(g: CargoGraph, workspace: seq<string>) returns (selected: Result<set<string>>)
    ensures selected.Ok? ==> IsLeastClosed(selected.value, Members(workspace), id => CargoNext(g, id))
    ensures selected.Ok? ==> forall id | id in selected.value :: !CargoBad(g, id)
    ensures selected.Err? ==> Unavoidable(Members(workspace), id => CargoNext(g, id), id => CargoBad(g, id))
  {
    var chosen := Members(workspace);
    var pending := workspace;
    ghost var roots := chosen;
    ghost var next := id => CargoNext(g, id);
    ghost var universe := CargoUniverse(g, workspace);
    while pending != []
      invariant roots <= chosen <= universe
      invariant forall id | id in pending :: id in chosen
      invariant forall t | roots <= t && Closed(t, next) :: chosen <= t
      invariant forall id | id in chosen && id !in pending :: !CargoBad(g, id) && CargoNext(g, id) <= chosen
      decreases universe - chosen, |pending|
    {
      var id := pending[|pending| - 1];
      assert id in pending;
      ghost var before := pending;
      pending := pending[..|pending| - 1];
      assert before == pending + [id];
      if id !in g {
        return Err;
      }
      ghost var entry := chosen;
      ghost var entryPending := pending;
      for k := 0 to |g[id]|
        invariant entry <= chosen <= universe
        invariant chosen == entry ==> pending == entryPending
        invariant forall x | x in entryPending :: x in pending
        invariant forall x | x in pending :: x in chosen
        invariant forall x | x in chosen :: x in entry || x in pending
        invariant forall i | 0 <= i < k :: HasKinds(g[id][i]) && (Ships(g[id][i]) ==> g[id][i].pkg in chosen)
        invariant forall x | x in chosen :: x in entry || exists i :: 0 <= i < k && Ships(g[id][i]) && x == g[id][i].pkg
      {
        var d := g[id][k];
        if !HasKinds(d) {
          assert CargoBad(g, id) && id in entry;
          return Err;
        }
        if Ships(d) && d.pkg !in chosen {
          assert d.pkg in universe;
          chosen := chosen + {d.pkg};
          pending := pending + [d.pkg];
        }
      }
      assert !CargoBad(g, id);
      assert CargoNext(g, id) <= chosen;
      forall t | roots <= t && Closed(t, next)
        ensures chosen <= t
      {
        assert entry <= t && next(id) <= t;
      }
    }
    assert Closed(chosen, next);
    return Ok(chosen);
  }

  // ----- npm

  /** A lock entry: not an object, or an object whose dependency map may be malformed. */
  datatype NpmEntry = NotAnObject | NpmEntry(dependencies: Option<seq<string>>)

  type NpmLock = map<string, NpmEntry>

  function ModulePath(name: string): string { "node_modules/" + name }

  predicate NpmBad(lock: NpmLock, path: string) {
    path !in lock || lock[path].NotAnObject? || lock[path].dependencies.None?
  }

  ghost function NpmNext(lock: NpmLock, path: string): set<string> {
    if NpmBad(lock, path) then {} else set name | name in lock[path].dependencies.value :: ModulePath(name)
  }

  /** The loop re-queues names it has already visited, so each round shrinks either the unvisited entries
      or the queue. */
  method NpmRuntimePaths(lock: NpmLock) returns (selected: Result<set<string>>)
    ensures NpmBad(lock, "") ==> selected.Err?
    ensures selected.Ok? ==> IsLeastClosed(selected.value, NpmNext(lock, ""), path => NpmNext(lock, path))
    ensures selected.Ok? ==> forall path | path in selected.value :: !NpmBad(lock, path)
    ensures selected.Err? ==>
      NpmBad(lock, "") || Unavoidable(NpmNext(lock, ""), path => NpmNext(lock, path), path => NpmBad(lock, path))
  {
    if NpmBad(lock, "") {
      return Err;
    }
    var chosen: set<string> := {};
    var pending := lock[""].dependencies.value;
    ghost var roots := NpmNext(lock, "");
    ghost var next := path => NpmNext(lock, path);
    ghost var bad := path => NpmBad(lock, path);
    while pending != []
      invariant chosen <= lock.Keys
      invariant forall x | x in roots :: x in chosen || exists name :: name in pending && x == ModulePath(name)
      invariant forall path | path in chosen :: !NpmBad(lock, path)
      invariant forall path, x | path in chosen && x in NpmNext(lock, path) ::
        x in chosen || exists name :: name in pending && x == ModulePath(name)
      invariant forall t | roots <= t && Closed(t, next) ::
        chosen <= t && forall name | name in pending :: ModulePath(name) in t
      decreases lock.Keys - chosen, |pending|
    {
      var name := pending[|pending| - 1];
      assert name in pending;
      ghost var before := pending;
      pending := pending[..|pending| - 1];
      assert before == pending + [name];
      var path := ModulePath(name);
      if path in chosen {
        continue;
      }
      if path !in lock || lock[path].NotAnObject? || lock[path].dependencies.None? {
        assert bad(path);
        return Err;
      }
      chosen := chosen + {path};
      pending := pending + lock[path].dependencies.value;
      forall t | roots <= t && Closed(t, next)
        ensures chosen <= t && forall n | n in pending :: ModulePath(n) in t
      {
        assert next(path) <= t;
      }
    }
    return Ok(chosen);
  }
}
