/**
 * The resolution engine: given a hierarchy of sources, end-state changes, a target source and
 * the current per-source data, it computes new data for the target and every source below it.
 *
 * The functions state what each step computes; the methods are the loops of the Java code,
 * each proved to compute what its function states.
 */
module Monarch {
  import opened Results
  import opened Changes

  /** The key/value pairs a source stores itself. */
  type Data = map<string, Value>

  /** Every source's own data. */
  type Snapshot = map<string, Data>

  /** A snapshot as the caller may pass it: a source may be mapped to null (None). */
  type RawSnapshot = map<string, Option<Data>>

  /**
   * The hierarchy's two queries; None is an unknown source. Their order is the hierarchy's
   * own and is not fixed by this model.
   */
  datatype Hierarchy = Hierarchy(
    ancestorsOf: string -> Option<seq<string>>,
    descendantsOf: string -> Option<seq<string>>)

  /**
   * The read-only inputs of one resolution call: the hierarchy and merge keys the caller passes,
   * and the collaborators whose code is not part of this model. `isValueInherited` takes the
   * arguments of the DataLookupFromMap constructor (snapshot, source, hierarchy, merge keys)
   * followed by the key and value it is asked about; `merge` and `unmerge` take the value a
   * Merger starts with and the value merged into or out of it.
   */
  datatype Env = Env(
    hierarchy: Hierarchy,
    mergeKeys: set<string>,
    isValueInherited: (Snapshot, string, Hierarchy, set<string>, string, Value) -> bool,
    merge: (Value, Value) -> Value,
    unmerge: (Value, Value) -> Value)

  /** The value a map holds under a key, None when the key is absent. */
  function Get(m: Data, k: string): Option<Value>
  {
    if k in m then Some(m[k]) else None
  }

  /** Stores `o` under `k`, or deletes `k` when `o` is None. */
  function Put(m: Data, k: string, o: Option<Value>): (r: Data)
    ensures Get(r, k) == o
    ensures forall x :: x != k ==> Get(r, x) == Get(m, x)
  {
    if o.Some? then m[k := o.value] else m - {k}
  }

  // ---------------------------------------------------------------------------------------
  // findChangesForSource

  /**
   * The changes whose source is `source`, in their original order. A null source (None)
   * selects the changes that name no source, as `Objects.equals` does.
   */
  function FindChangesForSource(source: Option<string>, changes: seq<Change>): (r: seq<Change>)
    ensures |r| <= |changes|
    ensures forall c :: c in r <==> c in changes && c.source == source
  {
    if changes == [] then []
    else (if changes[0].source == source then [changes[0]] else [])
         + FindChangesForSource(source, changes[1..])
  }

  // ---------------------------------------------------------------------------------------
  // copyMapAndValues

  /** The copy of the caller's snapshot: every source kept, a null map replaced by an empty one. */
  function CopyOf(data: RawSnapshot): (r: Snapshot)
  {
    map s | s in data :: if data[s].Some? then data[s].value else map[]
  }

  method CopyMapAndValues(data: RawSnapshot) returns (copy: Snapshot)
    ensures copy == CopyOf(data)
    ensures copy.Keys == data.Keys
    ensures forall s :: s in data ==> copy[s] == (if data[s].Some? then data[s].value else map[])
  {
    copy := map[];
    var pending := data.Keys;
    while pending != {}
      invariant pending <= data.Keys
      invariant copy == map s | s in data.Keys - pending :: CopyOf(data)[s]
      decreases pending
    {
      var s :| s in pending;
      copy := copy[s := if data[s] == None then map[] else data[s].value];
      pending := pending - {s};
    }
  }

  // ---------------------------------------------------------------------------------------
  // generateSingleSource, as functions

  /**
   * What processing the entry (key, value) of a change declared at `source` leaves under `key`
   * in the working map of `target`, when the working map held `current` there (None: nothing).
   * A change from another source whose value the lookup reports inherited deletes an explicit
   * entry, or unmerges the value from it for a merge key; otherwise the value is merged into a
   * present non-null value of a merge key, or stored as it is. (The pruning branch tests for an
   * entry, `containsKey`; the merge branch tests for a non-null value, `get(key) != null`.)
   */
  function EntryOutcome(env: Env, target: string, data: Snapshot, source: Option<string>,
                        key: string, value: Value, current: Option<Value>): Option<Value>
  {
    if source != Some(target)
       && env.isValueInherited(data, target, env.hierarchy, env.mergeKeys, key, value) then
      if current.Some? && key in env.mergeKeys then Some(env.unmerge(current.value, value))
      else None
    else if current.Some? && !current.value.Null? && key in env.mergeKeys then Some(env.merge(current.value, value))
    else Some(value)
  }

  /** The working map once the set entries whose keys are in `done` have been processed. */
  function AfterEntries(env: Env, target: string, data: Snapshot, work: Data, change: Change,
                        done: set<string>): Data
    requires done <= change.assignments.Keys
  {
    (work - done)
    + map k | k in done
                && EntryOutcome(env, target, data, change.source, k, change.assignments[k], Get(work, k)).Some?
            :: EntryOutcome(env, target, data, change.source, k, change.assignments[k], Get(work, k)).value
  }

  /** The working map after all of a change's set entries. */
  function AfterSet(env: Env, target: string, data: Snapshot, work: Data, change: Change): Data
  {
    AfterEntries(env, target, data, work, change, change.assignments.Keys)
  }

  /** The keys listed in `s`. */
  function SetOf(s: seq<string>): (r: set<string>)
    ensures forall k :: k in r <==> k in s
  {
    set k | k in s
  }

  /** The working map after a whole change: its set entries, then its removals. */
  function AfterChange(env: Env, target: string, data: Snapshot, work: Data, change: Change): (r: Data)
    ensures forall k :: k in change.remove ==> k !in r
    ensures forall k :: k in r ==> k in work || k in change.assignments
  {
    AfterSet(env, target, data, work, change) - SetOf(change.remove)
  }

  /** The working map after the changes `cs`, applied in order. */
  function AfterChanges(env: Env, target: string, data: Snapshot, work: Data, cs: seq<Change>): Data
    decreases cs
  {
    if cs == [] then work
    else AfterChanges(env, target, data, AfterChange(env, target, data, work, cs[0]), cs[1..])
  }

  /** The working map after the changes of every source in `order`, source by source. */
  function AfterSources(env: Env, target: string, data: Snapshot, work: Data, order: seq<string>,
                        changes: seq<Change>): Data
    decreases order
  {
    if order == [] then work
    else
      AfterSources(env, target, data,
                   AfterChanges(env, target, data, work, FindChangesForSource(Some(order[0]), changes)),
                   order[1..], changes)
  }

  /** `ListReversed`: the list read from its last element to its first. */
  function Reversed(s: seq<string>): (r: seq<string>)
    ensures |r| == |s|
  {
    if s == [] then [] else [s[|s| - 1]] + Reversed(s[..|s| - 1])
  }

  /** The data a source starts from: its own entry in the snapshot, or nothing. */
  function Start(data: Snapshot, target: string): Data
  {
    if target in data then data[target] else map[]
  }

  /** `generateSingleSource`: the new own data of `target`. */
  function ResolveSource(env: Env, changes: seq<Change>, target: string, data: Snapshot): (r: Result<Data>)
    ensures r.Failure? <==> env.hierarchy.ancestorsOf(target).None?
    ensures r.Failure? ==> r.error == TargetNotFound(target)
  {
    match env.hierarchy.ancestorsOf(target)
    case None => Failure(TargetNotFound(target))
    case Some(ancestors) =>
      Success(AfterSources(env, target, data, Start(data, target), Reversed(ancestors), changes))
  }

  // ---------------------------------------------------------------------------------------
  // generateSources, as functions

  /** Resolves the sources `ds` in order, each against the snapshot the previous ones left. */
  function ResolveAll(env: Env, changes: seq<Change>, result: Snapshot, ds: seq<string>): Result<Snapshot>
    decreases ds
  {
    if ds == [] then Success(result)
    else
      match ResolveSource(env, changes, ds[0], result)
      case Failure(e) => Failure(e)
      case Success(d) => ResolveAll(env, changes, result[ds[0] := d], ds[1..])
  }

  /** `generateSources`: the new snapshot, or the error that stopped the resolution. */
  function Resolve(env: Env, changes: seq<Change>, target: string, data: RawSnapshot): Result<Snapshot>
  {
    match env.hierarchy.descendantsOf(target)
    case None => Failure(TargetNotFound(target))
    case Some(descendants) => ResolveAll(env, changes, CopyOf(data), descendants)
  }

  // ---------------------------------------------------------------------------------------
  // The loops of the Java code

  /** What `AfterEntries(work, done)` holds under `k`. */
  function Processed(env: Env, target: string, data: Snapshot, work: Data, change: Change,
                     done: set<string>, k: string): Option<Value>
    requires done <= change.assignments.Keys
  {
    if k in done then EntryOutcome(env, target, data, change.source, k, change.assignments[k], Get(work, k))
    else Get(work, k)
  }

  lemma AfterEntriesAt(env: Env, target: string, data: Snapshot, work: Data, change: Change,
                       done: set<string>, k: string)
    requires done <= change.assignments.Keys
    ensures Get(AfterEntries(env, target, data, work, change, done), k)
            == Processed(env, target, data, work, change, done, k)
  {
  }

  /** Two maps that agree on every key are equal. */
  lemma SameEntries(a: Data, b: Data)
    requires forall k :: Get(a, k) == Get(b, k)
    ensures a == b
  {
    assert forall k :: k in a <==> Get(a, k).Some?;
    assert forall k :: k in b <==> Get(b, k).Some?;
    assert forall k :: k in a ==> a[k] == Get(a, k).value;
  }

  /** Monarch.java lines 101-132: the set entries of one change, in any order. */
  method ApplySetEntries(env: Env, target: string, data: Snapshot, work: Data, change: Change)
    returns (r: Data)
    ensures r == AfterSet(env, target, data, work, change)
  {
    r := work;
    var pending := change.assignments.Keys;
    while pending != {}
      invariant pending <= change.assignments.Keys
      invariant forall k :: Get(r, k) == Processed(env, target, data, work, change, change.assignments.Keys - pending, k)
      decreases pending
    {
      var key :| key in pending;
      var value := change.assignments[key];
      ghost var before := r;
      ghost var outcome := EntryOutcome(env, target, data, change.source, key, value, Get(work, key));
      assert Get(r, key) == Get(work, key);
      if change.source != Some(target)
         && env.isValueInherited(data, target, env.hierarchy, env.mergeKeys, key, value) {
        if key in r {
          if key in env.mergeKeys {
            r := r[key := env.unmerge(r[key], value)];
          } else {
            r := r - {key};
          }
        }
      } else {
        var newValue := if key in env.mergeKeys && key in r && !r[key].Null? then env.merge(r[key], value) else value;
        r := r[key := newValue];
      }
      assert Get(r, key) == outcome;
      assert forall k :: k != key ==> Get(r, k) == Get(before, k);
      pending := pending - {key};
    }
    forall k ensures Get(r, k) == Get(AfterSet(env, target, data, work, change), k) {
      AfterEntriesAt(env, target, data, work, change, change.assignments.Keys, k);
    }
    SameEntries(r, AfterSet(env, target, data, work, change));
  }

  /** Monarch.java lines 135-137: deletes the listed keys, one after the other. */
  method RemoveKeys(work: Data, keys: seq<string>) returns (r: Data)
    ensures r == work - SetOf(keys)
  {
    r := work;
    var i := 0;
    while i < |keys|
      invariant 0 <= i <= |keys|
      invariant r == work - SetOf(keys[..i])
    {
      assert SetOf(keys[..i + 1]) == SetOf(keys[..i]) + {keys[i]};
      r := r - {keys[i]};
      i := i + 1;
    }
    assert keys[..i] == keys;
  }

  /** `generateSingleSource`. */
  method GenerateSingleSource(env: Env, changes: seq<Change>, target: string, data: Snapshot)
    returns (r: Result<Data>)
    ensures r == ResolveSource(env, changes, target, data)
  {
    var found := env.hierarchy.ancestorsOf(target);
    if found.None? {
      return Failure(TargetNotFound(target));
    }
    var ancestors := found.value;
    var work := if target in data then data[target] else map[];
    ghost var goal := AfterSources(env, target, data, work, Reversed(ancestors), changes);
    var i := |ancestors|;
    assert ancestors[..i] == ancestors;
    while i > 0
      invariant 0 <= i <= |ancestors|
      invariant AfterSources(env, target, data, work, Reversed(ancestors[..i]), changes) == goal
    {
      assert Reversed(ancestors[..i]) == [ancestors[i - 1]] + Reversed(ancestors[..i - 1]) by {
        assert ancestors[..i][..i - 1] == ancestors[..i - 1];
      }
      i := i - 1;
      var forSource := FindChangesForSource(Some(ancestors[i]), changes);
      work := ApplyChanges(env, target, data, work, forSource);
    }
    return Success(work);
  }

  /** The loop over one source's changes in `generateSingleSource`. */
  method ApplyChanges(env: Env, target: string, data: Snapshot, work: Data, cs: seq<Change>)
    returns (r: Data)
    ensures r == AfterChanges(env, target, data, work, cs)
  {
    r := work;
    var j := 0;
    while j < |cs|
      invariant 0 <= j <= |cs|
      invariant AfterChanges(env, target, data, r, cs[j..]) == AfterChanges(env, target, data, work, cs)
    {
      assert cs[j..][1..] == cs[j + 1..];
      r := ApplySetEntries(env, target, data, r, cs[j]);
      r := RemoveKeys(r, cs[j].remove);
      j := j + 1;
    }
    assert cs[j..] == [];
  }

  /** `generateSources`. */
  method GenerateSources(env: Env, changes: seq<Change>, target: string, data: RawSnapshot)
    returns (r: Result<Snapshot>)
    ensures r == Resolve(env, changes, target, data)
  {
    var found := env.hierarchy.descendantsOf(target);
    if found.None? {
      return Failure(TargetNotFound(target));
    }
    var descendants := found.value;
    var result := CopyMapAndValues(data);
    var i := 0;
    while i < |descendants|
      invariant 0 <= i <= |descendants|
      invariant ResolveAll(env, changes, result, descendants[i..]) == Resolve(env, changes, target, data)
    {
      assert descendants[i..][1..] == descendants[i + 1..];
      var single := GenerateSingleSource(env, changes, descendants[i], result);
      if single.Failure? {
        return Failure(single.error);
      }
      result := result[descendants[i] := single.value];
      i := i + 1;
    }
    return Success(result);
  }
}
