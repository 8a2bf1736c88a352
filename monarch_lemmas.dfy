/** What the resolution engine promises, stated about the functions of module Monarch. */
module MonarchLemmas {
  import opened Results
  import opened Changes
  import opened Monarch

  // ---------------------------------------------------------------------------------------
  // findChangesForSource

  /** The positions of the changes whose source is `source`, in increasing order. */
  function Matching(source: Option<string>, changes: seq<Change>): (r: seq<nat>)
    ensures forall i :: 0 <= i < |r| ==> r[i] < |changes|
  {
    if changes == [] then []
    else
      var n := |changes| - 1;
      Matching(source, changes[..n]) + (if changes[n].source == source then [n] else [])
  }

  lemma {:induction false} FindChangesConcat(source: Option<string>, a: seq<Change>, b: seq<Change>)
    ensures FindChangesForSource(source, a + b)
            == FindChangesForSource(source, a) + FindChangesForSource(source, b)
  {
    if a == [] {
      assert a + b == b;
    } else {
      assert (a + b)[0] == a[0] && (a + b)[1..] == a[1..] + b;
      FindChangesConcat(source, a[1..], b);
    }
  }

  /** The matching positions increase, and a position matches iff the change there has the source. */
  lemma {:induction false} MatchingPositions(source: Option<string>, changes: seq<Change>)
    ensures forall i, j :: 0 <= i < j < |Matching(source, changes)| ==>
              Matching(source, changes)[i] < Matching(source, changes)[j]
    ensures forall j :: 0 <= j < |changes| ==>
              (j in Matching(source, changes) <==> changes[j].source == source)
  {
    if changes != [] {
      var n := |changes| - 1;
      var init := changes[..n];
      MatchingPositions(source, init);
      var m, mi := Matching(source, changes), Matching(source, init);
      assert m == mi + (if changes[n].source == source then [n] else []);
      forall i, j | 0 <= i < j < |m| ensures m[i] < m[j] {
        if j == |mi| {
          assert m[i] == mi[i] < n == m[j];
        }
      }
      forall j | 0 <= j < |changes|
        ensures j in m <==> changes[j].source == source
      {
        if j < n {
          assert changes[j] == init[j];
          assert j in m <==> j in mi;
        } else {
          assert n !in mi;
        }
      }
    }
  }

  /** Whether `found` is the list of the changes of `changes` at the positions `at`. */
  predicate Picks(found: seq<Change>, at: seq<nat>, changes: seq<Change>)
  {
    |found| == |at| && forall i :: 0 <= i < |at| ==> at[i] < |changes| && found[i] == changes[at[i]]
  }

  /** Appending a change keeps the picks, and picking the appended change extends them. */
  lemma PicksAppend(found: seq<Change>, at: seq<nat>, changes: seq<Change>, c: Change)
    requires Picks(found, at, changes)
    ensures Picks(found, at, changes + [c])
    ensures Picks(found + [c], at + [|changes|], changes + [c])
  {
    forall i | 0 <= i < |at| ensures (changes + [c])[at[i]] == changes[at[i]] {
    }
  }

  /**
   * The changes found for a source are exactly the changes of that source, in their order:
   * the i-th found change is the change at the i-th matching position (and with
   * MatchingPositions: the positions increase and cover every change of that source).
   */
  lemma {:induction false} FindChangesIsSubsequence(source: Option<string>, changes: seq<Change>)
    ensures |FindChangesForSource(source, changes)| == |Matching(source, changes)|
    ensures forall i :: 0 <= i < |Matching(source, changes)| ==>
              FindChangesForSource(source, changes)[i] == changes[Matching(source, changes)[i]]
  {
    if changes != [] {
      var n := |changes| - 1;
      var init := changes[..n];
      var last := changes[n];
      FindChangesIsSubsequence(source, init);
      assert init + [last] == changes;
      FindChangesConcat(source, init, [last]);
      assert [last][1..] == [];
      var f, fi := FindChangesForSource(source, changes), FindChangesForSource(source, init);
      var m, mi := Matching(source, changes), Matching(source, init);
      PicksAppend(fi, mi, init, last);
      if last.source == source {
        assert f == fi + [last] && m == mi + [n];
      } else {
        assert f == fi && m == mi;
      }
    }
  }

  // ---------------------------------------------------------------------------------------
  // ListReversed

  lemma {:induction false} ReversedAt(s: seq<string>, i: nat)
    requires i < |s|
    ensures Reversed(s)[i] == s[|s| - 1 - i]
  {
    if i > 0 {
      ReversedAt(s[..|s| - 1], i - 1);
    }
  }

  /** The reversed list holds the same sources. */
  lemma ReversedMembers(s: seq<string>)
    ensures forall x :: x in Reversed(s) <==> x in s
  {
    forall x | x in s ensures x in Reversed(s) {
      var j :| 0 <= j < |s| && s[j] == x;
      ReversedAt(s, |s| - 1 - j);
    }
    forall x | x in Reversed(s) ensures x in s {
      var i :| 0 <= i < |s| && Reversed(s)[i] == x;
      ReversedAt(s, i);
    }
  }

  // ---------------------------------------------------------------------------------------
  // The set entries of one change: the order of the loop does not matter

  /** One turn of the loop over a change's set entries, on key `k`. */
  function SetStep(env: Env, target: string, data: Snapshot, change: Change, work: Data, k: string): Data
    requires k in change.assignments
  {
    Put(work, k, EntryOutcome(env, target, data, change.source, k, change.assignments[k], Get(work, k)))
  }

  /** The loop over a change's set entries run in the iteration order `order`. */
  function SetInOrder(env: Env, target: string, data: Snapshot, change: Change, work: Data,
                      order: seq<string>): Data
    requires forall k :: k in order ==> k in change.assignments
  {
    if order == [] then work
    else
      var n := |order| - 1;
      SetStep(env, target, data, change, SetInOrder(env, target, data, change, work, order[..n]), order[n])
  }

  predicate Distinct(order: seq<string>)
  {
    forall i, j :: 0 <= i < j < |order| ==> order[i] != order[j]
  }

  lemma SetStepExtends(env: Env, target: string, data: Snapshot, work: Data, change: Change,
                       done: set<string>, k: string)
    requires done <= change.assignments.Keys && k in change.assignments && k !in done
    ensures SetStep(env, target, data, change, AfterEntries(env, target, data, work, change, done), k)
            == AfterEntries(env, target, data, work, change, done + {k})
  {
    var lhs := SetStep(env, target, data, change, AfterEntries(env, target, data, work, change, done), k);
    var rhs := AfterEntries(env, target, data, work, change, done + {k});
    forall x ensures Get(lhs, x) == Get(rhs, x) {
      AfterEntriesAt(env, target, data, work, change, done, x);
      AfterEntriesAt(env, target, data, work, change, done + {k}, x);
    }
    SameEntries(lhs, rhs);
  }

  lemma {:induction false} SetInOrderProcesses(env: Env, target: string, data: Snapshot, change: Change,
                                               work: Data, order: seq<string>)
    requires forall k :: k in order ==> k in change.assignments
    requires Distinct(order)
    ensures SetInOrder(env, target, data, change, work, order)
            == AfterEntries(env, target, data, work, change, SetOf(order))
  {
    if order == [] {
      SameEntries(work, AfterEntries(env, target, data, work, change, {}));
    } else {
      var n := |order| - 1;
      SetInOrderProcesses(env, target, data, change, work, order[..n]);
      assert SetOf(order) == SetOf(order[..n]) + {order[n]} by {
        assert order == order[..n] + [order[n]];
      }
      assert order[n] !in SetOf(order[..n]);
      SetStepExtends(env, target, data, work, change, SetOf(order[..n]), order[n]);
    }
  }

  /**
   * Whatever order a hash map hands out the set entries in, the loop over them leaves the same
   * map: the one `AfterSet` describes.
   */
  lemma SetOrderIrrelevant(env: Env, target: string, data: Snapshot, change: Change, work: Data,
                           order: seq<string>)
    requires Distinct(order)
    requires forall k :: k in order <==> k in change.assignments
    ensures SetInOrder(env, target, data, change, work, order) == AfterSet(env, target, data, work, change)
  {
    SetInOrderProcesses(env, target, data, change, work, order);
    assert SetOf(order) == change.assignments.Keys;
  }

  // ---------------------------------------------------------------------------------------
  // The effect of one change on one key

  /**
   * A change from the target itself stores a plain value as it is, and so a merge key's value
   * when the key had no value yet (absent, or null).
   */
  lemma TargetChangeStoresVerbatim(env: Env, target: string, data: Snapshot, work: Data, c: Change,
                                   key: string)
    requires c.source == Some(target)
    requires key in c.assignments && key !in c.remove
    requires key !in env.mergeKeys || key !in work || work[key].Null?
    ensures Get(AfterChange(env, target, data, work, c), key) == Some(c.assignments[key])
  {
    AfterEntriesAt(env, target, data, work, c, c.assignments.Keys, key);
  }

  /** For a change from the target itself the inheritance lookup is never consulted. */
  lemma TargetChangeIgnoresLookup(env: Env, lookup: (Snapshot, string, Hierarchy, set<string>, string, Value) -> bool,
                                  target: string, data: Snapshot, work: Data, c: Change)
    requires c.source == Some(target)
    ensures AfterChange(env, target, data, work, c)
            == AfterChange(env.(isValueInherited := lookup), target, data, work, c)
  {
    var other := env.(isValueInherited := lookup);
    var a := AfterSet(env, target, data, work, c);
    var b := AfterSet(other, target, data, work, c);
    forall k ensures Get(a, k) == Get(b, k) {
      AfterEntriesAt(env, target, data, work, c, c.assignments.Keys, k);
      AfterEntriesAt(other, target, data, work, c, c.assignments.Keys, k);
    }
    SameEntries(a, b);
  }

  /**
   * A change from a strict ancestor whose value is already inherited: a plain key ends absent,
   * an absent key stays absent, and a present merge key has the value unmerged from it.
   */
  lemma InheritedValuePruned(env: Env, target: string, data: Snapshot, work: Data, c: Change, key: string)
    requires c.source != Some(target)
    requires key in c.assignments && key !in c.remove
    requires env.isValueInherited(data, target, env.hierarchy, env.mergeKeys, key, c.assignments[key])
    ensures key !in env.mergeKeys ==> key !in AfterChange(env, target, data, work, c)
    ensures key !in work ==> key !in AfterChange(env, target, data, work, c)
    ensures key in work && key in env.mergeKeys ==>
              Get(AfterChange(env, target, data, work, c), key) == Some(env.unmerge(work[key], c.assignments[key]))
  {
    AfterEntriesAt(env, target, data, work, c, c.assignments.Keys, key);
  }

  /**
   * A change from the target itself, or from an ancestor whose value is not inherited, is
   * stored: merged into the non-null value of a merge key, stored as it is otherwise.
   */
  lemma NotInheritedValueStored(env: Env, target: string, data: Snapshot, work: Data, c: Change, key: string)
    requires key in c.assignments && key !in c.remove
    requires c.source == Some(target)
             || !env.isValueInherited(data, target, env.hierarchy, env.mergeKeys, key, c.assignments[key])
    ensures Get(AfterChange(env, target, data, work, c), key)
            == if key in env.mergeKeys && key in work && !work[key].Null?
               then Some(env.merge(work[key], c.assignments[key]))
               else Some(c.assignments[key])
  {
    AfterEntriesAt(env, target, data, work, c, c.assignments.Keys, key);
  }

  // ---------------------------------------------------------------------------------------
  // Frame of generateSingleSource

  /** Whether a change names a key, to set it or to remove it. */
  predicate Touches(c: Change, key: string)
  {
    key in c.assignments || key in c.remove
  }

  lemma AfterChangeFrame(env: Env, target: string, data: Snapshot, work: Data, c: Change, key: string)
    requires !Touches(c, key)
    ensures Get(AfterChange(env, target, data, work, c), key) == Get(work, key)
  {
    AfterEntriesAt(env, target, data, work, c, c.assignments.Keys, key);
  }

  lemma {:induction false} AfterChangesFrame(env: Env, target: string, data: Snapshot, work: Data,
                                             cs: seq<Change>, key: string)
    requires forall c :: c in cs ==> !Touches(c, key)
    ensures Get(AfterChanges(env, target, data, work, cs), key) == Get(work, key)
    decreases cs
  {
    if cs != [] {
      AfterChangeFrame(env, target, data, work, cs[0], key);
      AfterChangesFrame(env, target, data, AfterChange(env, target, data, work, cs[0]), cs[1..], key);
    }
  }

  lemma {:induction false} AfterSourcesFrame(env: Env, target: string, data: Snapshot, work: Data,
                                             order: seq<string>, changes: seq<Change>, key: string)
    requires forall c :: c in changes && c.source.Some? && c.source.value in order ==> !Touches(c, key)
    ensures Get(AfterSources(env, target, data, work, order, changes), key) == Get(work, key)
    decreases order
  {
    if order != [] {
      AfterChangesFrame(env, target, data, work, FindChangesForSource(Some(order[0]), changes), key);
      AfterSourcesFrame(env, target, data,
                        AfterChanges(env, target, data, work, FindChangesForSource(Some(order[0]), changes)),
                        order[1..], changes, key);
    }
  }

  /**
   * A key that no change of an ancestor of the target (the target included) sets or removes
   * keeps the target's original entry: the same value, or still absent.
   */
  lemma SingleSourceFrame(env: Env, changes: seq<Change>, target: string, data: Snapshot, key: string)
    requires env.hierarchy.ancestorsOf(target).Some?
    requires forall c :: c in changes && c.source.Some? && c.source.value in env.hierarchy.ancestorsOf(target).value
                         ==> !Touches(c, key)
    ensures ResolveSource(env, changes, target, data).Success?
    ensures Get(ResolveSource(env, changes, target, data).value, key) == Get(Start(data, target), key)
  {
    var ancestors := env.hierarchy.ancestorsOf(target).value;
    ReversedMembers(ancestors);
    AfterSourcesFrame(env, target, data, Start(data, target), Reversed(ancestors), changes, key);
  }

  // ---------------------------------------------------------------------------------------
  // Changes of sources outside the ancestry have no effect

  lemma {:induction false} AfterSourcesSameChanges(env: Env, target: string, data: Snapshot, work: Data,
                                                   order: seq<string>, xs: seq<Change>, ys: seq<Change>)
    requires forall a :: a in order ==> FindChangesForSource(Some(a), xs) == FindChangesForSource(Some(a), ys)
    ensures AfterSources(env, target, data, work, order, xs) == AfterSources(env, target, data, work, order, ys)
    decreases order
  {
    if order != [] {
      AfterSourcesSameChanges(env, target, data,
                              AfterChanges(env, target, data, work, FindChangesForSource(Some(order[0]), xs)),
                              order[1..], xs, ys);
    }
  }

  /** Whether `c` belongs to none of the sources `d` inherits from (itself included). */
  predicate Unrelated(env: Env, c: Change, d: string)
  {
    match env.hierarchy.ancestorsOf(d)
    case None => true
    case Some(ancestors) => forall a :: a in ancestors ==> c.source != Some(a)
  }

  /** Taking out a change of a source that is not an ancestor of the target changes nothing. */
  lemma UnrelatedChangeIgnored(env: Env, before: seq<Change>, c: Change, after: seq<Change>,
                               target: string, data: Snapshot)
    requires Unrelated(env, c, target)
    ensures ResolveSource(env, before + [c] + after, target, data)
            == ResolveSource(env, before + after, target, data)
  {
    if env.hierarchy.ancestorsOf(target).Some? {
      var ancestors := env.hierarchy.ancestorsOf(target).value;
      ReversedMembers(ancestors);
      forall a | a in Reversed(ancestors)
        ensures FindChangesForSource(Some(a), before + [c] + after) == FindChangesForSource(Some(a), before + after)
      {
        FindChangesConcat(Some(a), before + [c], after);
        FindChangesConcat(Some(a), before, [c]);
        FindChangesConcat(Some(a), before, after);
        assert [c][1..] == [];
      }
      AfterSourcesSameChanges(env, target, data, Start(data, target), Reversed(ancestors),
                              before + [c] + after, before + after);
    }
  }

  lemma {:induction false} ResolveAllIgnoresUnrelated(env: Env, before: seq<Change>, c: Change, after: seq<Change>,
                                                      result: Snapshot, ds: seq<string>)
    requires forall d :: d in ds ==> Unrelated(env, c, d)
    ensures ResolveAll(env, before + [c] + after, result, ds) == ResolveAll(env, before + after, result, ds)
    decreases ds
  {
    if ds != [] {
      UnrelatedChangeIgnored(env, before, c, after, ds[0], result);
      var r := ResolveSource(env, before + after, ds[0], result);
      if r.Success? {
        ResolveAllIgnoresUnrelated(env, before, c, after, result[ds[0] := r.value], ds[1..]);
      }
    }
  }

  /**
   * A change that belongs to no ancestor of any source in the target's subtree leaves the whole
   * result unchanged.
   */
  lemma ResolveIgnoresUnrelated(env: Env, before: seq<Change>, c: Change, after: seq<Change>,
                                target: string, data: RawSnapshot)
    requires env.hierarchy.descendantsOf(target).Some? ==>
               forall d :: d in env.hierarchy.descendantsOf(target).value ==> Unrelated(env, c, d)
    ensures Resolve(env, before + [c] + after, target, data) == Resolve(env, before + after, target, data)
  {
    if env.hierarchy.descendantsOf(target).Some? {
      ResolveAllIgnoresUnrelated(env, before, c, after, CopyOf(data), env.hierarchy.descendantsOf(target).value);
    }
  }

  // ---------------------------------------------------------------------------------------
  // generateSources: failures and what it leaves alone

  /**
   * Resolving a list of sources fails exactly when one of them is unknown to the hierarchy,
   * and then with the first such source as the missing target.
   */
  lemma {:induction false} ResolveAllFailure(env: Env, changes: seq<Change>, result: Snapshot, ds: seq<string>)
    ensures ResolveAll(env, changes, result, ds).Failure?
            <==> exists i :: 0 <= i < |ds| && env.hierarchy.ancestorsOf(ds[i]).None?
    ensures ResolveAll(env, changes, result, ds).Failure? ==>
              exists i :: 0 <= i < |ds| && env.hierarchy.ancestorsOf(ds[i]).None?
                          && (forall j :: 0 <= j < i ==> env.hierarchy.ancestorsOf(ds[j]).Some?)
                          && ResolveAll(env, changes, result, ds).error == TargetNotFound(ds[i])
    decreases ds
  {
    if ds != [] {
      var r := ResolveSource(env, changes, ds[0], result);
      if r.Success? {
        var rest := ds[1..];
        ResolveAllFailure(env, changes, result[ds[0] := r.value], rest);
        if ResolveAll(env, changes, result, ds).Failure? {
          var i :| 0 <= i < |rest| && env.hierarchy.ancestorsOf(rest[i]).None?
                   && (forall j :: 0 <= j < i ==> env.hierarchy.ancestorsOf(rest[j]).Some?)
                   && ResolveAll(env, changes, result, ds).error == TargetNotFound(rest[i]);
          assert ds[i + 1] == rest[i];
          assert forall j :: 0 < j < i + 1 ==> ds[j] == rest[j - 1];
        }
        if exists i :: 0 <= i < |ds| && env.hierarchy.ancestorsOf(ds[i]).None? {
          var i :| 0 <= i < |ds| && env.hierarchy.ancestorsOf(ds[i]).None?;
          assert rest[i - 1] == ds[i];
        }
      } else {
        assert env.hierarchy.ancestorsOf(ds[0]).None?;
      }
    }
  }

  /**
   * `generateSources` fails exactly when the target, or a source in its subtree, is unknown to
   * the hierarchy; an unknown target is reported as the missing target itself.
   */
  lemma ResolveFailure(env: Env, changes: seq<Change>, target: string, data: RawSnapshot)
    ensures env.hierarchy.descendantsOf(target).None? ==>
              Resolve(env, changes, target, data) == Failure(TargetNotFound(target))
    ensures env.hierarchy.descendantsOf(target).Some? ==>
              (Resolve(env, changes, target, data).Failure?
               <==> exists d :: d in env.hierarchy.descendantsOf(target).value && env.hierarchy.ancestorsOf(d).None?)
  {
    if env.hierarchy.descendantsOf(target).Some? {
      var ds := env.hierarchy.descendantsOf(target).value;
      ResolveAllFailure(env, changes, CopyOf(data), ds);
      if exists d :: d in ds && env.hierarchy.ancestorsOf(d).None? {
        var d :| d in ds && env.hierarchy.ancestorsOf(d).None?;
        var i :| 0 <= i < |ds| && ds[i] == d;
      }
    }
  }

  lemma {:induction false} ResolveAllFrame(env: Env, changes: seq<Change>, result: Snapshot, ds: seq<string>)
    requires ResolveAll(env, changes, result, ds).Success?
    ensures ResolveAll(env, changes, result, ds).value.Keys == result.Keys + SetOf(ds)
    ensures forall s :: s in result && s !in ds ==> ResolveAll(env, changes, result, ds).value[s] == result[s]
    decreases ds
  {
    if ds != [] {
      var r := ResolveSource(env, changes, ds[0], result);
      ResolveAllFrame(env, changes, result[ds[0] := r.value], ds[1..]);
      assert SetOf(ds) == {ds[0]} + SetOf(ds[1..]) by {
        assert ds == [ds[0]] + ds[1..];
      }
    }
  }

  /**
   * The new snapshot has every source of the old one and every source of the target's subtree;
   * a source outside the subtree keeps its old map, a null map becoming the empty one.
   */
  lemma ResolveFrame(env: Env, changes: seq<Change>, target: string, data: RawSnapshot)
    requires Resolve(env, changes, target, data).Success?
    ensures env.hierarchy.descendantsOf(target).Some?
    ensures Resolve(env, changes, target, data).value.Keys
            == data.Keys + SetOf(env.hierarchy.descendantsOf(target).value)
    ensures forall s :: s in data && s !in env.hierarchy.descendantsOf(target).value ==>
              Resolve(env, changes, target, data).value[s] == (if data[s].Some? then data[s].value else map[])
  {
    ResolveAllFrame(env, changes, CopyOf(data), env.hierarchy.descendantsOf(target).value);
  }
}
