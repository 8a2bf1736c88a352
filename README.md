# Monarch resolution engine in Dafny

This project models the core of monarch, a tool for managing hierarchical configuration data.
Sources form a tree, and each source inherits key/value pairs from its ancestors. Given
end-state changes and a target source, `Monarch.generateSources` computes new stored data for
the target and every source below it. It walks the target's descendants top-down and rebuilds
each one with `generateSingleSource`. That method applies, ancestor by ancestor, the changes
declared at each ancestor:

- it prunes a value that the source already inherits (or unmerges it, for a merge key);
- it merges a value into a merge key;
- otherwise it overwrites the value;
- finally it deletes the change's `remove` keys.

`Change` is the immutable change record that the engine consumes.

Files:

- `results.dfy`: module `Results`. It holds `Option` (Java null), `Result`, and the errors monarch
  throws.
- `change.dfy`: module `Changes`. It holds the `Value` datatype (Java `Object` as read from
  YAML/JSON), the `Change` datatype, the constructor, `fromMap` and `equals`.
- `monarch.dfy`: module `Monarch`. Functions state what each step computes. Methods carry the
  loops of the Java code (`GenerateSources`, `GenerateSingleSource`, `CopyMapAndValues`, and
  the inner loops `ApplyChanges`, `ApplySetEntries` and `RemoveKeys`), and each is proved to compute its
  function.
- `monarch_lemmas.dfy`: module `MonarchLemmas`. It holds the properties of the engine.

Collaborators whose code is not part of this model are inputs, with no semantics assumed. They
are fields of the datatype `Monarch.Env`:

- the hierarchy's `ancestorsOf` and `descendantsOf`, which return `None` for an unknown source;
- `DataLookupFromMap.isValueInherited`, a function of the lookup's constructor arguments
  (snapshot, source, hierarchy, merge keys) and of the key and value asked about;
- `Merger`'s merge and unmerge, as functions from (value started with, value merged in or out)
  to a value.

`ListReversed` is modelled as list reversal (`Monarch.Reversed`).

`ancestorsOf`'s order is the hierarchy's own. Monarch.java line 96 walks it backwards, so
changes apply root first only when `ancestorsOf` lists the source first. The model walks
whatever `ancestorsOf` returns, backwards, and assumes no order.

## Model

| member | source | states |
|---|---|---|
| `Changes.NewChange` | lib/src/io/github/alechenninger/monarch/Change.java:33-37 | the constructor succeeds exactly when the set map and the remove list are non-null, and the change then holds exactly the given source, map and list (the accessors return the arguments) |
| `Changes.FromMap` | lib/src/io/github/alechenninger/monarch/Change.java:39-53 | a null document fails with the "Cannot create a change from 'null'" error; any other document is read iff "set" is missing, null or a map, "remove" is missing, null or a list of strings, and "source" is missing, null or a string; the change then holds the given map, the texts of the list and the string, and the empty map, the empty list and a null source for the missing or null fields |
| `Changes.FromMapRoundTrip` | lib/src/io/github/alechenninger/monarch/Change.java:39-66 | reading the document of any change gives back that change: its source, set map and remove list |
| `Changes.Equals` | lib/src/io/github/alechenninger/monarch/Change.java:68-80 | `equals` holds iff the other object is a change with equal source, set and remove; it is false for null |
| `Changes.EqualsIsEquivalence` | lib/src/io/github/alechenninger/monarch/Change.java:68-80 | `equals` is reflexive, symmetric and transitive, and never equal to null |
| `Monarch.FindChangesForSource` | lib/src/io/github/alechenninger/monarch/Monarch.java:72-76 | a change is in the result iff it is in the input and its source equals the given one, a null source selecting the changes that name none; the result is no longer than the input |
| `MonarchLemmas.FindChangesConcat` | lib/src/io/github/alechenninger/monarch/Monarch.java:72-76 | filtering a concatenation gives the concatenation of the filtered parts, so the input order is kept |
| `MonarchLemmas.MatchingPositions` | lib/src/io/github/alechenninger/monarch/Monarch.java:72-76 | the positions selected by the filter increase, and a position is selected iff the change there has the given source |
| `MonarchLemmas.FindChangesIsSubsequence` | lib/src/io/github/alechenninger/monarch/Monarch.java:72-76 | the i-th change found is the input change at the i-th selected position: the result is exactly the subsequence of the changes of that source, in order |
| `Monarch.CopyMapAndValues` | lib/src/io/github/alechenninger/monarch/Monarch.java:144-155 | the copy has exactly the caller's sources; a null map becomes the empty map and every other map is kept as it is |
| `Monarch.AfterChange` | lib/src/io/github/alechenninger/monarch/Monarch.java:101-137 | after a change is processed none of its remove keys is present, even one its set entries assigned, and no key appears that was neither present nor set |
| `Monarch.ApplyChanges` | lib/src/io/github/alechenninger/monarch/Monarch.java:99-138 | the loop over one source's changes, set entries then removals for each, in input order, ends with `AfterChanges` of those changes |
| `Monarch.ApplySetEntries` | lib/src/io/github/alechenninger/monarch/Monarch.java:101-132 | the loop over a change's set entries, whichever key the hash map hands out next, ends with the map that processing every entry against the original working map gives |
| `Monarch.RemoveKeys` | lib/src/io/github/alechenninger/monarch/Monarch.java:134-137 | deleting the keys one after the other leaves the working map minus exactly the listed keys |
| `Monarch.ResolveSource` | lib/src/io/github/alechenninger/monarch/Monarch.java:82-142 | resolving one source fails iff the hierarchy does not know it, and then with that source as the missing target |
| `Monarch.GenerateSingleSource` | lib/src/io/github/alechenninger/monarch/Monarch.java:82-142 | starting from the source's own map (empty when absent), the changes of each ancestor are applied in reverse ancestor order and in input order; the result is `ResolveSource` |
| `Monarch.GenerateSources` | lib/src/io/github/alechenninger/monarch/Monarch.java:54-70 | fails with the missing target when the target is unknown; otherwise copies the snapshot and rebuilds each descendant in order against the snapshot already updated by the earlier ones; the result is `Resolve` |
| `MonarchLemmas.SetStepExtends` | lib/src/io/github/alechenninger/monarch/Monarch.java:101-132 | processing one more set entry touches only its own key, and its outcome depends only on the original value under that key |
| `MonarchLemmas.SetInOrderProcesses` | lib/src/io/github/alechenninger/monarch/Monarch.java:101-132 | running the set loop in any order without repeats processes exactly the keys visited |
| `MonarchLemmas.SetOrderIrrelevant` | lib/src/io/github/alechenninger/monarch/Monarch.java:101-132 | every iteration order of a change's set entries leaves the same working map |
| `MonarchLemmas.TargetChangeStoresVerbatim` | lib/src/io/github/alechenninger/monarch/Monarch.java:105-131 | for a change declared at the source being resolved, a non-merge entry, or a merge entry whose key is absent or null, is stored exactly as given |
| `MonarchLemmas.TargetChangeIgnoresLookup` | lib/src/io/github/alechenninger/monarch/Monarch.java:105-106 | for a change declared at the source being resolved the result does not depend on the inheritance lookup at all |
| `MonarchLemmas.InheritedValuePruned` | lib/src/io/github/alechenninger/monarch/Monarch.java:105-116 | for a strict ancestor's value reported inherited: a non-merge key ends absent, an absent key stays absent, and a present merge key holds the unmerge of the old value and the change's value |
| `MonarchLemmas.NotInheritedValueStored` | lib/src/io/github/alechenninger/monarch/Monarch.java:105-131 | for a change declared at the source being resolved, or a strict ancestor's value not reported inherited: a merge key holding a non-null value holds the merge of the old and new value, any other key (a null merge key included) holds the new value |
| `MonarchLemmas.AfterChangeFrame` | lib/src/io/github/alechenninger/monarch/Monarch.java:101-137 | a change leaves every key it neither sets nor removes as it was |
| `MonarchLemmas.AfterChangesFrame` | lib/src/io/github/alechenninger/monarch/Monarch.java:99-138 | a sequence of changes leaves every key none of them sets or removes as it was |
| `MonarchLemmas.AfterSourcesFrame` | lib/src/io/github/alechenninger/monarch/Monarch.java:96-139 | walking the sources leaves every key that no change of those sources sets or removes as it was |
| `MonarchLemmas.SingleSourceFrame` | lib/src/io/github/alechenninger/monarch/Monarch.java:91-141 | a key that no change of an ancestor (the source included) sets or removes keeps the source's original value, or stays absent |
| `MonarchLemmas.AfterSourcesSameChanges` | lib/src/io/github/alechenninger/monarch/Monarch.java:96-97 | the walk reads the change list only through the per-source filter |
| `MonarchLemmas.UnrelatedChangeIgnored` | lib/src/io/github/alechenninger/monarch/Monarch.java:96-97 | removing a change whose source is not an ancestor of the source being resolved leaves its result unchanged |
| `MonarchLemmas.ResolveAllIgnoresUnrelated` | lib/src/io/github/alechenninger/monarch/Monarch.java:64-67 | a change unrelated to every source in the list does not affect resolving the list |
| `MonarchLemmas.ResolveIgnoresUnrelated` | lib/src/io/github/alechenninger/monarch/Monarch.java:54-70 | a change whose source is not an ancestor of any source in the target's subtree does not affect the new snapshot |
| `MonarchLemmas.ResolveAllFailure` | lib/src/io/github/alechenninger/monarch/Monarch.java:64-67 | resolving the descendants fails iff one of them is unknown to the hierarchy, and then names the first unknown one |
| `MonarchLemmas.ResolveFailure` | lib/src/io/github/alechenninger/monarch/Monarch.java:57-59 | an unknown target fails with "Could not find target" naming it; a known target fails iff some source of its subtree has no ancestry |
| `MonarchLemmas.ResolveAllFrame` | lib/src/io/github/alechenninger/monarch/Monarch.java:64-67 | resolving a list of sources adds exactly those sources and leaves every other source's map as it was |
| `MonarchLemmas.ResolveFrame` | lib/src/io/github/alechenninger/monarch/Monarch.java:60-69 | the new snapshot's sources are the old ones plus the target's subtree; a source outside the subtree keeps its old map, a null map becoming the empty one |
| `MonarchLemmas.ReversedAt` | lib/src/io/github/alechenninger/monarch/Monarch.java:96 | the i-th ancestor visited is the i-th from the end of the ancestor list |
| `MonarchLemmas.ReversedMembers` | lib/src/io/github/alechenninger/monarch/Monarch.java:96 | the reversed walk visits exactly the ancestors |

## Left out

- Hierarchy, DataLookupFromMap, Merger: their code is not part of this model. They are
  function-valued inputs (`Monarch.Env`), and nothing is assumed about ancestor order,
  inheritance or merge semantics.
- Properties that depend on those semantics are not stated: idempotence of applying a change
  twice, the merge/unmerge round trip, and redundancy pruning in terms of effective values. The
  model proves what the engine does with whatever the lookup and the merger answer.
- Merger's "not mergeable" failure: merge and unmerge are total functions here. Merger is not
  part of this model, so its failure cases are unknown.
- A null stored under a key is the value `Null`. The pruning branch tests `containsKey`
  (Monarch.java line 107), so it unmerges from a stored null; the merge branch tests
  `get(key) != null` (line 123), so a stored null is overwritten, not merged. The model keeps
  both tests as written.
- The text of the "Could not find target" message and its rendering of the hierarchy:
  `TargetNotFound` carries only the target.
- Hash-map iteration order: the set-entry loop picks keys in an arbitrary order, and
  `MonarchLemmas.SetOrderIrrelevant` shows that the order does not matter.
- Update in place and aliasing of Java maps: maps are values here. The Java copies are one
  level deep (Change.java lines 35-36, Monarch.java line 151): a list or map nested inside a
  value stays shared with the caller. The model's value semantics are stronger: no later
  mutation by a caller can reach a change or a result, at any depth.
- Changes.FromMap: a "remove" list with a non-string element is rejected when the change is
  read. Java's unchecked cast accepts it there. A null element never fails in Java
  (`remove(null)` is legal at Monarch.java line 136); a non-string element fails only if the
  resolver reaches that change, that is, when the change's source is an ancestor of a source
  being resolved.
- Changes.Value: scalars are strings, integers and booleans, and map keys are strings. Floats,
  dates and other YAML scalars are not represented, nor are maps with non-string keys: Java's
  `fromMap` accepts a "set" map such as `{1: x}`, and fails only when the resolver reaches the
  `String` key of that entry (Monarch.java line 101).
- Changes.Equals: the other object is null or a change. An object of another class (for which
  Java answers false) is not represented.
- `Change.hashCode` and `Change.toString`: hashing and formatting, with no behaviour to prove.
- The command-line layer (CliInputs, Inputs, SerializableInputs): option parsing, YAML file
  loading and help text, which are I/O around the core.
