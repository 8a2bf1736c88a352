/**
 * A change: the desired end state of one source, as a source name, the key/value pairs it
 * should have and the keys it should no longer have. Changes are immutable values; the
 * defensive copies the Java constructor makes are what value semantics give for free.
 */
module Changes {
  import opened Results

  /** A configuration value as read from YAML or JSON (Java's Object in monarch). */
  datatype Value =
    | Null
    | Str(text: string)
    | Int(number: int)
    | Bool(flag: bool)
    | List(items: seq<Value>)
    | Dict(entries: map<string, Value>)

  /**
   * A change. `source` is None when the document named no source (Java null); such a change
   * belongs to no source. `assignments` is the Java `set()` map, `remove` the `remove()` list.
   */
  datatype Change = Change(source: Option<string>, assignments: map<string, Value>, remove: seq<string>)

  /** The constructor: it fails on a null map or list, and otherwise keeps exactly its arguments. */
  function NewChange(source: Option<string>, assignments: Option<map<string, Value>>,
                     remove: Option<seq<string>>): (r: Result<Change>)
    ensures r.Success? <==> assignments.Some? && remove.Some?
    ensures r.Success? ==> r.value.source == source && r.value.assignments == assignments.value
                           && r.value.remove == remove.value
  {
    if assignments.None? then Failure(NullArgument("set"))
    else if remove.None? then Failure(NullArgument("remove"))
    else Success(Change(source, assignments.value, remove.value))
  }

  /** `map.get(name)`: an absent entry reads as null. */
  function Field(m: map<string, Value>, name: string): Value
  {
    if name in m then m[name] else Null
  }

  predicate AllStrings(items: seq<Value>)
  {
    forall i :: 0 <= i < |items| ==> items[i].Str?
  }

  /** The texts of a list of string values. */
  function Texts(items: seq<Value>): (r: seq<string>)
    requires AllStrings(items)
    ensures |r| == |items|
  {
    if items == [] then [] else [items[0].text] + Texts(items[1..])
  }

  /** A list of strings as a value; the shape `fromMap` expects under "remove". */
  function Strs(keys: seq<string>): (r: seq<Value>)
    ensures |r| == |keys|
  {
    if keys == [] then [] else [Str(keys[0])] + Strs(keys[1..])
  }

  /**
   * `Change.fromMap`: reads a change document. A null document is an error; a missing or null
   * "set" defaults to the empty map, a missing or null "remove" to the empty list, and a missing
   * or null "source" leaves the source null. A field of another shape is a cast error, checked
   * in the order "set", "remove", "source".
   */
  function FromMap(raw: Option<map<string, Value>>): (r: Result<Change>)
    ensures raw.None? ==> r == Failure(NullChangeMap)
    ensures raw.Some? ==>
              (r.Success? <==> (Field(raw.value, "set").Null? || Field(raw.value, "set").Dict?)
                               && (Field(raw.value, "remove").Null?
                                   || (Field(raw.value, "remove").List? && AllStrings(Field(raw.value, "remove").items)))
                               && (Field(raw.value, "source").Null? || Field(raw.value, "source").Str?))
    ensures r.Success? && Field(raw.value, "set").Dict? ==> r.value.assignments == Field(raw.value, "set").entries
    ensures r.Success? && Field(raw.value, "remove").List? ==> r.value.remove == Texts(Field(raw.value, "remove").items)
    ensures r.Success? && Field(raw.value, "source").Str? ==> r.value.source == Some(Field(raw.value, "source").text)
    ensures r.Success? && Field(raw.value, "set").Null? ==> r.value.assignments == map[]
    ensures r.Success? && Field(raw.value, "remove").Null? ==> r.value.remove == []
    ensures r.Success? && Field(raw.value, "source").Null? ==> r.value.source == None
  {
    match raw
    case None => Failure(NullChangeMap)
    case Some(m) =>
      var setField, removeField, sourceField := Field(m, "set"), Field(m, "remove"), Field(m, "source");
      if !(setField.Null? || setField.Dict?) then Failure(WrongType("set"))
      else if !(removeField.Null? || (removeField.List? && AllStrings(removeField.items))) then
        Failure(WrongType("remove"))
      else if !(sourceField.Null? || sourceField.Str?) then Failure(WrongType("source"))
      else
        var assignments := if setField.Null? then map[] else setField.entries;
        var remove := if removeField.Null? then [] else Texts(removeField.items);
        var source := if sourceField.Null? then None else Some(sourceField.text);
        NewChange(source, Some(assignments), Some(remove))
  }

  /** The document that describes a change, in the shape `FromMap` reads. */
  function ToMap(c: Change): map<string, Value>
  {
    map["source" := (if c.source.None? then Null else Str(c.source.value)),
        "set" := Dict(c.assignments),
        "remove" := List(Strs(c.remove))]
  }

  lemma {:induction false} StrsRoundTrip(keys: seq<string>)
    ensures AllStrings(Strs(keys)) && Texts(Strs(keys)) == keys
  {
    if keys != [] {
      StrsRoundTrip(keys[1..]);
      assert Strs(keys) == [Str(keys[0])] + Strs(keys[1..]);
    }
  }

  /** Reading back the document of a change gives the same change. */
  lemma FromMapRoundTrip(c: Change)
    ensures FromMap(Some(ToMap(c))) == Success(c)
  {
    StrsRoundTrip(c.remove);
  }

  /**
   * `Change.equals` against an object that is either null (None) or a change: it compares the
   * source, the set map and the remove list, which is exactly equality of the change values.
   */
  function Equals(c: Change, o: Option<Change>): (r: bool)
    ensures r <==> o == Some(c)
  {
    match o
    case None => false
    case Some(d) => c.source == d.source && c.assignments == d.assignments && c.remove == d.remove
  }

  lemma EqualsIsEquivalence(a: Change, b: Change, c: Change)
    ensures Equals(a, Some(a))
    ensures Equals(a, Some(b)) ==> Equals(b, Some(a))
    ensures Equals(a, Some(b)) && Equals(b, Some(c)) ==> Equals(a, Some(c))
    ensures !Equals(a, None)
  {
  }
}
