/**
 * What the loader reads off a record type's fields: the lower-cased names of the required
 * fields, in declaration order, and the defaults of the others.
 */
module Utils {
  import opened Wrappers
  import opened Text
  import opened Values
  import opened Dec

  /**
   * One field of a record type: its name, its annotation and its default. `None` is
   * `NODEFAULT`, which is also what a field with only a `default_factory` reports.
   */
  datatype Field = Field(name: string, typ: Ann, default: Option<Value>)

  /** `get_required_field_names_lower`: the lower-cased names of the fields without a default. */
  function RequiredFieldNamesLower(fields: seq<Field>): seq<string> {
    if |fields| == 0 then []
    else
      var f := fields[|fields| - 1];
      RequiredFieldNamesLower(fields[..|fields| - 1]) + (if f.default.None? then [Lower(f.name)] else [])
  }

  /** `get_field_defaults`: each field with a default mapped to it; a later field of the same name wins. */
  function FieldDefaults(fields: seq<Field>): map<string, Value> {
    if |fields| == 0 then map[]
    else
      var f := fields[|fields| - 1];
      var m := FieldDefaults(fields[..|fields| - 1]);
      if f.default.Some? then m[f.name := f.default.value] else m
  }

  /** No two fields share a lower-cased name (so no two share a name). */
  predicate DistinctLowerNames(fields: seq<Field>) {
    forall i, j :: 0 <= i < j < |fields| ==> Lower(fields[i].name) != Lower(fields[j].name)
  }

  /** The required names of two field lists one after the other are the two lists' required names in order. */
  lemma {:induction false} RequiredConcat(a: seq<Field>, b: seq<Field>)
    ensures RequiredFieldNamesLower(a + b) == RequiredFieldNamesLower(a) + RequiredFieldNamesLower(b)
  {
    if |b| == 0 {
      assert a + b == a;
    } else {
      assert (a + b)[..|a + b| - 1] == a + b[..|b| - 1];
      RequiredConcat(a, b[..|b| - 1]);
    }
  }

  /** A name is required exactly when it is the lower-cased name of a field without a default. */
  lemma {:induction false} RequiredMembership(fields: seq<Field>, x: string)
    ensures x in RequiredFieldNamesLower(fields) <==>
              exists i :: 0 <= i < |fields| && fields[i].default.None? && Lower(fields[i].name) == x
  {
    if |fields| > 0 {
      var init := fields[..|fields| - 1];
      RequiredMembership(init, x);
      assert forall i :: 0 <= i < |init| ==> init[i] == fields[i];
    }
  }

  /** There are never more required names than fields, and they are all lower case. */
  lemma {:induction false} RequiredShape(fields: seq<Field>)
    ensures |RequiredFieldNamesLower(fields)| <= |fields|
    ensures forall k :: 0 <= k < |RequiredFieldNamesLower(fields)| ==>
              Lower(RequiredFieldNamesLower(fields)[k]) == RequiredFieldNamesLower(fields)[k]
  {
    if |fields| > 0 {
      RequiredShape(fields[..|fields| - 1]);
      LowerIdempotent(fields[|fields| - 1].name);
    }
  }

  /** The defaults hold exactly the names of the fields that have a default. */
  lemma {:induction false} DefaultsKeys(fields: seq<Field>, k: string)
    ensures k in FieldDefaults(fields) <==>
              exists i :: 0 <= i < |fields| && fields[i].default.Some? && fields[i].name == k
  {
    if |fields| > 0 {
      var init := fields[..|fields| - 1];
      DefaultsKeys(init, k);
      assert forall i :: 0 <= i < |init| ==> init[i] == fields[i];
    }
  }

  /** The default recorded for a name is that of the last field of that name that has one. */
  lemma {:induction false} DefaultsValue(fields: seq<Field>, i: nat)
    requires i < |fields| && fields[i].default.Some?
    requires forall j :: i < j < |fields| && fields[j].name == fields[i].name ==> fields[j].default.None?
    ensures fields[i].name in FieldDefaults(fields)
    ensures FieldDefaults(fields)[fields[i].name] == fields[i].default.value
  {
    var n := |fields| - 1;
    if i < n {
      DefaultsValue(fields[..n], i);
    }
  }

  /**
   * With distinct names every field is on exactly one side: a field without a default is
   * required and has no default entry, a field with one has its default and is not required.
   */
  lemma Partition(fields: seq<Field>, i: nat)
    requires DistinctLowerNames(fields) && i < |fields|
    ensures Lower(fields[i].name) in RequiredFieldNamesLower(fields) <==> fields[i].default.None?
    ensures fields[i].name in FieldDefaults(fields) <==> fields[i].default.Some?
    ensures fields[i].default.Some? ==> FieldDefaults(fields)[fields[i].name] == fields[i].default.value
  {
    RequiredMembership(fields, Lower(fields[i].name));
    DefaultsKeys(fields, fields[i].name);
    if fields[i].default.Some? {
      DefaultsValue(fields, i);
    }
  }
}
