/**
 * The loader: coercion of environment strings, the fast path that builds a record's keyword
 * arguments from a whole dict, and the field-by-field paths of `load` that prepare the data
 * handed to the record conversion.
 */
module Loader {
  import opened Wrappers
  import opened Text
  import opened Values
  import opened Dec
  import opened Utils
  import opened JsonProv

  /** The lower-case words that read as `True`. */
  const TrueWords: seq<string> := ["true", "1", "yes", "on"]

  const BoolAnn: Ann := Plain(Class(BoolCls))
  const IntAnn: Ann := Plain(Class(IntCls))
  const StrAnn: Ann := Plain(Class(StrCls))

  // ---------------------------------------------------------------------------------------
  // _convert_env_value

  /**
   * `_convert_env_value(value, field_type)`: a string becomes a `bool` by its lower-case form,
   * an `int` when it parses (and stays as it is when it does not); everything else is unchanged.
   */
  function ConvertEnvValue(value: Value, fieldType: Ann): Value {
    if !value.VStr? then value
    else if fieldType == BoolAnn then VBool(Lower(value.s) in TrueWords)
    else if fieldType == IntAnn then
      match ParseInt(value.s)
      case Some(n) => VInt(n)
      case None => value
    else if fieldType == StrAnn then VStr(Str(value))
    else value
  }

  /** Anything but a string, and any string for a target other than `bool` or `int`, is kept. */
  lemma ConvertEnvKeeps(value: Value, fieldType: Ann)
    requires !value.VStr? || (fieldType != BoolAnn && fieldType != IntAnn)
    ensures ConvertEnvValue(value, fieldType) == value
  {
  }

  /** For a `bool` target the result is `True` exactly for the words `true`, `1`, `yes`, `on`, in any case. */
  lemma ConvertEnvBool(s: string)
    ensures ConvertEnvValue(VStr(s), BoolAnn) == VBool(Lower(s) in TrueWords)
    ensures ConvertEnvValue(VStr(s), BoolAnn) == ConvertEnvValue(VStr(Lower(s)), BoolAnn)
  {
    LowerIdempotent(s);
  }

  lemma ConvertEnvBoolExamples()
    ensures ConvertEnvValue(VStr("YES"), BoolAnn) == VBool(true)
    ensures ConvertEnvValue(VStr("nope"), BoolAnn) == VBool(false)
  {
    assert Lower("YES") == "yes";
    assert Lower("nope") == "nope";
  }

  /** For an `int` target a string is parsed, and kept as it is when `int()` refuses it. */
  lemma ConvertEnvInt(s: string)
    ensures ParseInt(s).Some? ==> ConvertEnvValue(VStr(s), IntAnn) == VInt(ParseInt(s).value)
    ensures ParseInt(s).None? ==> ConvertEnvValue(VStr(s), IntAnn) == VStr(s)
  {
  }

  /**
   * The decimal form of an integer within the digit limit reads back as that integer; a longer
   * one is refused by `int()` and kept as a string.
   */
  lemma ConvertEnvIntRoundTrip(n: int)
    ensures WithinDigitLimit(n) ==> ConvertEnvValue(VStr(IntToStr(n)), IntAnn) == VInt(n)
    ensures !WithinDigitLimit(n) ==> ConvertEnvValue(VStr(IntToStr(n)), IntAnn) == VStr(IntToStr(n))
  {
    ParseIntToStr(n);
  }

  // ---------------------------------------------------------------------------------------
  // Building a dict field by field

  /** What one field contributes: nothing, an entry under its name, or an exception. */
  datatype Step = Skip | Put(v: Value) | Fail(e: PyError)

  /** `d[names[i]] = v` for each `Put`, in order, up to the first `Fail`, which is raised. */
  function Kwargs(names: seq<string>, steps: seq<Step>): Result<PyDict>
    requires |names| == |steps|
  {
    if |steps| == 0 then Ok([])
    else
      var n := |steps| - 1;
      match Kwargs(names[..n], steps[..n])
      case Err(e) => Err(e)
      case Ok(d) =>
        match steps[n]
        case Skip => Ok(d)
        case Put(v) => Ok(Insert(d, VStr(names[n]), v))
        case Fail(e) => Err(e)
  }

  function Names(fields: seq<Field>): (r: seq<string>)
    ensures |r| == |fields| && forall i :: 0 <= i < |fields| ==> r[i] == fields[i].name
  {
    seq(|fields|, i requires 0 <= i < |fields| => fields[i].name)
  }

  predicate DistinctNames(names: seq<string>) {
    forall i, j :: 0 <= i < j < |names| ==> names[i] != names[j]
  }

  /** The build raises exactly when some field fails, and then it raises the first failure. */
  lemma {:induction false} KwargsFails(names: seq<string>, steps: seq<Step>)
    requires |names| == |steps|
    ensures Kwargs(names, steps).Err? <==> exists i :: 0 <= i < |steps| && steps[i].Fail?
    ensures forall i :: 0 <= i < |steps| && steps[i].Fail? && (forall j :: 0 <= j < i ==> !steps[j].Fail?) ==>
              Kwargs(names, steps) == Err(steps[i].e)
  {
    if |steps| > 0 {
      var n := |steps| - 1;
      KwargsFails(names[..n], steps[..n]);
      assert forall i :: 0 <= i < n ==> steps[..n][i] == steps[i];
    }
  }

  /**
   * With distinct names, the built dict holds under each name the value its field put, and
   * nothing under a name whose field was skipped or that is no field's name.
   */
  lemma {:induction false} KwargsGet(names: seq<string>, steps: seq<Step>, s: string)
    requires |names| == |steps| && DistinctNames(names) && Kwargs(names, steps).Ok?
    ensures s !in names ==> Get(Kwargs(names, steps).value, VStr(s)) == None
    ensures forall i :: 0 <= i < |names| && names[i] == s ==>
              Get(Kwargs(names, steps).value, VStr(s)) == (if steps[i].Put? then Some(steps[i].v) else None)
  {
    if |steps| > 0 {
      var n := |steps| - 1;
      var d := Kwargs(names[..n], steps[..n]).value;
      KwargsGet(names[..n], steps[..n], s);
      if steps[n].Put? {
        GetInsert(d, names[n], steps[n].v, s);
      }
      forall i | 0 <= i < n && names[i] == s ensures names[..n][i] == s && names[n] != s {
      }
    }
  }

  /** One turn of a building loop: step `i` is skipped, assigned, or raises for the whole build. */
  lemma KwargsStep(names: seq<string>, steps: seq<Step>, i: nat, d: PyDict)
    requires |names| == |steps| && i < |steps| && Kwargs(names[..i], steps[..i]) == Ok(d)
    ensures steps[i].Fail? ==> Kwargs(names, steps) == Err(steps[i].e)
    ensures steps[i].Skip? ==> Kwargs(names[..i + 1], steps[..i + 1]) == Ok(d)
    ensures steps[i].Put? ==> Kwargs(names[..i + 1], steps[..i + 1]) == Ok(Insert(d, VStr(names[i]), steps[i].v))
  {
    assert names[..i + 1][..i] == names[..i];
    assert steps[..i + 1][..i] == steps[..i];
    if steps[i].Fail? {
      KwargsFails(names[..i], steps[..i]);
      forall j | 0 <= j < i ensures !steps[j].Fail? {
        assert steps[..i][j] == steps[j];
      }
      KwargsFails(names, steps);
    }
  }

  // ---------------------------------------------------------------------------------------
  // _extreme_fast_json_load

  /** The value a field present in the data gets: per target type, or through `dec_hook`. */
  function PresentValue(t: Ann, v: Value): Result<Value> {
    if t == IntAnn then IntOf(v)
    else if t == StrAnn then Ok(VStr(Str(v)))
    else if t == BoolAnn then Ok(VBool(Lower(Str(v)) in TrueWords))
    else
      match DecHook(t, v)
      case Ok(x) => Ok(x)
      case Err(_) => Ok(v)
  }

  /** One field of the fast path: the data's value under its lower-case name, else its default. */
  function JsonStep(f: Field, data: PyDict): Step {
    var lw := VStr(Lower(f.name));
    if HasKey(data, lw) then
      match PresentValue(f.typ, Get(data, lw).value)
      case Ok(v) => Put(v)
      case Err(e) => Fail(e)
    else if f.default.Some? then Put(f.default.value)
    else Skip
  }

  function JsonSteps(fields: seq<Field>, data: PyDict): (r: seq<Step>)
    ensures |r| == |fields| && forall i :: 0 <= i < |fields| ==> r[i] == JsonStep(fields[i], data)
  {
    seq(|fields|, i requires 0 <= i < |fields| => JsonStep(fields[i], data))
  }

  /** The keyword arguments the fast path builds once every required field is present. */
  function Assemble(fields: seq<Field>, data: PyDict): Result<PyDict> {
    Kwargs(Names(fields), JsonSteps(fields, data))
  }

  /** The lower-case required names that are not keys of the data. */
  function Missing(fields: seq<Field>, data: PyDict): set<string> {
    set m | m in RequiredFieldNamesLower(fields) && !HasKey(data, VStr(m))
  }

  function MissingMessage(name: string): string {
    "Required field " + ReprStr(name) + " not found"
  }

  /** `e` is the error raised for one of the missing names. */
  predicate RaisesMissing(fields: seq<Field>, data: PyDict, e: PyError) {
    exists m :: m in Missing(fields, data) && e == ValueError(MissingMessage(m))
  }

  /** Nothing is missing exactly when every field without a default has its lower-case name in the data. */
  lemma MissingEmpty(fields: seq<Field>, data: PyDict)
    ensures Missing(fields, data) == {} <==>
              forall i :: 0 <= i < |fields| && fields[i].default.None? ==> HasKey(data, VStr(Lower(fields[i].name)))
  {
    if Missing(fields, data) == {} {
      forall i | 0 <= i < |fields| && fields[i].default.None?
        ensures HasKey(data, VStr(Lower(fields[i].name)))
      {
        RequiredMembership(fields, Lower(fields[i].name));
        assert Lower(fields[i].name) !in Missing(fields, data);
      }
    } else {
      var m :| m in Missing(fields, data);
      RequiredMembership(fields, m);
    }
  }

  /**
   * `set(required).issubset(set(data.keys()))`, raising for one of the missing names when it
   * fails; which one is named depends on set order.
   */
  method CheckRequired(fields: seq<Field>, data: PyDict) returns (e: Option<PyError>)
    ensures Missing(fields, data) != {} ==> e.Some? && RaisesMissing(fields, data, e.value)
    ensures Missing(fields, data) == {} ==> e.None?
  {
    var required := set m | m in RequiredFieldNamesLower(fields);
    var missing := set m | m in required && !HasKey(data, VStr(m));
    assert missing == Missing(fields, data);
    if missing != {} {
      var m :| m in missing;
      return Some(ValueError(MissingMessage(m)));
    }
    return None;
  }

  /** `_extreme_fast_json_load(obj, data)`, returning the keyword arguments `obj(**kwargs)` is called with. */
  method FastJsonLoad(fields: seq<Field>, data: PyDict) returns (r: Result<PyDict>)
    ensures Missing(fields, data) != {} ==> r.Err? && RaisesMissing(fields, data, r.error)
    ensures Missing(fields, data) == {} ==> r == Assemble(fields, data)
  {
    var missing := CheckRequired(fields, data);
    if missing.Some? {
      return Err(missing.value);
    }
    ghost var names := Names(fields);
    ghost var steps := JsonSteps(fields, data);
    var kwargs: PyDict := [];
    var i := 0;
    while i < |fields|
      invariant 0 <= i <= |fields|
      invariant Kwargs(names[..i], steps[..i]) == Ok(kwargs)
    {
      var field := fields[i];
      var fieldLower := VStr(Lower(field.name));
      KwargsStep(names, steps, i, kwargs);
      if HasKey(data, fieldLower) {
        var value := Get(data, fieldLower).value;
        var v := PresentValue(field.typ, value);
        if v.Err? {
          return Err(v.error);
        }
        kwargs := Insert(kwargs, VStr(field.name), v.value);
      } else if field.default.Some? {
        kwargs := Insert(kwargs, VStr(field.name), field.default.value);
      }
      i := i + 1;
    }
    assert names[..i] == names && steps[..i] == steps;
    return Ok(kwargs);
  }

  /**
   * The only exception of the build is `int()` refusing the value of a present `int` field:
   * the other targets convert without raising, and `dec_hook` errors are swallowed.
   */
  lemma AssembleRaisesOnlyForInt(fields: seq<Field>, data: PyDict)
    requires Assemble(fields, data).Err?
    ensures exists i :: 0 <= i < |fields| && fields[i].typ == IntAnn &&
              HasKey(data, VStr(Lower(fields[i].name))) &&
              IntOf(Get(data, VStr(Lower(fields[i].name))).value) == Err(Assemble(fields, data).error)
  {
    var steps := JsonSteps(fields, data);
    KwargsFails(Names(fields), steps);
    var i := FirstFail(steps);
    JsonStepFails(fields[i], data);
  }

  /** A field's step fails only for a present `int` field whose value `int()` refuses. */
  lemma JsonStepFails(f: Field, data: PyDict)
    requires JsonStep(f, data).Fail?
    ensures f.typ == IntAnn && HasKey(data, VStr(Lower(f.name)))
    ensures IntOf(Get(data, VStr(Lower(f.name))).value) == Err(JsonStep(f, data).e)
  {
    var lw := VStr(Lower(f.name));
    assert HasKey(data, lw);
    PresentErr(f.typ, Get(data, lw).value);
  }

  /** Of the conversions of a present value only `int()` raises. */
  lemma PresentErr(t: Ann, v: Value)
    ensures PresentValue(t, v).Err? ==> t == IntAnn && PresentValue(t, v) == IntOf(v)
  {
    if t != IntAnn && t != StrAnn && t != BoolAnn {
      PresentOther(t, v);
    }
  }

  /** The first failing step, when there is one. */
  lemma {:induction false} FirstFail(steps: seq<Step>) returns (i: nat)
    requires exists k :: 0 <= k < |steps| && steps[k].Fail?
    ensures i < |steps| && steps[i].Fail? && forall j :: 0 <= j < i ==> !steps[j].Fail?
  {
    if steps[0].Fail? {
      i := 0;
    } else {
      var k :| 0 <= k < |steps| && steps[k].Fail?;
      assert steps[1..][k - 1].Fail?;
      var i' := FirstFail(steps[1..]);
      i := i' + 1;
      forall j | 0 <= j < i ensures !steps[j].Fail? {
        if j > 0 { assert steps[j] == steps[1..][j - 1]; }
      }
    }
  }

  /**
   * With distinct field names, the keyword arguments hold exactly the fields present in the
   * data, with their converted values, and the absent fields that have a default, with it.
   */
  lemma AssembleKeywords(fields: seq<Field>, data: PyDict, i: nat)
    requires DistinctNames(Names(fields)) && i < |fields| && Assemble(fields, data).Ok?
    ensures var f := fields[i];
            var lw := VStr(Lower(f.name));
            if HasKey(data, lw) then
              PresentValue(f.typ, Get(data, lw).value).Ok? &&
              Get(Assemble(fields, data).value, VStr(f.name)) == Some(PresentValue(f.typ, Get(data, lw).value).value)
            else Get(Assemble(fields, data).value, VStr(f.name)) == f.default
  {
    var steps := JsonSteps(fields, data);
    KwargsFails(Names(fields), steps);
    KwargsGet(Names(fields), steps, fields[i].name);
  }

  /** No keyword argument is built under a name that is no field's name. */
  lemma AssembleNoOtherKeys(fields: seq<Field>, data: PyDict, s: string)
    requires DistinctNames(Names(fields)) && Assemble(fields, data).Ok?
    requires forall i :: 0 <= i < |fields| ==> fields[i].name != s
    ensures Get(Assemble(fields, data).value, VStr(s)) == None
  {
    KwargsGet(Names(fields), JsonSteps(fields, data), s);
  }

  /** A JSON `true`/`false` for a `bool` field stays `True`/`False`, through `str(value).lower()`. */
  lemma PresentBool(b: bool)
    ensures PresentValue(BoolAnn, VBool(b)) == Ok(VBool(b))
  {
    StrOfBool(b);
  }

  /** A present field of any other type takes the `dec_hook` result, or its raw value if that raises. */
  lemma PresentOther(t: Ann, v: Value)
    requires t != IntAnn && t != StrAnn && t != BoolAnn
    ensures DecHook(t, v).Ok? ==> PresentValue(t, v) == DecHook(t, v)
    ensures DecHook(t, v).Err? ==> PresentValue(t, v) == Ok(v)
  {
  }

  // ---------------------------------------------------------------------------------------
  // load: renaming the keys of an environment snapshot

  /**
   * One turn of the rename loop: a field whose lower-case name is a key takes that value,
   * converted, under its own name (`data[name] = convert(data.pop(lower))`); otherwise its
   * default is assigned, or the (absent) lower-case key is popped.
   */
  function RenameStep(data: PyDict, f: Field): PyDict {
    var lw := VStr(Lower(f.name));
    if HasKey(data, lw) then Insert(Pop(data, lw), VStr(f.name), ConvertEnvValue(Get(data, lw).value, f.typ))
    else if f.default.Some? then Insert(data, VStr(f.name), f.default.value)
    else Pop(data, lw)
  }

  /** The rename loop over all fields, in order. */
  function Renamed(fields: seq<Field>, data: PyDict): PyDict {
    if |fields| == 0 then data
    else RenameStep(Renamed(fields[..|fields| - 1], data), fields[|fields| - 1])
  }

  /** The rename loop of `load` for an environment provider with `get_all`, on the data it returned. */
  method RenameEnvKeys(fields: seq<Field>, data: PyDict) returns (r: PyDict)
    ensures r == Renamed(fields, data)
  {
    r := data;
    var i := 0;
    while i < |fields|
      invariant 0 <= i <= |fields|
      invariant r == Renamed(fields[..i], data)
    {
      var field := fields[i];
      var fieldLower := VStr(Lower(field.name));
      assert fields[..i + 1][..i] == fields[..i];
      if HasKey(r, fieldLower) {
        var popped := Get(r, fieldLower).value;
        r := Insert(Pop(r, fieldLower), VStr(field.name), ConvertEnvValue(popped, field.typ));
      } else if field.default.Some? {
        r := Insert(r, VStr(field.name), field.default.value);
      } else {
        r := Pop(r, fieldLower);
      }
      i := i + 1;
    }
    assert fields[..i] == fields;
  }

  /** A turn leaves every key alone but the field's name and its lower-case name. */
  lemma RenameFrame(data: PyDict, f: Field, s: string)
    requires s != f.name && s != Lower(f.name)
    ensures Get(RenameStep(data, f), VStr(s)) == Get(data, VStr(s))
  {
    var lw := Lower(f.name);
    GetPop(data, lw, s);
    if HasKey(data, VStr(lw)) {
      GetInsert(Pop(data, VStr(lw)), f.name, ConvertEnvValue(Get(data, VStr(lw)).value, f.typ), s);
    } else if f.default.Some? {
      GetInsert(data, f.name, f.default.value, s);
    }
  }

  /** What a field's own turn leaves under its name, read off the dict it starts from. */
  function RenameExpected(data: PyDict, f: Field): Option<Value> {
    var lw := VStr(Lower(f.name));
    if HasKey(data, lw) then Some(ConvertEnvValue(Get(data, lw).value, f.typ))
    else if f.default.Some? then f.default
    else Get(data, VStr(f.name))
  }

  /** What a field's own turn leaves under its name. */
  lemma RenameOwn(data: PyDict, f: Field)
    ensures Get(RenameStep(data, f), VStr(f.name)) == RenameExpected(data, f)
  {
    var lw := Lower(f.name);
    if HasKey(data, VStr(lw)) {
      GetInsert(Pop(data, VStr(lw)), f.name, ConvertEnvValue(Get(data, VStr(lw)).value, f.typ), f.name);
    } else if f.default.Some? {
      GetInsert(data, f.name, f.default.value, f.name);
    }
  }

  /** Keys that are neither a field's name nor its lower-case name come out of the loop untouched. */
  lemma {:induction false} RenamedUntouched(fields: seq<Field>, data: PyDict, s: string)
    requires forall j :: 0 <= j < |fields| ==> s != fields[j].name && s != Lower(fields[j].name)
    ensures Get(Renamed(fields, data), VStr(s)) == Get(data, VStr(s))
  {
    if |fields| > 0 {
      var n := |fields| - 1;
      RenamedUntouched(fields[..n], data, s);
      RenameFrame(Renamed(fields[..n], data), fields[n], s);
    }
  }

  /** With distinct lower-case names, no field's turn touches the keys of another field. */
  lemma OtherFieldKeys(fields: seq<Field>, i: nat, j: nat, s: string)
    requires DistinctLowerNames(fields) && i < |fields| && j < |fields| && i != j
    requires s == fields[i].name || s == Lower(fields[i].name)
    ensures s != fields[j].name && s != Lower(fields[j].name)
  {
    LowerIdempotent(fields[i].name);
    LowerIdempotent(fields[j].name);
  }

  /**
   * With distinct lower-case names, after the loop each field's name holds what its own turn
   * computed from the original data: the converted value of its lower-case key when that is
   * present, else its default, else whatever the data held under its name.
   */
  lemma {:induction false} RenamedField(fields: seq<Field>, data: PyDict, i: nat)
    requires DistinctLowerNames(fields) && i < |fields|
    ensures Get(Renamed(fields, data), VStr(fields[i].name)) == RenameExpected(data, fields[i])
  {
    var n := |fields| - 1;
    var f := fields[i];
    var prefix := fields[..n];
    assert DistinctLowerNames(prefix);
    if i == n {
      forall j | 0 <= j < n ensures f.name != prefix[j].name && f.name != Lower(prefix[j].name) {
        OtherFieldKeys(fields, i, j, f.name);
      }
      forall j | 0 <= j < n ensures Lower(f.name) != prefix[j].name && Lower(f.name) != Lower(prefix[j].name) {
        OtherFieldKeys(fields, i, j, Lower(f.name));
      }
      RenamedUntouched(prefix, data, f.name);
      RenamedUntouched(prefix, data, Lower(f.name));
      RenameOwn(Renamed(prefix, data), f);
    } else {
      RenamedField(prefix, data, i);
      OtherFieldKeys(fields, i, n, f.name);
      RenameFrame(Renamed(prefix, data), fields[n], f.name);
    }
  }

  // ---------------------------------------------------------------------------------------
  // load: asking a provider without `get_all` field by field

  /** `provider.get_value(name)` for a provider answering from `values`: `None` when it has no value. */
  function Lookup(values: map<string, Value>, name: string): Value {
    if name in values then values[name] else VNone
  }

  /**
   * One field of the per-field path: a value other than `None` is kept (converted when the
   * provider is an environment), a missing field without a default raises, one with a default
   * is left to the default.
   */
  function CollectStep(f: Field, values: map<string, Value>, isEnv: bool): Step {
    var v := Lookup(values, f.name);
    if v != VNone then Put(if isEnv then ConvertEnvValue(v, f.typ) else v)
    else if f.default.None? then Fail(ValueError(MissingMessage(f.name)))
    else Skip
  }

  function CollectSteps(fields: seq<Field>, values: map<string, Value>, isEnv: bool): (r: seq<Step>)
    ensures |r| == |fields| && forall i :: 0 <= i < |fields| ==> r[i] == CollectStep(fields[i], values, isEnv)
  {
    seq(|fields|, i requires 0 <= i < |fields| => CollectStep(fields[i], values, isEnv))
  }

  /** The dict the per-field path builds, or the error it raises. */
  function Collected(fields: seq<Field>, values: map<string, Value>, isEnv: bool): Result<PyDict> {
    Kwargs(Names(fields), CollectSteps(fields, values, isEnv))
  }

  /** The per-field loop of `load`. */
  method CollectPerField(fields: seq<Field>, values: map<string, Value>, isEnv: bool) returns (r: Result<PyDict>)
    ensures r == Collected(fields, values, isEnv)
  {
    ghost var names := Names(fields);
    ghost var steps := CollectSteps(fields, values, isEnv);
    var data: PyDict := [];
    var i := 0;
    while i < |fields|
      invariant 0 <= i <= |fields|
      invariant Kwargs(names[..i], steps[..i]) == Ok(data)
    {
      var field := fields[i];
      KwargsStep(names, steps, i, data);
      var value := Lookup(values, field.name);
      if value != VNone {
        if isEnv {
          value := ConvertEnvValue(value, field.typ);
        }
        data := Insert(data, VStr(field.name), value);
      } else if field.default.None? {
        return Err(ValueError(MissingMessage(field.name)));
      }
      i := i + 1;
    }
    assert names[..i] == names && steps[..i] == steps;
    return Ok(data);
  }

  /** A field has no value from the provider and no default. */
  predicate Unanswered(f: Field, values: map<string, Value>) {
    Lookup(values, f.name) == VNone && f.default.None?
  }

  /** The per-field path succeeds exactly when every field without a default has a value. */
  lemma CollectedOk(fields: seq<Field>, values: map<string, Value>, isEnv: bool)
    ensures Collected(fields, values, isEnv).Ok? <==> forall i :: 0 <= i < |fields| ==> !Unanswered(fields[i], values)
  {
    KwargsFails(Names(fields), CollectSteps(fields, values, isEnv));
  }

  /** It raises for the first field, in declaration order, that has neither a value nor a default. */
  lemma CollectedFirstMissing(fields: seq<Field>, values: map<string, Value>, isEnv: bool, i: nat)
    requires i < |fields| && Unanswered(fields[i], values)
    requires forall j :: 0 <= j < i ==> !Unanswered(fields[j], values)
    ensures Collected(fields, values, isEnv) == Err(ValueError(MissingMessage(fields[i].name)))
  {
    KwargsFails(Names(fields), CollectSteps(fields, values, isEnv));
  }

  /**
   * With distinct names, the dict holds each answered field's value, converted for an
   * environment, and nothing for a field left to its default.
   */
  lemma CollectedValues(fields: seq<Field>, values: map<string, Value>, isEnv: bool, i: nat)
    requires DistinctNames(Names(fields)) && i < |fields| && Collected(fields, values, isEnv).Ok?
    ensures var v := Lookup(values, fields[i].name);
            Get(Collected(fields, values, isEnv).value, VStr(fields[i].name)) ==
              if v == VNone then None else Some(if isEnv then ConvertEnvValue(v, fields[i].typ) else v)
  {
    KwargsGet(Names(fields), CollectSteps(fields, values, isEnv), fields[i].name);
  }

  // ---------------------------------------------------------------------------------------
  // load: choosing the path by provider

  /**
   * The provider `load` is given: the JSON provider; another provider with `get_all` (an
   * environment snapshot or not), given by what `get_all` returns; or one answering only
   * `get_value`, given by the values it has.
   */
  datatype Provider =
    | Json(json: JSONProvider)
    | WithGetAll(isEnv: bool, all: PyDict)
    | GetValueOnly(isEnv: bool, values: map<string, Value>)

  /**
   * How `load` ends: the fast path calls `obj(**kwargs)` itself; the other paths hand a dict to
   * `msgspec.convert`, strictly or not, which is not part of this model.
   */
  datatype Loaded = Built(kwargs: PyDict) | ToConvert(data: PyDict, strict: bool)

  /** The result of the fast path, wrapped as `load` returns it. */
  function AsBuilt(r: Result<PyDict>): Result<Loaded> {
    if r.Ok? then Ok(Built(r.value)) else Err(r.error)
  }

  /** `load(obj, provider, strict=strict)` up to the final conversion. */
  method Load(fields: seq<Field>, provider: Provider, strict: bool) returns (r: Result<Loaded>)
    ensures provider.Json? ==>
              var data := provider.json.normalized;
              (Missing(fields, data) != {} ==> r.Err? && RaisesMissing(fields, data, r.error)) &&
              (Missing(fields, data) == {} ==> r == AsBuilt(Assemble(fields, data)))
    ensures provider.WithGetAll? && !provider.isEnv ==>
              var data := provider.all;
              (Missing(fields, data) != {} ==> r.Err? && RaisesMissing(fields, data, r.error)) &&
              (Missing(fields, data) == {} ==> r == AsBuilt(Assemble(fields, data)))
    ensures provider.WithGetAll? && provider.isEnv ==>
              var data := provider.all;
              (Missing(fields, data) != {} ==> r.Err? && RaisesMissing(fields, data, r.error)) &&
              (Missing(fields, data) == {} ==> r == Ok(ToConvert(Renamed(fields, data), strict)))
    ensures provider.GetValueOnly? ==>
              var c := Collected(fields, provider.values, provider.isEnv);
              r == if c.Ok? then Ok(ToConvert(c.value, strict)) else Err(c.error)
  {
    match provider
    case Json(p) =>
      var data := p.GetAll();
      var kwargs := FastJsonLoad(fields, data);
      r := AsBuilt(kwargs);
    case WithGetAll(isEnv, all) =>
      if !isEnv {
        var kwargs := FastJsonLoad(fields, all);
        r := AsBuilt(kwargs);
      } else {
        var missing := CheckRequired(fields, all);
        if missing.Some? {
          return Err(missing.value);
        }
        var data := RenameEnvKeys(fields, all);
        r := Ok(ToConvert(data, strict));
      }
    case GetValueOnly(isEnv, values) =>
      var data := CollectPerField(fields, values, isEnv);
      if data.Err? {
        return Err(data.error);
      }
      r := Ok(ToConvert(data.value, strict));
  }
}
