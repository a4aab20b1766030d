/**
 * The decode hook: a runtime `isinstance` that understands the type annotations of a
 * configuration record (unions, `list[T]`, other generic aliases), and the hook that turns a
 * raw value into a value of an annotated type, through the type's `__validate__` when it has one.
 */
module Dec {
  import opened Wrappers
  import opened Values
  import SecretValidate

  /** What an annotation is at the bottom: a class, or some other object (`Any`, `Literal`, ...). */
  datatype Form = Class(cls: Cls) | NonClass(name: string)

  /** `list[int]` is a builtin alias; `typing.List[int]` is a typing alias. */
  datatype AliasKind = BuiltinAlias | TypingAlias

  /**
   * A type annotation, as `typing.get_origin` sees it: `Plain` has no origin, `Union` covers
   * both `Union[...]`/`Optional[...]` and `A | B`, and `Generic` is a parameterised alias with
   * its origin and arguments (`list[int]` is `Generic(Class(ListCls), [Plain(Class(IntCls))], BuiltinAlias)`).
   */
  datatype Ann =
    | Plain(form: Form)
    | Union(alts: seq<Ann>)
    | Generic(origin: Form, args: seq<Ann>, kind: AliasKind)

  /**
   * `isinstance_typed(value, typ)`, with Python's exceptions as `Err`: a non-class plain
   * annotation gives `false` (its `TypeError` is caught), a list annotation with more than one
   * argument raises `ValueError` on a list (the one-element unpacking), and a non-class origin
   * raises `TypeError`.
   */
  function IsInstanceTyped(v: Value, a: Ann): Result<bool>
    decreases a, 0
  {
    match a
    case Plain(Class(c)) => Ok(IsInstance(v, c))
    case Plain(NonClass(_)) => Ok(false)
    case Union(alts) => AnyMatch(v, alts)
    case Generic(o, args, _) =>
      if o == Class(ListCls) then
        if !IsList(v) then Ok(false)
        else if |args| == 0 then Ok(true)
        else if |args| > 1 then Err(ValueError("too many values to unpack (expected 1)"))
        else AllMatch(v.items, args[0])
      else
        match o
        case Class(c) => Ok(IsInstance(v, c))
        case NonClass(_) => Err(TypeError("isinstance() arg 2 must be a type, a tuple of types, or a union"))
  }

  /** `any(isinstance_typed(v, t) for t in alts)`: stops at the first `true` or the first exception. */
  function AnyMatch(v: Value, alts: seq<Ann>): Result<bool>
    decreases alts, 0
  {
    if |alts| == 0 then Ok(false)
    else
      match IsInstanceTyped(v, alts[0])
      case Err(e) => Err(e)
      case Ok(b) => if b then Ok(true) else AnyMatch(v, alts[1..])
  }

  /** `all(isinstance_typed(x, t) for x in items)`: stops at the first `false` or the first exception. */
  function AllMatch(items: seq<Value>, t: Ann): Result<bool>
    decreases t, |items| + 1
  {
    if |items| == 0 then Ok(true)
    else
      match IsInstanceTyped(items[0], t)
      case Err(e) => Err(e)
      case Ok(b) => if b then AllMatch(items[1..], t) else Ok(false)
  }

  /** The class or object an annotation names: the plain form itself, or a generic's origin. */
  function FormOf(a: Ann): Form
    requires a.Plain? || a.Generic?
  {
    if a.Plain? then a.form else a.origin
  }

  /** Only `SecretStr` and the `ListOf` classes define `__validate__`. */
  predicate HasValidate(f: Form) {
    f.Class? && (f.cls == SecretStrCls || f.cls.ListOfCls?)
  }

  /**
   * The class whose `__validate__` `hasattr(typ, "__validate__")` finds: `SecretStr` and every
   * `ListOf[T]` define one, and a builtin alias forwards attribute lookup to its origin.
   */
  function ValidateOwner(a: Ann): (r: Option<Cls>)
    ensures r.Some? ==> r.value == SecretStrCls || r.value.ListOfCls?
    ensures r.Some? <==> (a.Plain? || (a.Generic? && a.kind == BuiltinAlias)) && HasValidate(FormOf(a))
    ensures r.Some? ==> FormOf(a) == Class(r.value)
    ensures a.Union? || (a.Generic? && a.kind == TypingAlias) ==> r.None?
  {
    match a
    case Plain(Class(c)) => if c == SecretStrCls || c.ListOfCls? then Some(c) else None
    case Generic(Class(c), _, BuiltinAlias) => if c == SecretStrCls || c.ListOfCls? then Some(c) else None
    case _ => None
  }

  /**
   * `typ.__validate__(value, typ)`. `SecretStr.__validate__` takes the value and the annotation;
   * `ListOf.__validate__` takes only the value, so this call with two arguments raises.
   */
  function CallValidate(owner: Cls, v: Value): Result<Value>
    requires owner == SecretStrCls || owner.ListOfCls?
  {
    if owner == SecretStrCls then Ok(SecretValidate.Validate(v))
    else Err(TypeError("ListOf.__validate__() takes 2 positional arguments but 3 were given"))
  }

  /**
   * `typ(value)` for the annotations `Ann` covers: a class is called; a builtin alias calls its
   * origin class; a union, a `typing` alias of a container and a non-class object such as
   * a bare special form raise. Callable non-class annotations (`Annotated[...]`, a `NewType`) are
   * outside `Ann`.
   */
  function CallAnn(a: Ann, v: Value): Result<Value> {
    match a
    case Plain(Class(c)) => Call(c, v)
    case Plain(NonClass(n)) => Err(TypeError(n + " cannot be instantiated"))
    case Union(_) => Err(TypeError("Cannot instantiate typing.Union"))
    case Generic(Class(c), _, BuiltinAlias) => Call(c, v)
    case Generic(_, _, _) => Err(TypeError("Type cannot be instantiated"))
  }

  /**
   * `dec_hook(typ, value)`: with a `__validate__`, the validated value is returned when it
   * already matches `typ` and is passed to `typ(...)` otherwise; without one, `typ(value)`.
   */
  function DecHook(a: Ann, v: Value): Result<Value> {
    match ValidateOwner(a)
    case None => CallAnn(a, v)
    case Some(owner) =>
      match CallValidate(owner, v)
      case Err(e) => Err(e)
      case Ok(val) =>
        match IsInstanceTyped(val, a)
        case Err(e) => Err(e)
        case Ok(b) => if b then Ok(val) else CallAnn(a, val)
  }

  // ---------------------------------------------------------------------------------------
  // isinstance_typed

  /** A plain class is checked with `isinstance`, so a `bool` counts as an `int`. */
  lemma PlainIsIsinstance(v: Value, c: Cls)
    ensures IsInstanceTyped(v, Plain(Class(c))) == Ok(IsInstance(v, c))
    ensures IsInstanceTyped(VBool(true), Plain(Class(IntCls))) == Ok(true)
  {
  }

  /** Never an exception for a plain annotation: a non-class one simply never matches. */
  lemma PlainNeverRaises(v: Value, f: Form)
    ensures IsInstanceTyped(v, Plain(f)).Ok?
    ensures f.NonClass? ==> IsInstanceTyped(v, Plain(f)) == Ok(false)
  {
  }

  // The short-circuiting folds, stated over the sequence of outcomes they look at.

  /** `any` over outcomes already computed: the first `true` or exception decides. */
  function AnyOf(rs: seq<Result<bool>>): Result<bool> {
    if |rs| == 0 then Ok(false)
    else
      match rs[0]
      case Err(e) => Err(e)
      case Ok(b) => if b then Ok(true) else AnyOf(rs[1..])
  }

  /** `all` over outcomes already computed: the first `false` or exception decides. */
  function AllOf(rs: seq<Result<bool>>): Result<bool> {
    if |rs| == 0 then Ok(true)
    else
      match rs[0]
      case Err(e) => Err(e)
      case Ok(b) => if b then AllOf(rs[1..]) else Ok(false)
  }

  /** The outcome of checking `v` against each alternative. */
  function AltOutcomes(v: Value, alts: seq<Ann>): (rs: seq<Result<bool>>)
    ensures |rs| == |alts| && forall j :: 0 <= j < |alts| ==> rs[j] == IsInstanceTyped(v, alts[j])
  {
    seq(|alts|, j requires 0 <= j < |alts| => IsInstanceTyped(v, alts[j]))
  }

  /** The outcome of checking each element against `t`. */
  function ItemOutcomes(items: seq<Value>, t: Ann): (rs: seq<Result<bool>>)
    ensures |rs| == |items| && forall j :: 0 <= j < |items| ==> rs[j] == IsInstanceTyped(items[j], t)
  {
    seq(|items|, j requires 0 <= j < |items| => IsInstanceTyped(items[j], t))
  }

  lemma {:induction false} AnyMatchIsAnyOf(v: Value, alts: seq<Ann>)
    ensures AnyMatch(v, alts) == AnyOf(AltOutcomes(v, alts))
  {
    if |alts| > 0 {
      AnyMatchIsAnyOf(v, alts[1..]);
      assert AltOutcomes(v, alts)[1..] == AltOutcomes(v, alts[1..]);
    }
  }

  lemma {:induction false} AllMatchIsAllOf(items: seq<Value>, t: Ann)
    ensures AllMatch(items, t) == AllOf(ItemOutcomes(items, t))
  {
    if |items| > 0 {
      AllMatchIsAllOf(items[1..], t);
      assert ItemOutcomes(items, t)[1..] == ItemOutcomes(items[1..], t);
    }
  }

  lemma {:induction false} AnyOfFalse(rs: seq<Result<bool>>)
    ensures AnyOf(rs) == Ok(false) <==> forall j :: 0 <= j < |rs| ==> rs[j] == Ok(false)
  {
    if |rs| > 0 {
      AnyOfFalse(rs[1..]);
      assert forall j :: 0 < j < |rs| ==> rs[j] == rs[1..][j - 1];
    }
  }

  lemma {:induction false} AnyOfTrue(rs: seq<Result<bool>>)
    ensures AnyOf(rs) == Ok(true) <==>
              exists j :: 0 <= j < |rs| && rs[j] == Ok(true) && forall k :: 0 <= k < j ==> rs[k] == Ok(false)
  {
    if |rs| > 0 && rs[0] == Ok(false) {
      var rest := rs[1..];
      AnyOfTrue(rest);
      if AnyOf(rest) == Ok(true) {
        var j :| 0 <= j < |rest| && rest[j] == Ok(true) && forall k :: 0 <= k < j ==> rest[k] == Ok(false);
        assert rs[j + 1] == Ok(true);
        forall k | 0 <= k < j + 1 ensures rs[k] == Ok(false) {
          if k > 0 { assert rs[k] == rest[k - 1]; }
        }
      } else {
        forall j | 0 <= j < |rs| && rs[j] == Ok(true) ensures exists k :: 0 <= k < j && rs[k] != Ok(false) {
          assert j > 0 && rest[j - 1] == rs[j];
          var k :| 0 <= k < j - 1 && rest[k] != Ok(false);
          assert rest[k] == rs[k + 1];
        }
      }
    }
  }

  lemma {:induction false} AnyOfDecides(rs: seq<Result<bool>>)
    requires forall j :: 0 <= j < |rs| ==> rs[j].Ok?
    ensures AnyOf(rs).Ok?
  {
    if |rs| > 0 {
      assert forall j :: 0 <= j < |rs[1..]| ==> rs[1..][j] == rs[j + 1];
      AnyOfDecides(rs[1..]);
    }
  }

  lemma {:induction false} AllOfTrue(rs: seq<Result<bool>>)
    ensures AllOf(rs) == Ok(true) <==> forall j :: 0 <= j < |rs| ==> rs[j] == Ok(true)
  {
    if |rs| > 0 {
      AllOfTrue(rs[1..]);
      assert forall j :: 0 < j < |rs| ==> rs[j] == rs[1..][j - 1];
    }
  }

  lemma {:induction false} AllOfFalse(rs: seq<Result<bool>>)
    ensures AllOf(rs) == Ok(false) <==>
              exists j :: 0 <= j < |rs| && rs[j] == Ok(false) && forall k :: 0 <= k < j ==> rs[k] == Ok(true)
  {
    if |rs| > 0 && rs[0] == Ok(true) {
      var rest := rs[1..];
      AllOfFalse(rest);
      if AllOf(rest) == Ok(false) {
        var j :| 0 <= j < |rest| && rest[j] == Ok(false) && forall k :: 0 <= k < j ==> rest[k] == Ok(true);
        assert rs[j + 1] == Ok(false);
        forall k | 0 <= k < j + 1 ensures rs[k] == Ok(true) {
          if k > 0 { assert rs[k] == rest[k - 1]; }
        }
      } else {
        forall j | 0 <= j < |rs| && rs[j] == Ok(false) ensures exists k :: 0 <= k < j && rs[k] != Ok(true) {
          assert j > 0 && rest[j - 1] == rs[j];
          var k :| 0 <= k < j - 1 && rest[k] != Ok(true);
          assert rest[k] == rs[k + 1];
        }
      }
    }
  }

  /** A union decides `false` exactly when every alternative decided `false`. */
  lemma AnyMatchFalse(v: Value, alts: seq<Ann>)
    ensures AnyMatch(v, alts) == Ok(false) <==>
              forall j :: 0 <= j < |alts| ==> IsInstanceTyped(v, alts[j]) == Ok(false)
  {
    AnyMatchIsAnyOf(v, alts);
    AnyOfFalse(AltOutcomes(v, alts));
  }

  /** A union matches exactly when some alternative matches and every one before it decided `false`. */
  lemma AnyMatchTrue(v: Value, alts: seq<Ann>)
    ensures AnyMatch(v, alts) == Ok(true) <==>
              exists j :: 0 <= j < |alts| && IsInstanceTyped(v, alts[j]) == Ok(true) &&
                          forall k :: 0 <= k < j ==> IsInstanceTyped(v, alts[k]) == Ok(false)
  {
    AnyMatchIsAnyOf(v, alts);
    AnyOfTrue(AltOutcomes(v, alts));
  }

  /** When no alternative raises, a union matches exactly when one of its alternatives does. */
  lemma UnionIsAny(v: Value, alts: seq<Ann>)
    requires forall j :: 0 <= j < |alts| ==> IsInstanceTyped(v, alts[j]).Ok?
    ensures IsInstanceTyped(v, Union(alts)).Ok?
    ensures IsInstanceTyped(v, Union(alts)).value <==>
              exists j :: 0 <= j < |alts| && IsInstanceTyped(v, alts[j]) == Ok(true)
  {
    AnyMatchFalse(v, alts);
    AnyMatchDecides(v, alts);
    var r := AnyMatch(v, alts);
    assert r == Ok(r.value);
    if exists j :: 0 <= j < |alts| && IsInstanceTyped(v, alts[j]) == Ok(true) {
      var j :| 0 <= j < |alts| && IsInstanceTyped(v, alts[j]) == Ok(true);
      assert r != Ok(false);
    } else {
      forall j | 0 <= j < |alts| ensures IsInstanceTyped(v, alts[j]) == Ok(false) {
        var x := IsInstanceTyped(v, alts[j]);
        assert x.Ok? && x != Ok(true);
        assert x == Ok(x.value) && !x.value;
      }
    }
  }

  /** When no alternative raises, neither does the union. */
  lemma AnyMatchDecides(v: Value, alts: seq<Ann>)
    requires forall j :: 0 <= j < |alts| ==> IsInstanceTyped(v, alts[j]).Ok?
    ensures AnyMatch(v, alts).Ok?
  {
    AnyMatchIsAnyOf(v, alts);
    AnyOfDecides(AltOutcomes(v, alts));
  }

  /** `all` decides `true` exactly when every element matches. */
  lemma AllMatchTrue(items: seq<Value>, t: Ann)
    ensures AllMatch(items, t) == Ok(true) <==>
              forall j :: 0 <= j < |items| ==> IsInstanceTyped(items[j], t) == Ok(true)
  {
    AllMatchIsAllOf(items, t);
    AllOfTrue(ItemOutcomes(items, t));
  }

  /** `all` decides `false` exactly at an element that does not match, after elements that matched. */
  lemma AllMatchFalse(items: seq<Value>, t: Ann)
    ensures AllMatch(items, t) == Ok(false) <==>
              exists j :: 0 <= j < |items| && IsInstanceTyped(items[j], t) == Ok(false) &&
                          forall k :: 0 <= k < j ==> IsInstanceTyped(items[k], t) == Ok(true)
  {
    AllMatchIsAllOf(items, t);
    AllOfFalse(ItemOutcomes(items, t));
  }

  /**
   * `list[T]` matches a list exactly when every element matches `T`, so the empty list
   * matches every `list[T]`; anything that is not a list does not match, whatever `T` is.
   */
  lemma ListOfOne(v: Value, t: Ann, k: AliasKind)
    ensures IsInstanceTyped(v, Generic(Class(ListCls), [t], k)) == Ok(true) <==>
              IsList(v) && forall j :: 0 <= j < |v.items| ==> IsInstanceTyped(v.items[j], t) == Ok(true)
    ensures !IsList(v) ==> IsInstanceTyped(v, Generic(Class(ListCls), [t], k)) == Ok(false)
    ensures IsList(v) && |v.items| == 0 ==> IsInstanceTyped(v, Generic(Class(ListCls), [t], k)) == Ok(true)
  {
    if IsList(v) {
      AllMatchTrue(v.items, t);
    }
  }

  /** A bare `list` / `List` alias matches exactly the lists, `ListOf` instances among them. */
  lemma BareList(v: Value, k: AliasKind)
    ensures IsInstanceTyped(v, Generic(Class(ListCls), [], k)) == Ok(IsList(v))
    ensures IsInstanceTyped(v, Generic(Class(ListCls), [], k)) == Ok(v.VList? || v.VListOf?)
  {
    IsListShape(v);
  }

  /** A list annotation with several arguments fails to unpack them, but only on a list. */
  lemma ListTooManyArgs(v: Value, args: seq<Ann>, k: AliasKind)
    requires |args| > 1
    ensures IsList(v) ==> IsInstanceTyped(v, Generic(Class(ListCls), args, k)).Err?
    ensures !IsList(v) ==> IsInstanceTyped(v, Generic(Class(ListCls), args, k)) == Ok(false)
  {
  }

  /** Any other generic alias is checked against its origin class; its arguments are ignored. */
  lemma OtherGenericIgnoresArgs(v: Value, c: Cls, args: seq<Ann>, k: AliasKind)
    requires c != ListCls
    ensures IsInstanceTyped(v, Generic(Class(c), args, k)) == Ok(IsInstance(v, c))
  {
  }

  /** An origin that is not a class makes `isinstance` raise. */
  lemma NonClassOriginRaises(v: Value, n: string, args: seq<Ann>, k: AliasKind)
    ensures IsInstanceTyped(v, Generic(NonClass(n), args, k)).Err?
    ensures IsInstanceTyped(v, Generic(NonClass(n), args, k)).error.TypeError?
  {
  }

  // ---------------------------------------------------------------------------------------
  // dec_hook

  /** Without a `__validate__`, decoding is calling the annotation on the value. */
  lemma DecHookPlainCall(a: Ann, v: Value)
    requires ValidateOwner(a).None?
    ensures DecHook(a, v) == CallAnn(a, v)
  {
  }

  /**
   * Decoding into `SecretStr` is its `__validate__`: a `SecretStr` comes back unchanged,
   * anything else becomes a `SecretStr` holding `str(value)`. It never raises in the model, whose
   * `str()` is total; in the source `str()` of an integer of more than 4300 digits raises.
   */
  lemma DecHookSecret(v: Value)
    ensures DecHook(Plain(Class(SecretStrCls)), v) == Ok(SecretValidate.Validate(v))
    ensures v.VSecret? ==> DecHook(Plain(Class(SecretStrCls)), v) == Ok(v)
    ensures !v.VSecret? ==> DecHook(Plain(Class(SecretStrCls)), v).value.secret.Value() == Str(v)
  {
    var a := Plain(Class(SecretStrCls));
    var val := SecretValidate.Validate(v);
    assert ValidateOwner(a) == Some(SecretStrCls);
    assert CallValidate(SecretStrCls, v) == Ok(val);
    assert IsInstanceTyped(val, a) == Ok(true);
  }

  /**
   * Decoding into any `ListOf[T]` raises `TypeError`: the hook passes the annotation as a
   * second argument that `ListOf.__validate__` does not accept.
   */
  lemma DecHookListOfRaises(t: Cls, v: Value)
    ensures DecHook(Plain(Class(ListOfCls(t))), v) ==
            Err(TypeError("ListOf.__validate__() takes 2 positional arguments but 3 were given"))
  {
  }

  /** Without a `__validate__`, decoding into a plain class is calling it, so its result has that class. */
  lemma PlainDecHookIsCall(c: Cls, v: Value)
    requires c != SecretStrCls && !c.ListOfCls?
    ensures DecHook(Plain(Class(c)), v) == Call(c, v)
    ensures DecHook(Plain(Class(c)), v).Ok? ==> TypeOf(DecHook(Plain(Class(c)), v).value) == c
  {
    DecHookPlainCall(Plain(Class(c)), v);
  }

  /** A validated value that already matches the annotation is returned as it is. */
  lemma DecHookKeepsMatch(a: Ann, v: Value)
    requires ValidateOwner(a).Some?
    requires CallValidate(ValidateOwner(a).value, v).Ok?
    requires IsInstanceTyped(CallValidate(ValidateOwner(a).value, v).value, a) == Ok(true)
    ensures DecHook(a, v) == CallValidate(ValidateOwner(a).value, v)
  {
  }

  /**
   * For the validated types of the library the recall through `typ(...)` never happens:
   * whenever `__validate__` returns, its result already matches the annotation.
   */
  lemma {:induction false} ValidatedAlwaysMatches(a: Ann, v: Value)
    requires ValidateOwner(a).Some?
    requires CallValidate(ValidateOwner(a).value, v).Ok?
    ensures IsInstanceTyped(CallValidate(ValidateOwner(a).value, v).value, a) == Ok(true)
    ensures DecHook(a, v) == CallValidate(ValidateOwner(a).value, v)
  {
    assert ValidateOwner(a) == Some(SecretStrCls);
    var val := SecretValidate.Validate(v);
    assert val.VSecret?;
    assert IsInstance(val, SecretStrCls);
  }
}
