/**
 * The Python objects that configuration data is made of: `None`, `bool`, `int`, `str`, `list`,
 * `tuple`, `dict`, `SecretStr` and `ListOf[T]` instances, with the builtins the configuration
 * code applies to them (`isinstance`, `str`, `repr`, `bool`, iteration, dictionary access and
 * calling a class on one argument). A `dict` is an ordered sequence of entries.
 */
module Values {
  import opened Wrappers
  import opened Text
  import opened Secret

  /** The classes of the model; `ListOfCls(t)` is the class `ListOf[t]`. */
  datatype Cls =
    | NoneType | BoolCls | IntCls | StrCls | ListCls | TupleCls | DictCls | SecretStrCls
    | ListOfCls(item: Cls)
    | ObjectCls

  datatype Value =
    | VNone
    | VBool(b: bool)
    | VInt(i: int)
    | VStr(s: string)
    | VList(items: seq<Value>)
    | VTuple(items: seq<Value>)
    | VDict(entries: seq<Entry>)
    | VSecret(secret: SecretStr)
    | VListOf(item: Cls, items: seq<Value>)

  /** One key/value pair of a dict, in insertion order. */
  datatype Entry = Entry(key: Value, val: Value)

  type PyDict = seq<Entry>

  /** `cls.__name__`; `ListOf[T]` is named after its item type. */
  function ClassName(c: Cls): string {
    match c
    case NoneType => "NoneType"
    case BoolCls => "bool"
    case IntCls => "int"
    case StrCls => "str"
    case ListCls => "list"
    case TupleCls => "tuple"
    case DictCls => "dict"
    case SecretStrCls => "SecretStr"
    case ListOfCls(t) => "ListOf[" + ClassName(t) + "]"
    case ObjectCls => "object"
  }

  /** `type(v)` */
  function TypeOf(v: Value): Cls {
    match v
    case VNone => NoneType
    case VBool(_) => BoolCls
    case VInt(_) => IntCls
    case VStr(_) => StrCls
    case VList(_) => ListCls
    case VTuple(_) => TupleCls
    case VDict(_) => DictCls
    case VSecret(_) => SecretStrCls
    case VListOf(t, _) => ListOfCls(t)
  }

  /** `issubclass(a, b)`: `bool` derives from `int`, every `ListOf[T]` from `list`. */
  predicate IsSubclass(a: Cls, b: Cls) {
    b == ObjectCls || a == b || (a == BoolCls && b == IntCls) || (a.ListOfCls? && b == ListCls)
  }

  /** `isinstance(v, c)` */
  predicate IsInstance(v: Value, c: Cls) {
    IsSubclass(TypeOf(v), c)
  }

  /** `isinstance(v, list)` */
  predicate IsList(v: Value) {
    IsInstance(v, ListCls)
  }

  lemma IsListShape(v: Value)
    ensures IsList(v) <==> v.VList? || v.VListOf?
  {
  }

  /** The integer a `bool` or an `int` stands for. */
  function IntValue(v: Value): int
    requires v.VBool? || v.VInt?
  {
    if v.VInt? then v.i else if v.b then 1 else 0
  }

  /** `repr(v)` */
  function Repr(v: Value): string
    decreases v, 1
  {
    match v
    case VNone => "None"
    case VBool(b) => if b then "True" else "False"
    case VInt(i) => IntToStr(i)
    case VStr(s) => ReprStr(s)
    case VList(items) => "[" + Join(ReprItems(items), ", ") + "]"
    case VListOf(_, items) => "[" + Join(ReprItems(items), ", ") + "]"
    case VTuple(items) =>
      if |items| == 1 then "(" + Repr(items[0]) + ",)" else "(" + Join(ReprItems(items), ", ") + ")"
    case VDict(entries) => "{" + Join(ReprEntries(v, 0), ", ") + "}"
    case VSecret(s) => s.Repr()
  }

  function ReprItems(items: seq<Value>): seq<string>
    decreases items
  {
    if |items| == 0 then [] else [Repr(items[0])] + ReprItems(items[1..])
  }

  function ReprEntries(v: Value, i: nat): seq<string>
    requires v.VDict? && i <= |v.entries|
    decreases v, 0, |v.entries| - i
  {
    if i == |v.entries| then []
    else [Repr(v.entries[i].key) + ": " + Repr(v.entries[i].val)] + ReprEntries(v, i + 1)
  }

  /** `str(v)`: a string is itself, a `SecretStr` its mask, everything else its `repr`. */
  function Str(v: Value): string {
    match v
    case VStr(s) => s
    case VSecret(s) => s.Str()
    case _ => Repr(v)
  }

  /** `bool(v)`: a `SecretStr` defines neither `__bool__` nor `__len__`, so it is true. */
  predicate Truthy(v: Value) {
    match v
    case VNone => false
    case VBool(b) => b
    case VInt(i) => i != 0
    case VStr(s) => |s| > 0
    case VList(items) => |items| > 0
    case VTuple(items) => |items| > 0
    case VListOf(_, items) => |items| > 0
    case VDict(entries) => |entries| > 0
    case VSecret(_) => true
  }

  function Keys(d: PyDict): seq<Value> {
    seq(|d|, i requires 0 <= i < |d| => d[i].key)
  }

  /** `iter(v)`: the elements, or `None` when `v` is not iterable; a dict yields its keys. */
  function Iter(v: Value): Option<seq<Value>> {
    match v
    case VList(items) => Some(items)
    case VTuple(items) => Some(items)
    case VListOf(_, items) => Some(items)
    case VStr(s) => Some(seq(|s|, i requires 0 <= i < |s| => VStr([s[i]])))
    case VDict(entries) => Some(Keys(entries))
    case _ => None
  }

  /** Whether `hash(v)` succeeds: lists and dicts are unhashable, tuples as their items. */
  predicate Hashable(v: Value) {
    match v
    case VList(_) => false
    case VListOf(_, _) => false
    case VDict(_) => false
    case VTuple(items) => forall i :: 0 <= i < |items| ==> Hashable(items[i])
    case _ => true
  }

  /** `a == b` between dict keys: `True == 1`, tuples compare item by item. */
  predicate KeyEq(a: Value, b: Value) {
    if (a.VBool? || a.VInt?) && (b.VBool? || b.VInt?) then IntValue(a) == IntValue(b)
    else if a.VTuple? && b.VTuple? then
      |a.items| == |b.items| && forall i :: 0 <= i < |a.items| ==> KeyEq(a.items[i], b.items[i])
    else if a.VNone? || a.VStr? || a.VSecret? then a == b
    else false
  }

  /** Only a string equals a string key. */
  lemma KeyEqStr(a: Value, s: string)
    ensures KeyEq(a, VStr(s)) <==> a == VStr(s)
  {
  }

  /** The index of the entry whose key equals `k`. */
  function Find(d: PyDict, k: Value): (r: Option<nat>)
    ensures r.Some? ==> r.value < |d| && KeyEq(d[r.value].key, k)
    ensures r.Some? ==> forall j :: 0 <= j < r.value ==> !KeyEq(d[j].key, k)
    ensures r.None? ==> forall j :: 0 <= j < |d| ==> !KeyEq(d[j].key, k)
  {
    if |d| == 0 then None
    else if KeyEq(d[0].key, k) then Some(0)
    else match Find(d[1..], k)
      case None => None
      case Some(j) => Some(j + 1)
  }

  /** `d.get(k)`, with `None` for a missing key. */
  function Get(d: PyDict, k: Value): Option<Value> {
    match Find(d, k)
    case Some(i) => Some(d[i].val)
    case None => None
  }

  /** `k in d` */
  predicate HasKey(d: PyDict, k: Value) {
    Find(d, k).Some?
  }

  /** `d[k] = v`: an existing key keeps its place and gets the new value, a new key goes last. */
  function Insert(d: PyDict, k: Value, v: Value): PyDict {
    match Find(d, k)
    case Some(i) => d[i := Entry(d[i].key, v)]
    case None => d + [Entry(k, v)]
  }

  /** `d.pop(k, None)` as a statement: the entry for `k`, if any, goes. */
  function Pop(d: PyDict, k: Value): PyDict {
    match Find(d, k)
    case Some(i) => d[..i] + d[i + 1..]
    case None => d
  }

  lemma FindStr(d: PyDict, s: string, i: nat)
    requires i < |d|
    ensures Find(d, VStr(s)) == Some(i) <==> d[i].key == VStr(s) && forall j :: 0 <= j < i ==> d[j].key != VStr(s)
  {
  }

  /** A string key never equals another string key once inserted. */
  lemma {:induction false} GetInsert(d: PyDict, a: string, v: Value, b: string)
    ensures Get(Insert(d, VStr(a), v), VStr(b)) == if a == b then Some(v) else Get(d, VStr(b))
  {
    var d' := Insert(d, VStr(a), v);
    assert |d'| > 0 && (forall j :: 0 <= j < |d| ==> d'[j].key == d[j].key);
    match Find(d, VStr(b))
    case Some(i) => {
      FindStr(d', b, i);
    }
    case None => {
      if a == b {
        assert d' == d + [Entry(VStr(a), v)];
        FindStr(d', b, |d|);
      }
    }
  }

  /** Popping a string key leaves the other string keys alone. */
  lemma {:induction false} GetPop(d: PyDict, a: string, b: string)
    requires a != b
    ensures Get(Pop(d, VStr(a)), VStr(b)) == Get(d, VStr(b))
  {
    var d' := Pop(d, VStr(a));
    match Find(d, VStr(a))
    case None =>
    case Some(p) => {
      match Find(d, VStr(b))
      case Some(i) => {
        var i' := if i < p then i else i - 1;
        assert d'[i'] == d[i];
        FindStr(d', b, i');
      }
      case None =>
    }
  }

  /**
   * The message of the `ValueError` from `int(s)`: the digit limit when the literal has too
   * many digits, otherwise the literal's repr cut to 200 characters (`%.200R`).
   */
  function IntParseMessage(s: string): string {
    if LiteralDigits(s) > MaxStrDigits then
      "Exceeds the limit (4300 digits) for integer string conversion: value has "
      + IntToStr(LiteralDigits(s)) + " digits; use sys.set_int_max_str_digits() to increase the limit"
    else
      var r := ReprStr(s);
      "invalid literal for int() with base 10: " + (if |r| <= 200 then r else r[..200])
  }

  /** `int(v)` */
  function IntOf(v: Value): Result<Value> {
    match v
    case VInt(_) => Ok(v)
    case VBool(_) => Ok(VInt(IntValue(v)))
    case VStr(s) =>
      (match ParseInt(s)
       case Some(n) => Ok(VInt(n))
       case None => Err(ValueError(IntParseMessage(s))))
    case _ => Err(TypeError("int() argument must be a string, a bytes-like object or a real number, not '"
                            + ClassName(TypeOf(v)) + "'"))
  }

  /** `dict(elems)` for an iterable: each element must be a key/value pair with a hashable key. */
  function DictFromPairs(elems: seq<Value>): Result<PyDict> {
    if |elems| == 0 then Ok([])
    else
      match DictFromPairs(elems[..|elems| - 1])
      case Err(e) => Err(e)
      case Ok(d) =>
        var n := |elems| - 1;
        match Iter(elems[n])
        case None =>
          Err(TypeError("cannot convert dictionary update sequence element #" + IntToStr(n) + " to a sequence"))
        case Some(kv) =>
          if |kv| != 2 then
            Err(ValueError("dictionary update sequence element #" + IntToStr(n) + " has length "
                           + IntToStr(|kv|) + "; 2 is required"))
          else if !Hashable(kv[0]) then Err(TypeError("unhashable type: '" + ClassName(TypeOf(kv[0])) + "'"))
          else Ok(Insert(d, kv[0], kv[1]))
  }

  /** `dict(v)` */
  function DictOf(v: Value): Result<Value> {
    if v.VDict? then Ok(v)
    else
      match Iter(v)
      case None => Err(TypeError("'" + ClassName(TypeOf(v)) + "' object is not iterable"))
      case Some(elems) =>
        match DictFromPairs(elems)
        case Err(e) => Err(e)
        case Ok(d) => Ok(VDict(d))
  }

  /**
   * `c(v)`: calling a class on one argument. `SecretStr(v)` stores `str(v)`; `ListOf[T](v)` is
   * the `list` constructor, so it copies the elements of any iterable without converting them.
   * Whatever it returns is an instance of exactly `c`.
   */
  function Call(c: Cls, v: Value): (r: Result<Value>)
    ensures r.Ok? ==> TypeOf(r.value) == c
  {
    match c
    case NoneType => Err(TypeError("NoneType takes no arguments"))
    case ObjectCls => Err(TypeError("object() takes no arguments"))
    case BoolCls => Ok(VBool(Truthy(v)))
    case IntCls => IntOf(v)
    case StrCls => Ok(VStr(Str(v)))
    case SecretStrCls => Ok(VSecret(New(Str(v))))
    case DictCls => DictOf(v)
    case ListCls =>
      (match Iter(v)
       case Some(items) => Ok(VList(items))
       case None => Err(TypeError("'" + ClassName(TypeOf(v)) + "' object is not iterable")))
    case TupleCls =>
      (match Iter(v)
       case Some(items) => Ok(VTuple(items))
       case None => Err(TypeError("'" + ClassName(TypeOf(v)) + "' object is not iterable")))
    case ListOfCls(t) =>
      match Iter(v)
      case Some(items) => Ok(VListOf(t, items))
      case None => Err(TypeError("'" + ClassName(TypeOf(v)) + "' object is not iterable"))
  }

  /** `str(True).lower() == "true"` and `str(False).lower() == "false"`. */
  lemma StrOfBool(b: bool)
    ensures Lower(Str(VBool(b))) == if b then "true" else "false"
  {
  }
}
