/**
 * The JSON provider built from a dict: its keys are lower-cased once, at construction, so that
 * lookups ignore case. When the first key is already a lower-case string the dict is kept as
 * it is, without looking at the other keys.
 */
module JsonProv {
  import opened Wrappers
  import opened Text
  import opened Values

  /** The key a dict entry is stored under after normalisation: `str(k).lower()`. */
  function LowerKey(k: Value): string {
    Lower(Str(k))
  }

  /** Assigning the entries one after the other into an empty dict. */
  function InsertAll(es: PyDict): PyDict {
    if |es| == 0 then []
    else
      var n := |es| - 1;
      Insert(InsertAll(es[..n]), es[n].key, es[n].val)
  }

  /** The entries with their keys lower-cased, in order. */
  function LowerEntries(data: PyDict): (r: PyDict)
    ensures |r| == |data|
    ensures forall i :: 0 <= i < |data| ==> r[i] == Entry(VStr(LowerKey(data[i].key)), data[i].val)
  {
    seq(|data|, i requires 0 <= i < |data| => Entry(VStr(LowerKey(data[i].key)), data[i].val))
  }

  /** The loop of the normalisation: every key lower-cased and assigned in order into an empty dict. */
  function LowerKeys(data: PyDict): PyDict {
    InsertAll(LowerEntries(data))
  }

  /** One more entry of the loop is one more assignment. */
  lemma LowerKeysStep(data: PyDict, i: nat)
    requires i < |data|
    ensures LowerKeys(data[..i + 1]) == Insert(LowerKeys(data[..i]), VStr(LowerKey(data[i].key)), data[i].val)
  {
    var es := LowerEntries(data[..i + 1]);
    assert es[..i] == LowerEntries(data[..i]);
    assert es[i] == Entry(VStr(LowerKey(data[i].key)), data[i].val);
  }

  /** The first-key shortcut: a lower-case string first key means the dict is taken as it is. */
  predicate FirstKeyLower(data: PyDict) {
    |data| > 0 && data[0].key.VStr? && IsLower(data[0].key.s)
  }

  /** `_normalize_dict_single_pass(data)` */
  function Normalized(data: PyDict): PyDict {
    if |data| == 0 || FirstKeyLower(data) then data else LowerKeys(data)
  }

  class JSONProvider {
    var cacheKey: Option<string>
    var normalized: PyDict

    /** `JSONProvider(d)` for a dict `d`: normalised at once, with no file and no cache key. */
    constructor (value: PyDict)
      ensures cacheKey == None
      ensures normalized == Normalized(value)
    {
      var n := NormalizeSinglePass(value);
      cacheKey := None;
      normalized := n;
    }

    /** `_normalize_dict_single_pass(data)`, the loop filling `result`. */
    static method NormalizeSinglePass(data: PyDict) returns (r: PyDict)
      ensures r == Normalized(data)
    {
      if |data| == 0 {
        return data;
      }
      var first := data[0].key;
      if first.VStr? && IsLower(first.s) {
        return data;
      }
      var result: PyDict := [];
      var i := 0;
      while i < |data|
        invariant 0 <= i <= |data|
        invariant result == LowerKeys(data[..i])
      {
        var keyStr := Str(data[i].key);
        var resultKey: string;
        if IsLower(keyStr) {
          LowerOfIsLower(keyStr);
          resultKey := keyStr;
        } else {
          resultKey := Lower(keyStr);
        }
        LowerKeysStep(data, i);
        result := Insert(result, VStr(resultKey), data[i].val);
        i := i + 1;
      }
      assert data[..i] == data;
      return result;
    }

    /** `get_value(key)`: the normalised dict's value for `key.lower()`, `None` when absent. */
    function GetValue(key: string): (r: Value)
      reads this
      ensures HasKey(normalized, VStr(Lower(key))) ==> Some(r) == Get(normalized, VStr(Lower(key)))
      ensures !HasKey(normalized, VStr(Lower(key))) ==> r == VNone
    {
      match Get(normalized, VStr(Lower(key)))
      case Some(v) => v
      case None => VNone
    }

    /** `get_all()`: the normalised dict itself. */
    function GetAll(): (r: PyDict)
      reads this
      ensures r == normalized
    {
      normalized
    }
  }

  // ---------------------------------------------------------------------------------------

  /** Entry `i` is the last one whose key is the string `s`. */
  predicate IsLastKey(es: PyDict, s: string, i: int) {
    0 <= i < |es| && es[i].key == VStr(s) && forall j :: i < j < |es| ==> es[j].key != VStr(s)
  }

  /** Assigning entries in order leaves, under a string key, the value of its last entry. */
  lemma {:induction false} InsertAllLast(es: PyDict, s: string, i: int)
    requires forall k :: 0 <= k < |es| ==> es[k].key.VStr?
    requires IsLastKey(es, s, i)
    ensures Get(InsertAll(es), VStr(s)) == Some(es[i].val)
  {
    var n := |es| - 1;
    var init := es[..n];
    var prev := InsertAll(init);
    assert InsertAll(es) == Insert(prev, es[n].key, es[n].val);
    if i == n {
      GetInsert(prev, s, es[n].val, s);
    } else {
      assert IsLastKey(init, s, i);
      InsertAllLast(init, s, i);
      GetInsert(prev, es[n].key.s, es[n].val, s);
    }
  }

  /** A string key no entry has is not in the result. */
  lemma {:induction false} InsertAllAbsent(es: PyDict, s: string)
    requires forall k :: 0 <= k < |es| ==> es[k].key.VStr? && es[k].key != VStr(s)
    ensures Get(InsertAll(es), VStr(s)) == None
  {
    if |es| > 0 {
      var n := |es| - 1;
      var init := es[..n];
      InsertAllAbsent(init, s);
      GetInsert(InsertAll(init), es[n].key.s, es[n].val, s);
    }
  }

  lemma InsertAllLookup(es: PyDict, s: string)
    requires forall i :: 0 <= i < |es| ==> es[i].key.VStr?
    ensures forall i :: IsLastKey(es, s, i) ==> Get(InsertAll(es), VStr(s)) == Some(es[i].val)
    ensures (forall i :: 0 <= i < |es| ==> es[i].key != VStr(s)) ==> Get(InsertAll(es), VStr(s)) == None
  {
    forall i | IsLastKey(es, s, i) ensures Get(InsertAll(es), VStr(s)) == Some(es[i].val) {
      InsertAllLast(es, s, i);
    }
    if forall i :: 0 <= i < |es| ==> es[i].key != VStr(s) {
      InsertAllAbsent(es, s);
    }
  }

  /** Entry `i` is the last one whose key lower-cases to `s`. */
  predicate IsLastWith(data: PyDict, s: string, i: int) {
    0 <= i < |data| && LowerKey(data[i].key) == s &&
    forall j :: i < j < |data| ==> LowerKey(data[j].key) != s
  }

  /**
   * After lower-casing, the value under `s` is that of the last entry whose key lower-cases
   * to `s`, so colliding keys keep the last value; there is none when no key lower-cases to `s`.
   */
  lemma LowerKeysLookup(data: PyDict, s: string)
    ensures forall i :: IsLastWith(data, s, i) ==> Get(LowerKeys(data), VStr(s)) == Some(data[i].val)
    ensures (forall i :: 0 <= i < |data| ==> LowerKey(data[i].key) != s) ==> Get(LowerKeys(data), VStr(s)) == None
  {
    var es := LowerEntries(data);
    InsertAllLookup(es, s);
    forall i | IsLastWith(data, s, i) ensures IsLastKey(es, s, i) {
    }
  }

  /** Keys that are lower-case strings, no two alike. */
  predicate LowerStrKeys(d: PyDict) {
    (forall i :: 0 <= i < |d| ==> d[i].key.VStr? && Lower(d[i].key.s) == d[i].key.s) &&
    (forall i, j :: 0 <= i < j < |d| ==> d[i].key != d[j].key)
  }

  /** Assigning a string key either updates its entry in place or appends it, when it is new. */
  lemma InsertStrKeys(d: PyDict, s: string, v: Value)
    ensures var d' := Insert(d, VStr(s), v);
            |d| <= |d'| <= |d| + 1 && (forall i :: 0 <= i < |d| ==> d'[i].key == d[i].key) &&
            (|d'| == |d| + 1 ==> d'[|d|].key == VStr(s) && forall i :: 0 <= i < |d| ==> d[i].key != VStr(s))
  {
    match Find(d, VStr(s))
    case Some(_) =>
    case None =>
      forall i | 0 <= i < |d| ensures d[i].key != VStr(s) {
        KeyEqStr(d[i].key, s);
      }
  }

  /** Assigning entries with lower-case string keys gives lower-case string keys, no two alike. */
  lemma {:induction false} InsertAllShape(es: PyDict)
    requires forall i :: 0 <= i < |es| ==> es[i].key.VStr? && Lower(es[i].key.s) == es[i].key.s
    ensures LowerStrKeys(InsertAll(es))
  {
    if |es| > 0 {
      var n := |es| - 1;
      InsertAllShape(es[..n]);
      InsertStrKeys(InsertAll(es[..n]), es[n].key.s, es[n].val);
    }
  }

  /** Lower-casing gives lower-case string keys, no two alike. */
  lemma LowerKeysShape(data: PyDict)
    ensures LowerStrKeys(LowerKeys(data))
  {
    var es := LowerEntries(data);
    forall i | 0 <= i < |es| ensures es[i].key.VStr? && Lower(es[i].key.s) == es[i].key.s {
      LowerIdempotent(Str(data[i].key));
    }
    InsertAllShape(es);
  }

  /** Entries whose keys are already distinct lower-case strings are assigned to themselves. */
  lemma {:induction false} InsertAllFixed(d: PyDict)
    requires LowerStrKeys(d)
    ensures InsertAll(d) == d
  {
    if |d| > 0 {
      var n := |d| - 1;
      assert LowerStrKeys(d[..n]);
      InsertAllFixed(d[..n]);
      assert Find(d[..n], d[n].key).None? by {
        forall i | 0 <= i < n ensures !KeyEq(d[..n][i].key, VStr(d[n].key.s)) {
          KeyEqStr(d[..n][i].key, d[n].key.s);
        }
      }
      assert d[..n] + [Entry(d[n].key, d[n].val)] == d;
    }
  }

  /** A dict whose keys are already distinct lower-case strings comes out of the loop unchanged. */
  lemma LowerKeysFixed(d: PyDict)
    requires LowerStrKeys(d)
    ensures LowerKeys(d) == d
  {
    assert LowerEntries(d) == d;
    InsertAllFixed(d);
  }

  /** Normalising twice is normalising once. */
  lemma NormalizedIdempotent(data: PyDict)
    ensures Normalized(Normalized(data)) == Normalized(data)
  {
    if |data| > 0 && !FirstKeyLower(data) {
      LowerKeysShape(data);
      LowerKeysFixed(LowerKeys(data));
    }
  }

  /** Unless the shortcut applies, normalised keys are distinct lower-case strings. */
  lemma NormalizedKeys(data: PyDict)
    requires !FirstKeyLower(data)
    ensures LowerStrKeys(Normalized(data))
  {
    LowerKeysShape(data);
  }

  /** `get_value` ignores the case of the key it is given. */
  lemma GetValueIgnoresCase(p: JSONProvider, key: string)
    ensures p.GetValue(key) == p.GetValue(Lower(key))
  {
    LowerIdempotent(key);
  }

  /**
   * Without the shortcut, `get_value(key)` on a provider built from `data` is the value of the
   * last entry of `data` whose key lower-cases like `key`, or `None` when there is none.
   */
  lemma GetValueFromData(p: JSONProvider, data: PyDict, key: string)
    requires p.normalized == Normalized(data) && !FirstKeyLower(data)
    ensures forall i :: IsLastWith(data, Lower(key), i) ==> p.GetValue(key) == data[i].val
    ensures (forall i :: 0 <= i < |data| ==> LowerKey(data[i].key) != Lower(key)) ==> p.GetValue(key) == VNone
  {
    LowerKeysLookup(data, Lower(key));
  }

  /**
   * The shortcut looks only at the first key: in `{"a": 1, "B": 2}` the key `"B"` stays upper
   * case, so `get_value("b")` finds nothing.
   */
  lemma ShortcutKeepsLaterKeys()
    ensures var d := [Entry(VStr("a"), VInt(1)), Entry(VStr("B"), VInt(2))];
            Normalized(d) == d && Get(Normalized(d), VStr(Lower("b"))) == None
  {
    var d := [Entry(VStr("a"), VInt(1)), Entry(VStr("B"), VInt(2))];
    assert IsLowerLetter("a"[0]);
    assert Lower("b") == "b";
    assert "B" != "b";
  }
}
