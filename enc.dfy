/**
 * The encode hook: an object with a callable `__encode__` is encoded by it, anything else as
 * its `str()` form.
 */
module Enc {
  import opened Wrappers
  import opened Secret
  import opened Values
  import Dec

  /**
   * What `getattr(obj, "__encode__", None)` finds: nothing, an attribute that is not callable,
   * or a method together with what calling it returns or raises.
   */
  datatype EncodeAttr = Missing | NotCallable(attr: Value) | Method(result: Result<Value>)

  /** The `__encode__` attribute of a modelled value: none of them defines one. */
  function EncodeAttrOf(v: Value): EncodeAttr {
    Missing
  }

  /** `_fallback_encode(obj)`: the object's `str()` form, always a string. */
  function FallbackEncode(obj: Value): (r: Value)
    ensures r.VStr? && r.s == Str(obj)
  {
    VStr(Str(obj))
  }

  /** `enc_hook(obj)`, given what the `__encode__` lookup finds on `obj`. */
  function EncHookWith(obj: Value, attr: EncodeAttr): Result<Value> {
    if attr.Method? then attr.result else Ok(FallbackEncode(obj))
  }

  /** `enc_hook(obj)` for a modelled value. */
  function EncHook(obj: Value): Result<Value> {
    EncHookWith(obj, EncodeAttrOf(obj))
  }

  /** A callable `__encode__` decides the result, exceptions included. */
  lemma EncodeMethodWins(obj: Value, result: Result<Value>)
    ensures EncHookWith(obj, Method(result)) == result
  {
  }

  /**
   * A missing or non-callable `__encode__` falls back to `str(obj)`. In the model `str()` is
   * total; in the source it raises for an integer of more than 4300 digits.
   */
  lemma FallbackWhenNotCallable(obj: Value, attr: EncodeAttr)
    requires !attr.Method?
    ensures EncHookWith(obj, attr) == Ok(VStr(Str(obj)))
  {
  }

  /** Every modelled value is encoded as its `str()` form. */
  lemma EncHookIsStr(obj: Value)
    ensures EncHook(obj) == Ok(VStr(Str(obj)))
  {
  }

  /**
   * `SecretStr` has `__mspec_encode__` but no `__encode__`, so the hook encodes the mask
   * `"***"`, whatever the payload.
   */
  lemma EncHookMasksSecret(s: SecretStr)
    ensures EncHook(VSecret(s)) == Ok(VStr("***"))
  {
  }

  /**
   * Through the hooks a secret does not survive: encoding gives the mask, and decoding the
   * mask into `SecretStr` gives a secret holding `"***"`, not the original payload.
   */
  lemma SecretHookRoundTripLoses(s: SecretStr)
    ensures var enc := EncHook(VSecret(s)).value;
            Dec.DecHook(Dec.Plain(Dec.Class(SecretStrCls)), enc) == Ok(VSecret(New("***")))
    ensures s.Value() != "***" ==>
              Dec.DecHook(Dec.Plain(Dec.Class(SecretStrCls)), EncHook(VSecret(s)).value) != Ok(VSecret(s))
  {
  }

  /** Through `__mspec_encode__` instead, decoding restores the secret. */
  lemma SecretMspecRoundTrip(s: SecretStr)
    ensures Dec.DecHook(Dec.Plain(Dec.Class(SecretStrCls)), VStr(s.MspecEncode())) == Ok(VSecret(s))
  {
    EncodeRoundTrip(s);
  }
}
