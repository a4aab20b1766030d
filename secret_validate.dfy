/**
 * The parts of `SecretStr` that take an arbitrary object: the constructor's `str(value)` and the
 * `__validate__` hook that the decode hook calls.
 */
module SecretValidate {
  import opened Wrappers
  import opened Secret
  import opened Values

  /**
   * `SecretStr.__validate__(value, typ)`: an existing `SecretStr` comes back as it is, anything
   * else is wrapped as `SecretStr(str(value))`. The annotation argument is not used.
   */
  function Validate(value: Value): (r: Value)
    ensures r.VSecret?
    ensures value.VSecret? ==> r == value
    ensures !value.VSecret? ==> r.secret.Value() == Str(value)
  {
    if IsInstance(value, SecretStrCls) then value
    else if value.VStr? then VSecret(New(value.s))
    else VSecret(New(Str(value)))
  }

  /** Validating what validation returned changes nothing. */
  lemma ValidateIdempotent(value: Value)
    ensures Validate(Validate(value)) == Validate(value)
  {
  }

  /** `SecretStr(x).value == str(x)` */
  lemma ConstructorStoresStr(x: Value)
    ensures Call(SecretStrCls, x).Ok? && Call(SecretStrCls, x).value.VSecret?
    ensures Call(SecretStrCls, x).value.secret.Value() == Str(x)
  {
  }

  /** Apart from a value that already is a `SecretStr`, validating is calling the constructor. */
  lemma ValidateAgreesWithConstructor(x: Value)
    requires !x.VSecret?
    ensures Call(SecretStrCls, x) == Ok(Validate(x))
  {
  }
}
