/**
 * `SecretStr`: an immutable wrapper around a string. Its payload is fixed when it is built;
 * its text forms are a fixed mask, and only the accessor and the encoder give the payload back.
 */
module Secret {

  datatype SecretStr = SecretStr(payload: string) {

    /** `str(secret)` */
    function Str(): string { "***" }

    /** `repr(secret)` */
    function Repr(): string { "SecretStr('***')" }

    /** The `value` property. */
    function Value(): string { payload }

    /** `__mspec_encode__`: serialises the payload itself. */
    function MspecEncode(): string { payload }

    /** `__mspec_copy__`: a new wrapper around the same payload. */
    function MspecCopy(): SecretStr { SecretStr(payload) }
  }

  /** `SecretStr(text)` for a `str` argument, where `str(text)` is `text` itself. */
  function New(text: string): (s: SecretStr)
    ensures s.Value() == text
  {
    SecretStr(text)
  }

  /** The text forms do not depend on the payload: two secrets always print alike. */
  lemma TextFormsHidePayload(a: SecretStr, b: SecretStr)
    ensures a.Str() == b.Str() == "***"
    ensures a.Repr() == b.Repr() == "SecretStr('***')"
  {
  }

  predicate IsSubstring(p: string, s: string) {
    exists i :: 0 <= i <= |s| && p <= s[i..]
  }

  /** A payload with any character other than `*` never appears in `str(secret)`. */
  lemma StrNeverShowsPayload(s: SecretStr, k: nat)
    requires k < |s.payload| && s.payload[k] != '*'
    ensures !IsSubstring(s.payload, s.Str())
  {
    var m := s.Str();
    forall i | 0 <= i <= |m|
      ensures !(s.payload <= m[i..])
    {
      if i + k < |m| {
        assert m[i..][k] == '*';
      }
    }
  }

  /** The accessor, the encoder and the copy all carry the payload: encoding loses nothing. */
  lemma EncodeRoundTrip(s: SecretStr)
    ensures New(s.MspecEncode()) == s
    ensures s.MspecCopy().Value() == s.Value() == s.MspecEncode()
  {
  }
}
