# confstruct: the coercion and validation core, in Dafny

This project models the part of confstruct that turns raw configuration data into typed field
values:

- the recursive type matcher `isinstance_typed` (`Dec.IsInstanceTyped`) and the decode hook
  `dec_hook` (`Dec.DecHook`) of `src/confstruct/hooks/dec.py`;
- the encode hook `enc_hook` (`Enc.EncHook`) and its `str()` fallback (`Enc.FallbackEncode`)
  of `src/confstruct/hooks/enc.py`;
- the validated types `ListOf[T]` (`Lists.ClassGetItem`, with `__validate__` specified by
  `Lists.ValidateSpec` and implemented by `Lists.Validate`) of `src/confstruct/types/lists.py`,
  and `SecretStr` (`Secret.SecretStr`, `SecretValidate.Validate`) of
  `src/confstruct/types/secret.py`;
- the loader's field assembly (`src/confstruct/loader.py`): `_convert_env_value`
  (`Loader.ConvertEnvValue`), the fast path `_extreme_fast_json_load` (`Loader.FastJsonLoad`,
  specified by `Loader.Assemble`), and `load` up to the final record conversion (`Loader.Load`:
  provider dispatch, the required check, the environment rename loop `Loader.RenameEnvKeys`
  specified by `Loader.Renamed`, the field-by-field path `Loader.CollectPerField` specified by
  `Loader.Collected`);
- the field helpers of `src/confstruct/utils.py` (`Utils.RequiredFieldNamesLower`,
  `Utils.FieldDefaults`), over a field list given as input;
- the dict-built `JSONProvider` of `src/confstruct/providers/json_prov.py`
  (`JsonProv.JSONProvider`), with its single-pass key normalisation (`NormalizeSinglePass`,
  specified by `JsonProv.Normalized`) and its lookups.

Python objects are the datatype `Values.Value`. It covers `None`, `bool`, `int`, `str`, `list`,
`tuple`, `dict` (an ordered sequence of entries), `SecretStr` and `ListOf[T]` instances. Their
classes are `Values.Cls`. Errors are `Result` values carrying a `TypeError` or `ValueError`
with its message. A type annotation is `Dec.Ann`: a plain form (a class, or an object that is
not a class), a union, or a generic alias with its origin, its arguments, and whether it is a
builtin alias (`list[int]`) or a `typing` alias (`List[int]`).

The code follows the source's form:

- Pure code (`dec.py`, `enc.py`, `secret.py`, `utils.py`, the branches of `__validate__`) is
  written as functions with lemmas.
- Each loop in the source is a method with a loop, proved equal to a specification function:
  - the string branch of `ListOf.__validate__`;
  - the normalisation loop of `JSONProvider`;
  - the keyword build of the fast path;
  - the rename and per-field loops of `load`.
- `JSONProvider` is a class whose constructor sets its normalised dict.

Behaviours of the code worth knowing:

- The decode hook calls `typ.__validate__(value, typ)` with two arguments, but
  `ListOf.__validate__` takes one. So decoding into any `ListOf[T]` raises `TypeError`
  (`Dec.DecHookListOfRaises`).
- Nothing in `dec_hook` catches exceptions: errors from `__validate__` or from calling the
  type propagate. They do not fall through to another strategy.
- `ListOf[int]` on `"[1,2,3]"` splits into `"[1"`, `"2"`, `"3]"`, so it raises at the first
  piece. It does not read a bracketed list.
- Errors are the builtin ones (`int()`'s `ValueError`, `"Expected str or list"`,
  `"Required field ... not found"`). There is no dedicated coercion-failure error.

## Model

| member | source | states |
|---|---|---|
| Secret.New | src/confstruct/types/secret.py:15-16 | a secret built from a string holds exactly that string as its `value` |
| Secret.TextFormsHidePayload | src/confstruct/types/secret.py:42-46 | `str()` is `"***"` and `repr()` is `"SecretStr('***')"` for every payload |
| Secret.StrNeverShowsPayload | src/confstruct/types/secret.py:42-43 | a payload with any character other than `*` never occurs inside `str(secret)` |
| Secret.EncodeRoundTrip | src/confstruct/types/secret.py:48-59 | `value`, `__mspec_encode__` and `__mspec_copy__` all carry the payload; rebuilding from the encoding gives the same secret |
| SecretValidate.Validate | src/confstruct/types/secret.py:28-40 | in the model, whose `str()` is total, the result is always a `SecretStr`; an existing `SecretStr` comes back unchanged; any other value gives a secret whose `value` is `str(value)` |
| SecretValidate.ValidateIdempotent | src/confstruct/types/secret.py:36-40 | validating the result of validation returns it unchanged |
| SecretValidate.ConstructorStoresStr | src/confstruct/types/secret.py:15-16 | calling `SecretStr(x)` never raises and stores `str(x)` (the `str()` digit limit on huge integers is not modelled) |
| SecretValidate.ValidateAgreesWithConstructor | src/confstruct/types/secret.py:38-40 | for anything but a `SecretStr`, validating equals calling the constructor |
| Values.Call | src/confstruct/hooks/dec.py:37 | whatever calling a class on a value returns is an object of exactly that class |
| Values.IsListShape | src/confstruct/hooks/dec.py:20 | `isinstance(v, list)` holds exactly for lists and `ListOf` instances |
| Text.Split | src/confstruct/types/lists.py:16 | `split(",")` gives one more piece than there are commas, and no piece holds a comma |
| Text.SplitJoin | src/confstruct/types/lists.py:16 | splitting comma-joined comma-free pieces on commas gives the pieces back |
| Text.StripTrimmed | src/confstruct/types/lists.py:17 | `strip()` leaves a string with no outer whitespace unchanged |
| Text.ParseIntToStr | src/confstruct/loader.py:22 | `int()` reads the decimal form of every integer within the 4300-digit limit back as that integer, and refuses it beyond the limit |
| Text.ParseIntLimit | src/confstruct/loader.py:22 | `int()` refuses a literal with more than 4300 digits, whatever follows them |
| Text.ParseIntKeepsSeparator | src/confstruct/loader.py:22 | `int()` skips only space and `\t \n \v \f \r`: `"\x1c5"` is refused although `strip()` would remove the `\x1c` |
| Text.LowerIdempotent | src/confstruct/providers/json_prov.py:70 | lower-casing twice is lower-casing once |
| Lists.ClassGetItem | src/confstruct/types/lists.py:7-9 | `ListOf[T]` is a subclass of `list` with item type `T`, named `"ListOf[" + T's name + "]"` |
| Lists.ConvertPieces | src/confstruct/types/lists.py:14-21 | the loop equals the conversion of the kept pieces: stripped, blanks skipped, converted in order, stopping at the first error |
| Lists.Validate | src/confstruct/types/lists.py:12-24 | the method is `ListOf[T].__validate__`, branch for branch |
| Lists.KeptLength | src/confstruct/types/lists.py:16-20 | no more pieces are kept than the split produced |
| Lists.KeptAllClean | src/confstruct/types/lists.py:16-19 | pieces that are non-empty and already stripped are all kept unchanged |
| Lists.ConvertAllOk | src/confstruct/types/lists.py:20 | the conversion succeeds exactly when every piece converts |
| Lists.ConvertAllValues | src/confstruct/types/lists.py:20-21 | a successful conversion holds one converted value per piece, in order |
| Lists.ConvertAllFirstError | src/confstruct/types/lists.py:20 | the first piece that fails to convert decides the error |
| Lists.ConvertAllErrSticks | src/confstruct/types/lists.py:20 | once a conversion has raised, later pieces are never looked at |
| Lists.ValidateStr | src/confstruct/types/lists.py:13-21 | a string validates exactly when every kept piece converts; the result is the `ListOf` of those conversions, at most one per comma plus one |
| Lists.ValidateStrError | src/confstruct/types/lists.py:20 | the first kept piece that fails raises that error for the whole string |
| Lists.ValidateWrapsList | src/confstruct/types/lists.py:22-23 | a list is wrapped as it is, with no per-element conversion |
| Lists.ValidateRejects | src/confstruct/types/lists.py:24 | anything that is neither a string nor a list raises `TypeError("Expected str or list")` |
| Lists.KeptSplitBlank | src/confstruct/types/lists.py:16-19 | a string of commas and whitespace keeps no piece |
| Lists.ValidateBlank | src/confstruct/types/lists.py:16-19 | `""`, `","`, `" , "` and every such string give an empty `ListOf` |
| Lists.ValidateJoined | src/confstruct/types/lists.py:13-21 | validating clean pieces joined with commas is converting the pieces themselves |
| Lists.ValidateEach | src/confstruct/types/lists.py:13-21 | clean pieces that convert one by one, once joined, validate to their conversions |
| Lists.RoundTripStr | src/confstruct/types/lists.py:13-21 | `ListOf[str]` reads back exactly the non-empty, trimmed, comma-free strings that were joined |
| Lists.RoundTripInt | src/confstruct/types/lists.py:13-21 | `ListOf[int]` reads back exactly the integers whose decimal forms were joined, when each is within the 4300-digit limit |
| Lists.RoundTripIntLimit | src/confstruct/types/lists.py:20 | one integer beyond the digit limit among them makes the read raise |
| Lists.IntPieceError | src/confstruct/types/lists.py:20 | `ListOf[int]` on `"1,x"` raises `int()`'s `ValueError` for `'x'` |
| Dec.PlainIsIsinstance | src/confstruct/hooks/dec.py:8-12 | a plain class is checked with `isinstance`, so `True` matches `int` |
| Dec.PlainNeverRaises | src/confstruct/hooks/dec.py:8-12 | a plain annotation never raises; a non-class one gives `False` |
| Dec.AnyMatchFalse | src/confstruct/hooks/dec.py:16-17 | a union decides `False` exactly when every alternative decides `False` |
| Dec.AnyMatchTrue | src/confstruct/hooks/dec.py:16-17 | a union matches exactly when some alternative matches and every earlier one decided `False` |
| Dec.UnionIsAny | src/confstruct/hooks/dec.py:16-17 | when no alternative raises, a union matches exactly when one alternative matches |
| Dec.AnyMatchDecides | src/confstruct/hooks/dec.py:16-17 | when no alternative raises, neither does the union |
| Dec.AllMatchTrue | src/confstruct/hooks/dec.py:25 | `all` holds exactly when every element matches |
| Dec.AllMatchFalse | src/confstruct/hooks/dec.py:25 | `all` is `False` exactly at an element that does not match, after elements that matched |
| Dec.ListOfOne | src/confstruct/hooks/dec.py:19-25 | `list[T]` matches exactly the lists whose elements all match `T`; a non-list never matches; the empty list always does |
| Dec.BareList | src/confstruct/hooks/dec.py:19-23 | a bare list alias matches exactly the lists and `ListOf` instances |
| Dec.ListTooManyArgs | src/confstruct/hooks/dec.py:24 | a list alias with several arguments raises on a list and gives `False` on anything else |
| Dec.OtherGenericIgnoresArgs | src/confstruct/hooks/dec.py:27 | any other generic is `isinstance` against its origin, whatever its arguments |
| Dec.NonClassOriginRaises | src/confstruct/hooks/dec.py:27 | a generic whose origin is not a class makes `isinstance` raise `TypeError` |
| Dec.ValidateOwner | src/confstruct/hooks/dec.py:32 | a `__validate__` is found exactly when a plain annotation or a builtin alias names `SecretStr` or a `ListOf` class, and it is that class's; a union or a `typing` alias never relays it |
| Dec.DecHookPlainCall | src/confstruct/hooks/dec.py:37 | without a `__validate__`, decoding is `typ(value)` |
| Dec.PlainDecHookIsCall | src/confstruct/hooks/dec.py:37 | decoding into any other plain class calls it, so a result is an object of exactly that class |
| Dec.DecHookSecret | src/confstruct/hooks/dec.py:32-36 | decoding into `SecretStr` never raises in the model, whose `str()` is total: a `SecretStr` comes back unchanged, anything else becomes a secret holding `str(value)` |
| Dec.DecHookListOfRaises | src/confstruct/hooks/dec.py:33 | decoding into any `ListOf[T]` raises `TypeError`, because two arguments go to a one-argument `__validate__` |
| Dec.DecHookKeepsMatch | src/confstruct/hooks/dec.py:34-35 | a validated value that matches the annotation is returned as it is |
| Dec.ValidatedAlwaysMatches | src/confstruct/hooks/dec.py:32-36 | whenever `SecretStr` or `ListOf` validation returns, its result already matches the annotation, so the hook returns it and the recall through `typ(...)` is never reached |
| Enc.FallbackEncode | src/confstruct/hooks/enc.py:4-5 | the fallback is a string, the object's `str()` form (in the model, whose `str()` is total) |
| Enc.EncodeMethodWins | src/confstruct/hooks/enc.py:9-10 | a callable `__encode__` decides the result, exceptions included |
| Enc.FallbackWhenNotCallable | src/confstruct/hooks/enc.py:11 | a missing or non-callable `__encode__` gives `str(obj)` (in the model, whose `str()` is total) |
| Enc.EncHookIsStr | src/confstruct/hooks/enc.py:8-11 | every modelled value encodes as its `str()` form (the `str()` digit limit on huge integers is not modelled) |
| Enc.EncHookMasksSecret | src/confstruct/hooks/enc.py:9-11 | a `SecretStr` encodes as `"***"`, whatever its payload |
| Enc.SecretHookRoundTripLoses | src/confstruct/hooks/enc.py:8-11 | encoding then decoding a secret through the hooks gives a secret holding `"***"`, not the original one |
| Enc.SecretMspecRoundTrip | src/confstruct/types/secret.py:53-55 | decoding the `__mspec_encode__` form restores the same secret |
| Utils.RequiredConcat | src/confstruct/utils.py:13-16 | the required names of two field lists in a row are their required names in order |
| Utils.RequiredMembership | src/confstruct/utils.py:13-16 | a name is required exactly when it is the lower-cased name of a field without a default |
| Utils.RequiredShape | src/confstruct/utils.py:13-16 | there are at most as many required names as fields, all lower case |
| Utils.DefaultsKeys | src/confstruct/utils.py:19-23 | the defaults hold exactly the names of the fields that have a default |
| Utils.DefaultsValue | src/confstruct/utils.py:19-23 | a name maps to the default of the last field of that name that has one |
| Utils.Partition | src/confstruct/utils.py:13-23 | with distinct lower-case names, each field is either required or in the defaults with its own default, never both and never neither |
| JsonProv.JSONProvider.constructor | src/confstruct/providers/json_prov.py:21-27 | a provider built from a dict has no cache key and holds the normalised dict |
| JsonProv.JSONProvider.NormalizeSinglePass | src/confstruct/providers/json_prov.py:55-72 | the loop leaves an empty dict and a dict whose first key is a lower-case string alone, and otherwise assigns every key's `str(k).lower()` in order |
| JsonProv.JSONProvider.GetValue | src/confstruct/providers/json_prov.py:74-76 | the value of the normalised dict under `key.lower()`, and `None` when there is none |
| JsonProv.JSONProvider.GetAll | src/confstruct/providers/json_prov.py:78-80 | the normalised dict itself |
| JsonProv.LowerKeysLookup | src/confstruct/providers/json_prov.py:64-72 | after lower-casing, a key holds the value of the last entry whose key lower-cases to it, and is absent when there is none |
| JsonProv.LowerKeysShape | src/confstruct/providers/json_prov.py:64-72 | lower-casing gives lower-case string keys, no two alike |
| JsonProv.LowerKeysFixed | src/confstruct/providers/json_prov.py:64-72 | a dict whose keys are distinct lower-case strings comes out unchanged |
| JsonProv.NormalizedIdempotent | src/confstruct/providers/json_prov.py:55-72 | normalising a normalised dict returns it unchanged |
| JsonProv.NormalizedKeys | src/confstruct/providers/json_prov.py:64-72 | without the shortcut, normalised keys are distinct lower-case strings |
| JsonProv.GetValueIgnoresCase | src/confstruct/providers/json_prov.py:74-76 | `get_value` gives the same answer for a key and its lower-case form |
| JsonProv.GetValueFromData | src/confstruct/providers/json_prov.py:74-76 | without the shortcut, `get_value(key)` is the value of the last original entry whose key lower-cases like `key`, or `None` |
| JsonProv.ShortcutKeepsLaterKeys | src/confstruct/providers/json_prov.py:60-62 | the shortcut looks only at the first key: in `{"a": 1, "B": 2}`, `"B"` stays as it is and `get_value("b")` finds nothing |
| Loader.ConvertEnvKeeps | src/confstruct/loader.py:11-35 | non-strings, and strings for targets other than `bool` and `int`, are returned unchanged |
| Loader.ConvertEnvBool | src/confstruct/loader.py:16-18 | for `bool`, the result is `True` exactly when the lower-case string is `true`, `1`, `yes` or `on`, in any case |
| Loader.ConvertEnvBoolExamples | src/confstruct/loader.py:16-18 | `"YES"` gives `True` and `"nope"` gives `False` |
| Loader.ConvertEnvInt | src/confstruct/loader.py:20-24 | for `int`, the parsed integer, or the string unchanged when `int()` refuses it |
| Loader.ConvertEnvIntRoundTrip | src/confstruct/loader.py:20-24 | the decimal form of an integer within the digit limit converts back to that integer; a longer one stays a string |
| Loader.MissingEmpty | src/confstruct/loader.py:41-45 | nothing is missing exactly when every field without a default has its lower-case name among the data keys |
| Loader.CheckRequired | src/confstruct/loader.py:41-47 | when a required name is missing, the error names one of the missing names; otherwise there is none |
| Loader.FastJsonLoad | src/confstruct/loader.py:38-77 | a missing required name raises for one of them; otherwise the loop builds exactly the keyword arguments field by field, or raises the first conversion error |
| Loader.AssembleRaisesOnlyForInt | src/confstruct/loader.py:57-73 | in the model, whose `str()` is total, the fast path can only raise where `int()` refuses the value of a present `int` field (float not modelled) |
| Loader.PresentErr | src/confstruct/loader.py:57-73 | of the conversions of a present value only `int()` raises, in the model, whose `str()` is total (float not modelled) |
| Loader.AssembleKeywords | src/confstruct/loader.py:52-75 | with distinct names (`Port` and `port` allowed, both reading `port`), each present field gets its converted value and each absent field gets its default, or nothing |
| Loader.AssembleNoOtherKeys | src/confstruct/loader.py:52-75 | with distinct names, no keyword argument is built under a name that is no field's name |
| Loader.PresentBool | src/confstruct/loader.py:66-68 | JSON `true` and `false` stay `True` and `False` through `str(value).lower()` |
| Loader.PresentOther | src/confstruct/loader.py:69-73 | a present field of any other type gets the `dec_hook` result, or its raw value when the hook raises |
| Loader.RenameEnvKeys | src/confstruct/loader.py:103-111 | the rename loop equals the turns of its fields applied in order |
| Loader.RenameFrame | src/confstruct/loader.py:105-111 | a field's turn leaves every key alone except its name and its lower-case name |
| Loader.RenameOwn | src/confstruct/loader.py:105-111 | after a field's turn, its name holds the converted lower-case value, else its default, else what was there |
| Loader.RenamedUntouched | src/confstruct/loader.py:103-111 | keys that are no field's name or lower-case name come out of the loop unchanged |
| Loader.OtherFieldKeys | src/confstruct/loader.py:103-111 | with distinct lower-case names, no field's names are touched by another field's turn |
| Loader.RenamedField | src/confstruct/loader.py:103-111 | with distinct lower-case names, after the loop each field's name holds what its own turn computed from the original data |
| Loader.CollectPerField | src/confstruct/loader.py:113-123 | the per-field loop builds the dict field by field, in declaration order, or raises the first missing field's error |
| Loader.CollectedOk | src/confstruct/loader.py:116-123 | the per-field path succeeds exactly when every field without a default has a value other than `None` |
| Loader.CollectedFirstMissing | src/confstruct/loader.py:122-123 | it raises `Required field ... not found` for the first field, in declaration order, with neither a value nor a default |
| Loader.CollectedValues | src/confstruct/loader.py:116-121 | with distinct names, each answered field holds its value, converted for an environment provider; a field left to its default is absent |
| Loader.Load | src/confstruct/loader.py:80-123 | the JSON provider and other non-environment providers with `get_all` take the fast path; an environment snapshot is checked for required names and then renamed; a provider with only `get_value` is asked field by field |

## Left out

- Environment and dotenv providers are I/O (`os.getenv`, `load_dotenv`). `load` takes an abstract provider instead: what `get_all` returns, or a map answering `get_value`. The library's `EnvProvider` defines only `get_value` (`src/confstruct/providers/env_prov.py:6-8`), so it takes the field-by-field path (`Loader.Provider.GetValueOnly` with `isEnv`); the rename branch is reached only by an `EnvProvider` subclass that adds `get_all`, which `Loader.Provider.WithGetAll` with `isEnv` stands for.
- `load(obj)` with no provider builds an `EnvProvider()`. That default is not modelled; the provider is always given.
- The file, bytes and path inputs of `JSONProvider`, `msgspec.json.decode`, and the class-level path cache are not modelled. They are I/O and process-wide mutable state. Only the dict-input constructor is modelled.
- `msgspec.convert` is a foreign library call. The model stops at the dict it would receive (`Loader.Loaded.ToConvert`, with the strict flag), so the `ValidationError` wrapping is not modelled either.
- `msgspec.structs.fields` is replaced by a field list given as input.
- A field with only a `default_factory` reports `NODEFAULT` and is modelled as having no default.
- `obj(**kwargs)` at the end of the fast path is modelled by returning the keyword arguments. It never raises in the model.
- Float targets and values are floating point, so they are not modelled. A float annotation falls into the "other type" branches.
- `lru_cache` memoisation and `SecretStr._get_validate_method` are not modelled. They cannot change results, and every function of the model depends only on its arguments.
- `int()`, `strip()`, `islower()` and `lower()` cover ASCII only. `int()` takes decimal digits with an optional sign, surrounded only by space and `\t \n \v \f \r`, and at most 4300 digits (the default of `sys.set_int_max_str_digits`); the wording of its limit message is CPython 3.12's. Underscores, other bases, Unicode digits, Unicode whitespace and Unicode casing are left out.
- SecretValidate.Validate: `cls(str(value))` raises for an integer of more than 4300 digits in the source; the model returns a secret holding its digits.
- Dec.DecHookSecret: decoding such an integer into `SecretStr` raises in the source through `__validate__`; in the model it succeeds.
- Enc.FallbackEncode: `str(obj)` raises for such an integer in the source; the model always returns a string.
- Enc.FallbackWhenNotCallable: the fallback can raise in the source for such an integer; the model gives `Ok`.
- Loader.PresentErr: `str(value)` for a `str` field and `str(value).lower()` for a `bool` field raise for such an integer in the source; in the model only `int()` raises. A `SecretStr` field keeps the raw integer in the source (the hook's error is caught), where the model stores a secret.
- Loader.AssembleRaisesOnlyForInt: for the same reason the fast path can also raise in the source for a `str` or `bool` field holding such an integer.
- SecretValidate.ConstructorStoresStr: `SecretStr(n)` for an integer with more than 4300 digits raises, because `str(n)` does; the model's `str()` is total and never raises. `int()`'s limit is modelled (`Text.ParseInt`, `Values.IntOf`, `Loader.ConvertEnvValue`).
- Enc.EncHookIsStr: the fallback `str(obj)` of an integer with more than 4300 digits raises in the source; the model's `str()` does not.
- Lists.RoundTripInt: requires every integer within the 4300-digit limit, since beyond it `str(n)` raises and the text cannot be written from `n`; `Lists.RoundTripIntLimit` states what reading such a text gives.
- `ListOf[T]` is a class value `ListOfCls(T)`. The class `type()` creates on each subscription is not modelled, so two `ListOf[T]` with the same `T` are the same class.
- Object identity (`is`, returning "the same object") is modelled as equality of values.
- `isinstance` with a tuple of classes as its second argument is not modelled.
- Which missing required name the set check reports depends on set iteration order. The model chooses one of the missing names nondeterministically and proves only that it is missing.
- The rename loop of `load` mutates the dict that the environment provider's `get_all` returned. The model works on a copy, so the aliasing with the provider is left out.
- Builtin error messages for calling the `typing` aliases and non-class objects of `Dec.Ann` that cannot be instantiated are paraphrased. So is the message of a too-long tuple unpack. Messages the lemmas state (`int()`'s errors, `"Expected str or list"`, `"Required field ... not found"`) follow the source.
- `Annotated[T, ...]`, a `NewType` and other callable annotations that are not classes fall outside `Dec.Ann`. In the source calling them runs the underlying type (`dec_hook` on `Annotated[int, Meta(ge=1)]` and `"5"` gives `5`); the model has no such annotation, and `Dec.CallAnn` raises for every non-class annotation it does have.
- The `dec_hook` argument of `load` is not modelled. It reaches only `msgspec.convert`, which is not modelled. The fast path always uses the library's own `dec_hook` and ignores `strict`, and the model does the same.
- `ListOf[T]` for an item type that is not a class (`ListOf[int | None]`, named by `str(item_type)`) is not modelled: `Lists.ClassGetItem` takes a model class.
- Values.IntParseMessage: for a literal with more than 4300 digits followed by invalid text, the model reports the digit-limit message. Which of the two messages CPython reports in that case is not settled here. Either way `int()` refuses the literal, and `Text.ParseInt` returns `None`.
- The recall `typ(val)` of `dec_hook` is modelled, but only user classes with a `__validate__` could reach it, and of the library's own types none does (`Dec.ValidatedAlwaysMatches`).
- Values other than those of the model, and user classes with their own `__encode__` or `__validate__`, are not modelled. `Enc.EncHookWith` takes the attribute lookup as a parameter.
