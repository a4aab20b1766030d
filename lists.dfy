/**
 * `ListOf[T]`: a subclass of `list` whose `__validate__` reads a comma-separated string
 * into a list of `T`, or wraps a list as it is.
 */
module Lists {
  import opened Wrappers
  import opened Text
  import opened Values

  /** `ListOf[item]`: a subclass of `ListOf` and of `list`, with item type and name recorded. */
  function ClassGetItem(item: Cls): (c: Cls)
    ensures c.ListOfCls? && c.item == item && IsSubclass(c, ListCls)
    ensures ClassName(c) == "ListOf[" + ClassName(item) + "]"
  {
    ListOfCls(item)
  }

  /** The pieces that remain after `strip()` and skipping the empty ones, in order. */
  function Kept(pieces: seq<string>): seq<string> {
    if |pieces| == 0 then []
    else
      var p := Strip(pieces[|pieces| - 1]);
      Kept(pieces[..|pieces| - 1]) + (if p == "" then [] else [p])
  }

  /** `item(p)` for each piece, left to right, stopping at the first one that raises. */
  function ConvertAll(item: Cls, ps: seq<string>): Result<seq<Value>> {
    if |ps| == 0 then Ok([])
    else
      match ConvertAll(item, ps[..|ps| - 1])
      case Err(e) => Err(e)
      case Ok(parts) =>
        match Call(item, VStr(ps[|ps| - 1]))
        case Err(e) => Err(e)
        case Ok(x) => Ok(parts + [x])
  }

  /** What `ListOf[item].__validate__(value)` returns or raises. */
  function ValidateSpec(item: Cls, value: Value): Result<Value> {
    if value.VStr? then
      match ConvertAll(item, Kept(Split(value.s, ',')))
      case Err(e) => Err(e)
      case Ok(parts) => Call(ListOfCls(item), VList(parts))
    else if IsList(value) then Call(ListOfCls(item), value)
    else Err(TypeError("Expected str or list"))
  }

  lemma {:induction false} KeptConcat(a: seq<string>, b: seq<string>)
    ensures Kept(a + b) == Kept(a) + Kept(b)
  {
    if |b| > 0 {
      assert (a + b)[..|a + b| - 1] == a + b[..|b| - 1];
      assert (a + b)[|a + b| - 1] == b[|b| - 1];
      KeptConcat(a, b[..|b| - 1]);
    } else {
      assert a + b == a;
    }
  }

  lemma {:induction false} KeptLength(pieces: seq<string>)
    ensures |Kept(pieces)| <= |pieces|
  {
    if |pieces| > 0 {
      KeptLength(pieces[..|pieces| - 1]);
    }
  }

  /** Pieces that are already stripped and non-empty are all kept, unchanged. */
  lemma {:induction false} KeptAllClean(pieces: seq<string>)
    requires forall j :: 0 <= j < |pieces| ==> pieces[j] != "" && IsTrimmed(pieces[j])
    ensures Kept(pieces) == pieces
  {
    if |pieces| > 0 {
      KeptAllClean(pieces[..|pieces| - 1]);
      StripTrimmed(pieces[|pieces| - 1]);
    }
  }

  /** Once a conversion has raised, the rest of the pieces are never converted. */
  lemma {:induction false} ConvertAllErrSticks(item: Cls, a: seq<string>, b: seq<string>)
    requires ConvertAll(item, a).Err?
    ensures ConvertAll(item, a + b) == ConvertAll(item, a)
  {
    if |b| == 0 {
      assert a + b == a;
    } else {
      assert (a + b)[..|a + b| - 1] == a + b[..|b| - 1];
      ConvertAllErrSticks(item, a, b[..|b| - 1]);
    }
  }

  /** The conversion of each piece on its own. */
  function Results(item: Cls, ps: seq<string>): (rs: seq<Result<Value>>)
    ensures |rs| == |ps| && forall j :: 0 <= j < |ps| ==> rs[j] == Call(item, VStr(ps[j]))
  {
    seq(|ps|, j requires 0 <= j < |ps| => Call(item, VStr(ps[j])))
  }

  /** The values of a sequence of outcomes, or its first error. */
  function FirstErrorOr(rs: seq<Result<Value>>): Result<seq<Value>> {
    if |rs| == 0 then Ok([])
    else
      match FirstErrorOr(rs[..|rs| - 1])
      case Err(e) => Err(e)
      case Ok(parts) =>
        match rs[|rs| - 1]
        case Err(e) => Err(e)
        case Ok(x) => Ok(parts + [x])
  }

  lemma {:induction false} ConvertAllIsFirstErrorOr(item: Cls, ps: seq<string>)
    ensures ConvertAll(item, ps) == FirstErrorOr(Results(item, ps))
  {
    if |ps| > 0 {
      var n := |ps| - 1;
      ConvertAllIsFirstErrorOr(item, ps[..n]);
      assert Results(item, ps)[..n] == Results(item, ps[..n]);
    }
  }

  lemma {:induction false} FirstErrorOrOk(rs: seq<Result<Value>>)
    ensures FirstErrorOr(rs).Ok? <==> forall j :: 0 <= j < |rs| ==> rs[j].Ok?
  {
    if |rs| > 0 {
      var n := |rs| - 1;
      FirstErrorOrOk(rs[..n]);
      assert forall j :: 0 <= j < n ==> rs[..n][j] == rs[j];
    }
  }

  /** The conversion succeeds exactly when every piece converts. */
  lemma ConvertAllOk(item: Cls, ps: seq<string>)
    ensures ConvertAll(item, ps).Ok? <==> forall j :: 0 <= j < |ps| ==> Call(item, VStr(ps[j])).Ok?
  {
    ConvertAllIsFirstErrorOr(item, ps);
    FirstErrorOrOk(Results(item, ps));
  }

  /** A successful conversion holds the converted pieces in their order. */
  lemma {:induction false} ConvertAllValues(item: Cls, ps: seq<string>)
    requires ConvertAll(item, ps).Ok?
    ensures |ConvertAll(item, ps).value| == |ps|
    ensures forall j :: 0 <= j < |ps| ==> Call(item, VStr(ps[j])) == Ok(ConvertAll(item, ps).value[j])
  {
    if |ps| > 0 {
      var n := |ps| - 1;
      var init := ps[..n];
      ConvertAllValues(item, init);
      assert forall j :: 0 <= j < n ==> init[j] == ps[j];
    }
  }

  /** The first piece that fails to convert decides the error. */
  lemma ConvertAllFirstError(item: Cls, ps: seq<string>, j: nat)
    requires j < |ps| && Call(item, VStr(ps[j])).Err?
    requires forall k :: 0 <= k < j ==> Call(item, VStr(ps[k])).Ok?
    ensures ConvertAll(item, ps) == Err(Call(item, VStr(ps[j])).error)
  {
    ConvertAllIsFirstErrorOr(item, ps);
    FirstErrorOrFirst(Results(item, ps), j);
  }

  lemma {:induction false} FirstErrorOrFirst(rs: seq<Result<Value>>, j: nat)
    requires j < |rs| && rs[j].Err? && forall k :: 0 <= k < j ==> rs[k].Ok?
    ensures FirstErrorOr(rs) == Err(rs[j].error)
  {
    var n := |rs| - 1;
    if j == n {
      FirstErrorOrOk(rs[..n]);
    } else {
      FirstErrorOrFirst(rs[..n], j);
    }
  }

  lemma KeptStep(pieces: seq<string>, i: nat)
    requires i < |pieces|
    ensures Kept(pieces[..i + 1]) ==
            Kept(pieces[..i]) + (if Strip(pieces[i]) == "" then [] else [Strip(pieces[i])])
  {
    assert pieces[..i + 1][..i] == pieces[..i];
  }

  lemma ConvertAllStep(item: Cls, ps: seq<string>, p: string)
    ensures ConvertAll(item, ps).Err? ==> ConvertAll(item, ps + [p]) == ConvertAll(item, ps)
    ensures ConvertAll(item, ps).Ok? && Call(item, VStr(p)).Err? ==>
              ConvertAll(item, ps + [p]) == Err(Call(item, VStr(p)).error)
    ensures ConvertAll(item, ps).Ok? && Call(item, VStr(p)).Ok? ==>
              ConvertAll(item, ps + [p]) == Ok(ConvertAll(item, ps).value + [Call(item, VStr(p)).value])
  {
    assert (ps + [p])[..|ps|] == ps;
  }

  /** A conversion that raises at piece `i` is the outcome for the whole string. */
  lemma ErrAtPiece(item: Cls, pieces: seq<string>, i: nat)
    requires i < |pieces| && ConvertAll(item, Kept(pieces[..i + 1])).Err?
    ensures ConvertAll(item, Kept(pieces)) == ConvertAll(item, Kept(pieces[..i + 1]))
  {
    KeptConcat(pieces[..i + 1], pieces[i + 1..]);
    assert pieces[..i + 1] + pieces[i + 1..] == pieces;
    ConvertAllErrSticks(item, Kept(pieces[..i + 1]), Kept(pieces[i + 1..]));
  }

  /** The loop of the string branch: strip, skip the empty pieces, convert the others. */
  method ConvertPieces(item: Cls, pieces: seq<string>) returns (r: Result<seq<Value>>)
    ensures r == ConvertAll(item, Kept(pieces))
  {
    var parts: seq<Value> := [];
    var i := 0;
    while i < |pieces|
      invariant 0 <= i <= |pieces|
      invariant ConvertAll(item, Kept(pieces[..i])) == Ok(parts)
    {
      var p := Strip(pieces[i]);
      KeptStep(pieces, i);
      if p != "" {
        ConvertAllStep(item, Kept(pieces[..i]), p);
        var c := Call(item, VStr(p));
        if c.Err? {
          ErrAtPiece(item, pieces, i);
          return Err(c.error);
        }
        parts := parts + [c.value];
      } else {
        assert Kept(pieces[..i]) + [] == Kept(pieces[..i]);
      }
      i := i + 1;
    }
    assert pieces[..i] == pieces;
    return Ok(parts);
  }

  /**
   * `ListOf[item].__validate__(value)`. A string is split on commas; each piece is stripped,
   * empty pieces are skipped and the rest are converted with `item` in order; a failing
   * conversion propagates. A list is wrapped without converting its elements; any other
   * value raises `TypeError("Expected str or list")`.
   */
  method Validate(item: Cls, value: Value) returns (r: Result<Value>)
    ensures r == ValidateSpec(item, value)
  {
    if value.VStr? {
      var parts := ConvertPieces(item, Split(value.s, ','));
      if parts.Err? {
        return Err(parts.error);
      }
      r := Call(ListOfCls(item), VList(parts.value));
      return;
    }
    if IsInstance(value, ListCls) {
      r := Call(ListOfCls(item), value);
      return;
    }
    r := Err(TypeError("Expected str or list"));
  }

  /** The string branch in terms of the conversion of the kept pieces alone. */
  lemma ValidateStrShape(item: Cls, s: string)
    ensures var c := ConvertAll(item, Kept(Split(s, ',')));
            ValidateSpec(item, VStr(s)) == if c.Ok? then Ok(VListOf(item, c.value)) else Err(c.error)
  {
    var c := ConvertAll(item, Kept(Split(s, ',')));
    if c.Ok? {
      CallListOf(item, c.value);
    }
  }

  /** Calling `ListOf[t]` on a list copies its elements. */
  lemma CallListOf(t: Cls, items: seq<Value>)
    ensures Call(ListOfCls(t), VList(items)) == Ok(VListOf(t, items))
  {
  }

  /** The converted pieces of a string, when every kept piece converts. */
  function Converted(item: Cls, ps: seq<string>): seq<Value>
    requires forall j :: 0 <= j < |ps| ==> Call(item, VStr(ps[j])).Ok?
  {
    seq(|ps|, j requires 0 <= j < |ps| => Call(item, VStr(ps[j])).value)
  }

  /**
   * A string gives a `ListOf[item]` exactly when every kept piece converts; its elements are
   * the conversions of the kept pieces in order, at most one per comma-separated piece.
   */
  lemma ValidateStr(item: Cls, s: string)
    ensures var ps := Kept(Split(s, ','));
            ValidateSpec(item, VStr(s)).Ok? <==> forall j :: 0 <= j < |ps| ==> Call(item, VStr(ps[j])).Ok?
    ensures var ps := Kept(Split(s, ','));
            ValidateSpec(item, VStr(s)).Ok? ==>
              ValidateSpec(item, VStr(s)) == Ok(VListOf(item, Converted(item, ps))) &&
              |Converted(item, ps)| <= Count(s, ',') + 1
  {
    var ps := Kept(Split(s, ','));
    ValidateStrShape(item, s);
    ConvertAllOk(item, ps);
    KeptLength(Split(s, ','));
    if ConvertAll(item, ps).Ok? {
      ConvertAllValues(item, ps);
      assert ConvertAll(item, ps).value == Converted(item, ps);
    }
  }

  /** The first kept piece that fails to convert is the error raised for the whole string. */
  lemma ValidateStrError(item: Cls, s: string, j: nat)
    requires var ps := Kept(Split(s, ','));
             j < |ps| && Call(item, VStr(ps[j])).Err? &&
             forall k :: 0 <= k < j ==> Call(item, VStr(ps[k])).Ok?
    ensures ValidateSpec(item, VStr(s)) == Err(Call(item, VStr(Kept(Split(s, ','))[j])).error)
  {
    ValidateStrShape(item, s);
    ConvertAllFirstError(item, Kept(Split(s, ',')), j);
  }

  /** A list, or a `ListOf` instance, is wrapped as it is: its elements are not converted. */
  lemma ValidateWrapsList(item: Cls, value: Value)
    requires IsList(value)
    ensures ValidateSpec(item, value) == Ok(VListOf(item, value.items))
  {
  }

  /** Everything that is neither a string nor a list is refused. */
  lemma ValidateRejects(item: Cls, value: Value)
    requires !value.VStr? && !IsList(value)
    ensures ValidateSpec(item, value) == Err(TypeError("Expected str or list"))
  {
  }

  predicate BlankOrComma(s: string) {
    forall i :: 0 <= i < |s| ==> s[i] == ',' || IsSpace(s[i])
  }

  lemma StripSpaceCons(c: char, t: string)
    requires IsSpace(c)
    ensures Strip([c] + t) == Strip(t)
  {
    assert ([c] + t)[1..] == t;
  }

  lemma {:induction false} KeptSplitBlank(s: string)
    requires BlankOrComma(s)
    ensures Kept(Split(s, ',')) == []
  {
    if |s| > 0 {
      var rest := Split(s[1..], ',');
      KeptSplitBlank(s[1..]);
      KeptConcat(rest[..1], rest[1..]);
      assert rest[..1] + rest[1..] == rest;
      KeptStep(rest, 0);
      assert rest[..0] == [];
      if s[0] == ',' {
        KeptConcat([""], rest);
        assert Kept([""]) == Kept([]) + [];
      } else {
        StripSpaceCons(s[0], rest[0]);
        var head := [s[0]] + rest[0];
        KeptConcat([head], rest[1..]);
        assert Kept([head]) == Kept([]) + [];
      }
    }
  }

  /** A string of only commas and blanks, the empty string among them, gives an empty list. */
  lemma ValidateBlank(item: Cls, s: string)
    requires BlankOrComma(s)
    ensures ValidateSpec(item, VStr(s)) == Ok(VListOf(item, []))
  {
    KeptSplitBlank(s);
    ValidateStrShape(item, s);
    assert ConvertAll(item, []) == Ok([]);
  }

  predicate CleanPiece(p: string) {
    p != "" && IsTrimmed(p) && ',' !in p
  }

  /** Joining clean pieces with commas and reading them back converts each piece, in order. */
  lemma ValidateJoined(item: Cls, xs: seq<string>)
    requires forall j :: 0 <= j < |xs| ==> CleanPiece(xs[j])
    ensures ConvertAll(item, xs).Err? ==> ValidateSpec(item, VStr(Join(xs, ","))) == Err(ConvertAll(item, xs).error)
    ensures ConvertAll(item, xs).Ok? ==>
              ValidateSpec(item, VStr(Join(xs, ","))) == Ok(VListOf(item, ConvertAll(item, xs).value))
  {
    ValidateStrShape(item, Join(xs, ","));
    if |xs| == 0 {
      assert Kept(Split("", ',')) == Kept([""]) == Kept([]) + [];
    } else {
      SplitJoin(xs, ',');
      KeptAllClean(xs);
    }
  }

  /** Pieces that convert one by one convert as a whole. */
  lemma {:induction false} ConvertAllEach(item: Cls, xs: seq<string>, ys: seq<Value>)
    requires |xs| == |ys|
    requires forall j :: 0 <= j < |xs| ==> Call(item, VStr(xs[j])) == Ok(ys[j])
    ensures ConvertAll(item, xs) == Ok(ys)
  {
    if |xs| > 0 {
      var n := |xs| - 1;
      ConvertAllEach(item, xs[..n], ys[..n]);
      assert ys[..n] + [ys[n]] == ys;
    }
  }

  /** Clean pieces that convert one by one, joined with commas, validate to their conversions. */
  lemma ValidateEach(item: Cls, xs: seq<string>, ys: seq<Value>)
    requires |xs| == |ys|
    requires forall j :: 0 <= j < |xs| ==> CleanPiece(xs[j]) && Call(item, VStr(xs[j])) == Ok(ys[j])
    ensures ValidateSpec(item, VStr(Join(xs, ","))) == Ok(VListOf(item, ys))
  {
    ConvertAllEach(item, xs, ys);
    ValidateJoined(item, xs);
  }

  lemma CallStr(s: string)
    ensures Call(StrCls, VStr(s)) == Ok(VStr(s))
  {
  }

  /** `ListOf[str]` reads back the strings it was written from. */
  lemma RoundTripStr(xs: seq<string>)
    requires forall j :: 0 <= j < |xs| ==> CleanPiece(xs[j])
    ensures ValidateSpec(StrCls, VStr(Join(xs, ","))) ==
            Ok(VListOf(StrCls, seq(|xs|, j requires 0 <= j < |xs| => VStr(xs[j]))))
  {
    var ys := seq(|xs|, j requires 0 <= j < |xs| => VStr(xs[j]));
    forall j | 0 <= j < |xs| ensures CleanPiece(xs[j]) && Call(StrCls, VStr(xs[j])) == Ok(ys[j]) {
      CallStr(xs[j]);
    }
    ValidateEach(StrCls, xs, ys);
  }

  function IntTexts(ns: seq<int>): seq<string> {
    seq(|ns|, j requires 0 <= j < |ns| => IntToStr(ns[j]))
  }

  /**
   * `ListOf[int]` reads back the integers whose decimal forms were joined with commas, when each
   * is within the digit limit.
   */
  lemma RoundTripInt(ns: seq<int>)
    requires forall j :: 0 <= j < |ns| ==> WithinDigitLimit(ns[j])
    ensures ValidateSpec(IntCls, VStr(Join(IntTexts(ns), ","))) ==
            Ok(VListOf(IntCls, seq(|ns|, j requires 0 <= j < |ns| => VInt(ns[j]))))
  {
    var xs := IntTexts(ns);
    var ys := seq(|ns|, j requires 0 <= j < |ns| => VInt(ns[j]));
    forall j | 0 <= j < |xs|
      ensures CleanPiece(xs[j]) && Call(IntCls, VStr(xs[j])) == Ok(ys[j])
    {
      IntToStrShape(ns[j]);
      ParseIntToStr(ns[j]);
    }
    ValidateEach(IntCls, xs, ys);
  }

  lemma CallInt(s: string)
    ensures Call(IntCls, VStr(s)).Ok? <==> ParseInt(s).Some?
  {
  }

  /** An integer beyond the digit limit among them makes the read raise. */
  lemma RoundTripIntLimit(ns: seq<int>, j: nat)
    requires j < |ns| && !WithinDigitLimit(ns[j])
    ensures ValidateSpec(IntCls, VStr(Join(IntTexts(ns), ","))).Err?
  {
    var xs := IntTexts(ns);
    forall k | 0 <= k < |xs| ensures CleanPiece(xs[k]) {
      IntToStrShape(ns[k]);
    }
    ParseIntToStr(ns[j]);
    CallInt(xs[j]);
    assert Call(IntCls, VStr(xs[j])).Err?;
    ConvertAllOk(IntCls, xs);
    assert ConvertAll(IntCls, xs).Err?;
    ValidateJoined(IntCls, xs);
  }

  lemma SplitOneX()
    ensures Kept(Split("1,x", ',')) == ["1", "x"]
  {
    assert Join(["1", "x"], ",") == "1,x";
    SplitJoin(["1", "x"], ',');
    KeptAllClean(["1", "x"]);
  }

  lemma ConvertOneX()
    ensures Call(IntCls, VStr("1")) == Ok(VInt(1))
    ensures Call(IntCls, VStr("x")) == Err(ValueError("invalid literal for int() with base 10: 'x'"))
  {
    ParseIntToStr(1);
    assert IntTrimStart("x") == "x" && IntTrimEnd("x") == "x";
    assert !IsDigit("x"[0]);
    assert ParseInt("x") == None;
    assert "x"[1..] == "";
    assert Escape("x", '\'') == "x";
    assert ReprStr("x") == "'x'";
    assert "invalid literal for int() with base 10: " + "'x'" == "invalid literal for int() with base 10: 'x'";
  }

  /** A piece that is not an integer literal stops the whole read with `int()`'s error. */
  lemma IntPieceError()
    ensures ValidateSpec(IntCls, VStr("1,x")) == Err(ValueError("invalid literal for int() with base 10: 'x'"))
  {
    SplitOneX();
    ConvertOneX();
    ValidateStrError(IntCls, "1,x", 1);
  }
}
