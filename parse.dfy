/** Introspection over an arbitrary error (flooerr/parse.go): finding the
    first structured error along the unwrap chain, zero-value getters and
    predicates over it, a full snapshot, and walks of the cause chain. */
module Parse {
  import opened Types
  import opened StackTrace
  import opened Errors
  import Builder

  /** `ErrorInfo`. A Go map that may be nil is an `Option` (None is nil). */
  datatype ErrorInfo = ErrorInfo(
    code: Code,
    message: string,
    errorMsg: string,
    context: Option<map<string, Value>>,
    sdc: Option<map<string, string>>,
    stackTrace: seq<StackFrame>,
    cause: Error,
    isFlooErr: bool)

  /** The zero `ErrorInfo`. */
  const ZeroInfo: ErrorInfo := ErrorInfo(Code(""), "", "", None, None, [], Nil, false)

  /** The links `errors.Unwrap` visits from `err`, outermost first, until
      nil. */
  function CauseChain(err: Error): (c: seq<Error>)
    decreases err.Size()
    ensures |c| == 0 <==> err.Nil?
    ensures |c| > 0 ==> c[0] == err
  {
    if err.Nil? then [] else [err] + CauseChain(err.Unwrap())
  }

  /** Every link of `CauseChain` is non-nil and is the `Unwrap` of the link
      before it; the last link does not unwrap. */
  lemma {:induction false} CauseChainLinks(err: Error, i: nat)
    requires i < |CauseChain(err)|
    ensures !CauseChain(err)[i].Nil?
    ensures i + 1 < |CauseChain(err)| ==> CauseChain(err)[i + 1] == CauseChain(err)[i].Unwrap()
    ensures i + 1 == |CauseChain(err)| ==> CauseChain(err)[i].Unwrap().Nil?
    decreases err.Size()
  {
    if i > 0 {
      CauseChainLinks(err.Unwrap(), i - 1);
    }
  }

  /** The position of the first structured error in `s`, or `|s|`. */
  function FirstFlooIndex(s: seq<Error>): (i: nat)
    ensures i <= |s|
    ensures forall j :: 0 <= j < i ==> !s[j].Floo?
    ensures i < |s| ==> s[i].Floo?
  {
    if s == [] then 0 else if s[0].Floo? then 0 else 1 + FirstFlooIndex(s[1..])
  }

  /** `AsFlooErr`: `errors.As` into the structured-error interface. Nil and
      errors without an `Unwrap` that are not structured give nothing; a
      found error lies strictly above its own cause. */
  function AsFlooErr(err: Error): (r: Option<FlooErr>)
    ensures err.Floo? ==> r == Some(err.f)
    ensures err.Nil? || err.Plain? || err.Simple? ==> r.None?
    ensures r.Some? ==> r.value.cause.Size() < err.Size()
  {
    match err
    case Floo(f) => Some(f)
    case Wrapper(_, inner) => AsFlooErr(inner)
    case _ => None
  }

  /** `AsFlooErr` finds exactly the first structured error of the unwrap
      chain, outermost first, and nothing when the chain holds none. */
  lemma {:induction false} AsFlooErrIsFirstInChain(err: Error)
    ensures var c := CauseChain(err);
      var i := FirstFlooIndex(c);
      AsFlooErr(err) == if i < |c| then Some(c[i].f) else None
  {
    match err
    case Wrapper(t, inner) =>
      var c := CauseChain(err);
      assert c[1..] == CauseChain(inner);
      AsFlooErrIsFirstInChain(inner);
    case _ =>
  }

  /** `GetCode`: the code of the structured error found, else the empty code. */
  function GetCode(err: Error): (c: Code)
    ensures AsFlooErr(err).None? ==> c == Code("")
    ensures AsFlooErr(err).Some? ==> c == AsFlooErr(err).value.code
  {
    match AsFlooErr(err)
    case None => Code("")
    case Some(f) => f.code
  }

  /** `GetCodeString`: the text of `GetCode`, from which the code is
      recovered. */
  function GetCodeString(err: Error): (s: string)
    ensures Code(s) == GetCode(err)
  {
    GetCode(err).String()
  }

  /** `GetMessage`: the raw message of the structured error found, else "". */
  function GetMessage(err: Error): (m: string)
    ensures AsFlooErr(err).None? ==> m == ""
    ensures AsFlooErr(err).Some? ==> m == AsFlooErr(err).value.message
  {
    match AsFlooErr(err)
    case None => ""
    case Some(f) => f.message
  }

  /** `GetContext`: the context bag of the structured error found, else nil. */
  function GetContext(err: Error): (m: Option<map<string, Value>>)
    ensures m.Some? <==> AsFlooErr(err).Some?
    ensures m.Some? ==> m.value == AsFlooErr(err).value.context
  {
    match AsFlooErr(err)
    case None => None
    case Some(f) => Some(f.context)
  }

  /** `GetContextValue`: the value under `key`; nil both for an error that is
      not structured and for a missing key. */
  function GetContextValue(err: Error, key: string): (v: Value)
    ensures !HasContextKey(err, key) ==> v == NilValue
    ensures HasContextKey(err, key) ==> v == GetContext(err).value[key]
  {
    match GetContext(err)
    case None => NilValue
    case Some(context) => if key in context then context[key] else NilValue
  }

  /** `GetSDC`: the SDC bag of the structured error found, else nil. */
  function GetSDC(err: Error): (m: Option<map<string, string>>)
    ensures m.Some? <==> AsFlooErr(err).Some?
    ensures m.Some? ==> m.value == AsFlooErr(err).value.sdc
  {
    match AsFlooErr(err)
    case None => None
    case Some(f) => Some(f.sdc)
  }

  /** `GetSDCValue`: the value under `key`; "" both for an error that is not
      structured and for a missing key. */
  function GetSDCValue(err: Error, key: string): (v: string)
    ensures !HasSDCKey(err, key) ==> v == ""
    ensures HasSDCKey(err, key) ==> v == GetSDC(err).value[key]
  {
    match GetSDC(err)
    case None => ""
    case Some(sdc) => if key in sdc then sdc[key] else ""
  }

  /** `GetStackTrace`: the resolved frames of the structured error found,
      else none. The frames are those every `StackTrace` call returns. */
  function GetStackTrace(err: Error): (t: seq<StackFrame>)
    ensures AsFlooErr(err).None? ==> t == []
    ensures AsFlooErr(err).Some? ==> t == AsFlooErr(err).value.stack.Resolved()
  {
    match AsFlooErr(err)
    case None => []
    case Some(f) => f.stack.Resolved()
  }

  /** `GetCause`: the cause of the structured error found, else nil. */
  function GetCause(err: Error): (c: Error)
    ensures AsFlooErr(err).None? ==> c.Nil?
    ensures AsFlooErr(err).Some? ==> c == AsFlooErr(err).value.cause
  {
    match AsFlooErr(err)
    case None => Nil
    case Some(f) => f.cause
  }

  /** `IsFlooErr`: whether `AsFlooErr` finds a structured error. */
  function IsFlooErr(err: Error): (b: bool)
    ensures b <==> AsFlooErr(err).Some?
    ensures b ==> !err.Nil?
  {
    AsFlooErr(err).Some?
  }

  /** `HasCode`: whether the code's text equals `code`. */
  function HasCode(err: Error, code: string): (b: bool)
    ensures b <==> GetCode(err) == Code(code)
  {
    GetCodeString(err) == code
  }

  /** A non-structured error "has" the empty code, and only a structured
      error can have a non-empty one. */
  lemma HasCodeOfZero(err: Error, code: string)
    ensures !IsFlooErr(err) ==> HasCode(err, "")
    ensures HasCode(err, code) && code != "" ==> IsFlooErr(err)
  {
  }

  /** `HasContextKey`: whether a structured error is found whose context bag
      has `key`. */
  function HasContextKey(err: Error, key: string): (b: bool)
    ensures b <==> AsFlooErr(err).Some? && key in AsFlooErr(err).value.context
  {
    match GetContext(err)
    case None => false
    case Some(context) => key in context
  }

  /** `HasSDCKey`: whether a structured error is found whose SDC bag has `key`. */
  function HasSDCKey(err: Error, key: string): (b: bool)
    ensures b <==> AsFlooErr(err).Some? && key in AsFlooErr(err).value.sdc
  {
    match GetSDC(err)
    case None => false
    case Some(sdc) => key in sdc
  }

  /** `Parse`: all zero for nil; for an error with no structured error in its
      chain, only its text; otherwise a snapshot of the structured error
      found. */
  function Parse(err: Error): (info: ErrorInfo)
    ensures err.Nil? ==> info == ZeroInfo
    ensures !err.Nil? && AsFlooErr(err).None? ==> info == ZeroInfo.(errorMsg := err.Text())
    ensures AsFlooErr(err).Some? ==> info.isFlooErr && info.errorMsg == Floo(AsFlooErr(err).value).Text()
  {
    if err.Nil? then ZeroInfo
    else match AsFlooErr(err)
      case None => ZeroInfo.(errorMsg := err.Text())
      case Some(f) =>
        ErrorInfo(f.code, f.message, Floo(f).Text(), Some(f.context), Some(f.sdc),
                  f.stack.Resolved(), f.cause, true)
  }

  /** The snapshot agrees with every getter. */
  lemma ParseAgreesWithGetters(err: Error)
    ensures Parse(err).isFlooErr == IsFlooErr(err)
    ensures Parse(err).code == GetCode(err) && Parse(err).message == GetMessage(err)
    ensures Parse(err).context == GetContext(err) && Parse(err).sdc == GetSDC(err)
    ensures Parse(err).stackTrace == GetStackTrace(err) && Parse(err).cause == GetCause(err)
  {
  }

  /** Parsing an error the builder made with `newErr` registered gives back
      the builder's code, raw message, bags and cause. */
  lemma ParseBuilt(
    e: Error, symbolize: Symbolizer, p: Builder.Props,
    cause: Error, fallback: string, stack: seq<Pc>)
    requires Builder.IsBuilt(e, Some(Builder.NewErr(symbolize)), p, cause, fallback, stack)
    ensures Parse(e) == ErrorInfo(Code(p.code), p.message, e.Text(), Some(p.context), Some(p.sdc),
                                  e.f.stack.Resolved(), cause, true)
  {
  }

  /** One step of `UnwrapChain`: the cause of the structured error
      `AsFlooErr` finds in the link, else the link's own `Unwrap`. */
  function ChainNext(current: Error): (next: Error)
    requires !current.Nil?
    ensures next.Size() < current.Size()
  {
    match AsFlooErr(current)
    case Some(f) => f.cause
    case None => current.Unwrap()
  }

  /** The sequence `UnwrapChain` returns: empty for nil, otherwise starting
      at `err` and following `ChainNext` until nil. */
  function Chain(err: Error): (c: seq<Error>)
    decreases err.Size()
    ensures |c| == 0 <==> err.Nil?
    ensures |c| > 0 ==> c[0] == err
  {
    if err.Nil? then [] else [err] + Chain(ChainNext(err))
  }

  /** Every link of `Chain` is non-nil and is `ChainNext` of the link before
      it; the walk stops after the last link. */
  lemma {:induction false} ChainLinks(err: Error, i: nat)
    requires i < |Chain(err)|
    ensures !Chain(err)[i].Nil?
    ensures i + 1 < |Chain(err)| ==> Chain(err)[i + 1] == ChainNext(Chain(err)[i])
    ensures i + 1 == |Chain(err)| ==> ChainNext(Chain(err)[i]).Nil?
    decreases err.Size()
  {
    if i > 0 {
      ChainLinks(ChainNext(err), i - 1);
    }
  }

  lemma ChainAppendStep(done: seq<Error>, current: Error, err: Error)
    requires !current.Nil?
    requires done + Chain(current) == Chain(err)
    ensures (done + [current]) + Chain(ChainNext(current)) == Chain(err)
  {
    assert Chain(current) == [current] + Chain(ChainNext(current));
    assert (done + [current]) + Chain(ChainNext(current)) == done + ([current] + Chain(ChainNext(current)));
  }

  /** `UnwrapChain`. */
  method UnwrapChain(err: Error) returns (chain: seq<Error>)
    ensures chain == Chain(err)
  {
    if err.Nil? {
      return [];
    }
    chain := [];
    var current := err;
    while !current.Nil?
      invariant chain + Chain(current) == Chain(err)
      decreases current.Size()
    {
      ChainAppendStep(chain, current, err);
      chain := chain + [current];
      var found := AsFlooErr(current);
      if found.Some? {
        current := found.value.cause;
      } else {
        current := current.Unwrap();
      }
    }
  }

  /** `GetRootCause`: nil exactly for nil; otherwise the last link of
      `UnwrapChain`, one from which `UnwrapChain` goes no further. */
  method GetRootCause(err: Error) returns (root: Error)
    ensures root.Nil? <==> err.Nil?
    ensures !err.Nil? ==> root == Chain(err)[|Chain(err)| - 1]
    ensures !err.Nil? ==> ChainNext(root).Nil?
  {
    var chain := UnwrapChain(err);
    if |chain| == 0 {
      return Nil;
    }
    ChainLinks(err, |chain| - 1);
    return chain[|chain| - 1];
  }

  /** Two structured errors over a plain one give a three-link chain, top
      first and the plain error last. */
  lemma ThreeLinkChain(top: FlooErr, middle: FlooErr, base: string)
    requires top.cause == Floo(middle) && middle.cause == Plain(base)
    ensures Chain(Floo(top)) == [Floo(top), Floo(middle), Plain(base)]
  {
    assert Chain(Plain(base)) == [Plain(base)];
    assert Chain(Floo(middle)) == [Floo(middle), Plain(base)];
  }

  /** As written, a foreign wrapper around a structured error is followed by
      that error's cause: the structured error itself never appears. With no
      cause below it, the wrapper is the last link even though it unwraps
      further, while the last link of the unwrap chain is the structured
      error. */
  lemma {:induction false} WrappedStructuredIsSkipped(t: string, f: FlooErr)
    ensures Chain(Wrapper(t, Floo(f))) == [Wrapper(t, Floo(f))] + Chain(f.cause)
    ensures f.cause.Nil? ==>
      && Chain(Wrapper(t, Floo(f))) == [Wrapper(t, Floo(f))]
      && !Wrapper(t, Floo(f)).Unwrap().Nil?
      && RootCause(Wrapper(t, Floo(f))) == Floo(f)
  {
    assert AsFlooErr(Wrapper(t, Floo(f))) == Some(f);
    if f.cause.Nil? {
      assert RootCause(Floo(f)) == Floo(f);
    }
  }

  /** The deepest link of the unwrap chain: nil exactly for nil, otherwise a
      link of `CauseChain(err)` that does not unwrap any further. */
  function RootCause(err: Error): (r: Error)
    decreases err.Size()
    ensures r.Nil? <==> err.Nil?
    ensures !r.Nil? ==> r.Unwrap().Nil? && r == CauseChain(err)[|CauseChain(err)| - 1]
  {
    if err.Nil? then Nil
    else if err.Unwrap().Nil? then err
    else RootCause(err.Unwrap())
  }

  /** Where no link hides a structured error below a foreign wrapper,
      `UnwrapChain` visits exactly the unwrap chain, so the two root causes
      agree. */
  lemma {:induction false} ChainIsCauseChainWithoutHiddenStructured(err: Error)
    requires forall x :: x in CauseChain(err) && AsFlooErr(x).Some? ==> x.Floo?
    ensures Chain(err) == CauseChain(err)
    decreases err.Size()
  {
    if !err.Nil? {
      assert err == CauseChain(err)[0];
      assert ChainNext(err) == err.Unwrap();
      assert CauseChain(err) == [err] + CauseChain(err.Unwrap());
      ChainIsCauseChainWithoutHiddenStructured(err.Unwrap());
    }
  }
}
