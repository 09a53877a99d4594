/** The fluent error builder `ErrProps` (flooerr/internal/builder.go): a
    mutable accumulator of message, code, stack-capture flag, context bag and
    SDC bag, consumed by `Build`, which captures the stack, resolves the
    effective message and hands everything to the registered factory. */
module Builder {
  import opened Types
  import Errors

  /** The size of the program-counter buffer `callers` fills. */
  const Depth: nat := 15

  /** `callers` as written: the runtime records at most `Depth` of the
      program counters above the skipped frames, and `pcs[0:n-2]` then
      drops the last two. Fewer than two recorded counters make the slice
      bounds negative, a runtime panic, shown here as None. */
  function CallersAsWritten(stack: seq<Pc>): (r: Option<seq<Pc>>)
    ensures r.Some? <==> |stack| >= 2
  {
    var n := if |stack| < Depth then |stack| else Depth;
    if n < 2 then None else Some(stack[..n - 2])
  }

  /** `callers` with its slice bound kept non-negative: at most `Depth - 2`
      counters, taken from the front of the stack, two fewer than were
      recorded, and none when fewer than two were recorded. */
  function Callers(stack: seq<Pc>): (r: seq<Pc>)
    ensures |r| <= Depth - 2
    ensures r <= stack
    ensures |stack| >= 2 ==> |r| == (if |stack| < Depth then |stack| else Depth) - 2
    ensures |stack| < 2 ==> r == []
  {
    var n := if |stack| < Depth then |stack| else Depth;
    if n < 2 then [] else stack[..n - 2]
  }

  /** Wherever the source does not panic, the corrected capture is the one it
      computes. */
  lemma CallersAgree(stack: seq<Pc>)
    requires CallersAsWritten(stack).Some?
    ensures CallersAsWritten(stack).value == Callers(stack)
  {
  }

  /** The as-written capture panics on a one-counter stack, which is what the
      runtime records when `Build` is called from the entry function of a
      goroutine (only `runtime.goexit` lies above it). */
  lemma CallersPanicsOnShortStack(goexit: Pc)
    ensures CallersAsWritten([goexit]).None?
    ensures Callers([goexit]) == []
  {
  }

  /** The factory `Build` hands the built error to: the package's `newErr`,
      together with the runtime symbolisation its errors resolve stacks with.
      A user-supplied factory is not part of this model. */
  datatype BuildErrFunc = NewErr(symbolize: Errors.Symbolizer)

  /** The package-level variable `buildErrFunc`, nil until set. */
  class Registry {
    var buildErrFunc: Option<BuildErrFunc>

    constructor ()
      ensures buildErrFunc.None?
    {
      buildErrFunc := None;
    }

    /** `SetBuildErrFunc`: replaces the registered factory. */
    method SetBuildErrFunc(fn: Option<BuildErrFunc>)
      modifies this
      ensures buildErrFunc == fn
    {
      buildErrFunc := fn;
    }
  }

  /** The state of an `ErrProps`, as a value. */
  datatype Props = Props(
    message: string,
    code: string,
    withStackTrace: bool,
    context: map<string, Value>,
    sdc: map<string, string>)

  /** The state `Create` produces. */
  const Initial: Props := Props("", "", true, map[], map[])

  /** The message an error built from `explicit` reports: the explicit
      message when one was set, otherwise the fallback. */
  function EffectiveMessage(explicit: string, fallback: string): (r: string)
    ensures explicit != "" ==> r == explicit
    ensures explicit == "" ==> r == fallback
    ensures r == "" <==> explicit == "" && fallback == ""
  {
    if explicit != "" then explicit else fallback
  }

  /** The raw capture `Build` takes: the program counters `callers` keeps
      when capture is enabled, none otherwise. */
  function RawCapture(withStackTrace: bool, stack: seq<Pc>): (r: seq<Pc>)
    ensures !withStackTrace ==> r == []
    ensures withStackTrace ==> r == Callers(stack)
  {
    if withStackTrace then Callers(stack) else []
  }

  /** `e` is what `Build(cause, fallback)` returns on a builder in state `p`
      with factory `fn` registered and `stack` above the skipped frames:
      the factory's error over the raw message, the effective message, the
      code, the cause, the capture and the builder's two bags; without a
      factory, the cause itself, or a `simpleError` of the effective message
      when there is no cause. */
  ghost predicate IsBuilt(
    e: Errors.Error, fn: Option<BuildErrFunc>, p: Props,
    cause: Errors.Error, fallback: string, stack: seq<Pc>)
  {
    match fn
    case None =>
      e == (if cause.Nil? then Errors.Simple(EffectiveMessage(p.message, fallback)) else cause)
    case Some(NewErr(symbolize)) =>
      && e.Floo?
      && e.f.message == p.message
      && e.f.errMessage == EffectiveMessage(p.message, fallback)
      && e.f.code == Code(p.code)
      && e.f.cause == cause
      && e.f.stack.stackTracePTR == RawCapture(p.withStackTrace, stack)
      && e.f.stack.symbolize == symbolize
      && e.f.context == p.context
      && e.f.sdc == p.sdc
  }

  /** Whatever the factory, `Build` never returns nil, and its text is the
      effective message when there is no cause. */
  lemma BuiltIsNeverNil(
    e: Errors.Error, fn: Option<BuildErrFunc>, p: Props,
    cause: Errors.Error, fallback: string, stack: seq<Pc>)
    requires IsBuilt(e, fn, p, cause, fallback, stack)
    ensures !e.Nil?
    ensures cause.Nil? ==> e.Text() == EffectiveMessage(p.message, fallback)
  {
  }

  /** With `newErr` registered, the error's text is the effective message,
      followed by the delimiter and the cause's text when there is a cause;
      with no factory, a non-nil cause comes back unchanged. */
  lemma BuiltText(
    e: Errors.Error, fn: Option<BuildErrFunc>, p: Props,
    cause: Errors.Error, fallback: string, stack: seq<Pc>)
    requires IsBuilt(e, fn, p, cause, fallback, stack)
    requires !cause.Nil?
    ensures fn.Some? ==> e.Text() == EffectiveMessage(p.message, fallback) + Errors.CausedBy + cause.Text()
    ensures fn.None? ==> e == cause
  {
  }

  /** `Message()` reports the raw builder message, which stays empty when the
      builder had none, while `Error()` reports the fallback. */
  lemma RawMessageVersusText(
    e: Errors.Error, fn: Option<BuildErrFunc>, p: Props, fallback: string, stack: seq<Pc>)
    requires IsBuilt(e, fn, p, Errors.Nil, fallback, stack)
    requires fn.Some? && p.message == ""
    ensures e.f.message == "" && e.Text() == fallback
  {
  }

  /** With capture disabled, the built error has no raw capture, so its stack
      trace resolves to nothing. */
  lemma DisabledCaptureHasNoTrace(
    e: Errors.Error, fn: Option<BuildErrFunc>, p: Props,
    cause: Errors.Error, fallback: string, stack: seq<Pc>)
    requires IsBuilt(e, fn, p, cause, fallback, stack)
    requires fn.Some? && !p.withStackTrace
    ensures e.f.stack.stackTracePTR == [] && e.f.stack.Resolved() == []
  {
  }

  /** Setting a key in a bag adds one entry when the key is new and none when
      it was already present. */
  lemma {:induction false} PutSize<V>(m: map<string, V>, key: string, value: V)
    ensures |m[key := value]| == if key in m then |m| else |m| + 1
  {
    if key in m {
      assert m[key := value].Keys == m.Keys;
    } else {
      assert m[key := value].Keys == m.Keys + {key};
    }
  }

  /** `ErrProps`. */
  class ErrProps {
    var message: string
    var code: string
    var withStackTrace: bool
    var context: map<string, Value>
    var sdc: map<string, string>

    function Snapshot(): Props
      reads this
    {
      Props(message, code, withStackTrace, context, sdc)
    }

    /** `Create`: empty message and code, stack capture on, two empty bags. */
    constructor Create()
      ensures Snapshot() == Initial
    {
      message := "";
      code := "";
      withStackTrace := true;
      context := map[];
      sdc := map[];
    }

    /** `WithMessage`: sets the message and nothing else; returns the receiver. */
    method WithMessage(message: string) returns (r: ErrProps)
      modifies this
      ensures r == this
      ensures Snapshot() == old(Snapshot()).(message := message)
    {
      this.message := message;
      r := this;
    }

    /** `WithCode`: sets the code and nothing else; returns the receiver. */
    method WithCode(code: string) returns (r: ErrProps)
      modifies this
      ensures r == this
      ensures Snapshot() == old(Snapshot()).(code := code)
    {
      this.code := code;
      r := this;
    }

    /** `WithStackTrace`: sets the capture flag and nothing else; returns the
        receiver. */
    method WithStackTrace(enableStackTrace: bool) returns (r: ErrProps)
      modifies this
      ensures r == this
      ensures Snapshot() == old(Snapshot()).(withStackTrace := enableStackTrace)
    {
      withStackTrace := enableStackTrace;
      r := this;
    }

    /** `WithContext`: binds `key` to `value` in the context bag, keeping every
        other key and every other field; returns the receiver. */
    method WithContext(key: string, value: Value) returns (r: ErrProps)
      modifies this
      ensures r == this
      ensures Snapshot() == old(Snapshot()).(context := old(context)[key := value])
      ensures |context| == if key in old(context) then |old(context)| else |old(context)| + 1
    {
      PutSize(context, key, value);
      context := context[key := value];
      r := this;
    }

    /** `WithSDC`: binds `key` to `value` in the SDC bag, keeping every other
        key and every other field; returns the receiver. */
    method WithSDC(key: string, value: string) returns (r: ErrProps)
      modifies this
      ensures r == this
      ensures Snapshot() == old(Snapshot()).(sdc := old(sdc)[key := value])
      ensures |sdc| == if key in old(sdc) then |old(sdc)| else |old(sdc)| + 1
    {
      PutSize(sdc, key, value);
      sdc := sdc[key := value];
      r := this;
    }

    /** `Build`: the terminal operation. `reg` is the package's factory
        variable and `stack` the program counters the runtime reports above
        the skipped frames. The builder is left unchanged. The capture goes
        through the corrected `Callers`, so unlike the source, which slices
        `pcs[0:n-2]` unguarded, this never fails when fewer than two program
        counters are recorded. */
    method Build(reg: Registry, cause: Errors.Error, message: string, stack: seq<Pc>)
      returns (e: Errors.Error)
      ensures IsBuilt(e, reg.buildErrFunc, Snapshot(), cause, message, stack)
      ensures reg.buildErrFunc.Some? ==> fresh(e.f.stack) && e.f.stack.stackTrace == [] && e.f.stack.Valid()
    {
      var stackTracePTR: seq<Pc> := [];
      if withStackTrace {
        stackTracePTR := Callers(stack);
      }

      var errMessage := message;
      if this.message != "" {
        errMessage := this.message;
      }

      match reg.buildErrFunc {
        case Some(NewErr(symbolize)) =>
          var f := Errors.NewErr(this.message, errMessage, Code(code), cause, stackTracePTR, context, sdc, symbolize);
          return Errors.Floo(f);
        case None =>
      }

      if !cause.Nil? {
        return cause;
      }
      return Errors.Simple(errMessage);
    }

    /** `Error`: `Build` with the same arguments. */
    method Error(reg: Registry, cause: Errors.Error, message: string, stack: seq<Pc>)
      returns (e: Errors.Error)
      ensures IsBuilt(e, reg.buildErrFunc, Snapshot(), cause, message, stack)
      ensures reg.buildErrFunc.Some? ==> fresh(e.f.stack) && e.f.stack.stackTrace == [] && e.f.stack.Valid()
    {
      e := Build(reg, cause, message, stack);
    }

    /** `Errorf`: `Build` with no cause; `formatted` is the text `fmt.Sprintf`
        makes of the format and its arguments. */
    method Errorf(reg: Registry, formatted: string, stack: seq<Pc>)
      returns (e: Errors.Error)
      ensures IsBuilt(e, reg.buildErrFunc, Snapshot(), Errors.Nil, formatted, stack)
      ensures reg.buildErrFunc.Some? ==> fresh(e.f.stack) && e.f.stack.stackTrace == [] && e.f.stack.Valid()
    {
      e := Build(reg, Errors.Nil, formatted, stack);
    }

    /** `Wrap`: `Build` with the same arguments. */
    method Wrap(reg: Registry, cause: Errors.Error, message: string, stack: seq<Pc>)
      returns (e: Errors.Error)
      ensures IsBuilt(e, reg.buildErrFunc, Snapshot(), cause, message, stack)
      ensures reg.buildErrFunc.Some? ==> fresh(e.f.stack) && e.f.stack.stackTrace == [] && e.f.stack.Valid()
    {
      e := Build(reg, cause, message, stack);
    }

    /** `Wrapf`: `Build` with the given cause and the formatted text. */
    method Wrapf(reg: Registry, cause: Errors.Error, formatted: string, stack: seq<Pc>)
      returns (e: Errors.Error)
      ensures IsBuilt(e, reg.buildErrFunc, Snapshot(), cause, formatted, stack)
      ensures reg.buildErrFunc.Some? ==> fresh(e.f.stack) && e.f.stack.stackTrace == [] && e.f.stack.Valid()
    {
      e := Build(reg, cause, formatted, stack);
    }
  }
}
