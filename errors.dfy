/** The error values this library produces and inspects (flooerr/error.go and
    the fallback `simpleError` of flooerr/internal/builder.go).

    Go's `error` interface is modelled as the datatype `Error`: nil, the
    library's own structured error `*err` (`Floo`), its fallback
    `simpleError` (`Simple`), and the two shapes a foreign error can have for
    this code: one without an `Unwrap` method (`Plain`, as `errors.New` makes)
    and one whose `Unwrap() error` gives a single inner error (`Wrapper`).
    Everything in `*err` is fixed when it is built except the resolved stack,
    a cache the source fills in place; that pair of fields lives in a
    `StackCache` object. */
module Errors {
  import opened Types
  import opened StackTrace

  /** The runtime's symbolisation of captured program counters
      (`runtime.CallersFrames`), in yield order. */
  type Symbolizer = seq<Pc> -> seq<StackFrame>

  /** What `*err.Error` puts between its message and its cause's text. */
  const CausedBy: string := "; caused by: "

  datatype Error =
    | Nil
    | Plain(text: string)
    | Wrapper(text: string, inner: Error)
    | Simple(message: string)
    | Floo(f: FlooErr)
  {
    /** The `Error()` text of a non-nil error: a foreign error's own text,
        the fallback message of a `simpleError`, and `*err.Error` of a
        structured error. */
    function Text(): (s: string)
      requires !Nil?
      decreases this, 1
      ensures Plain? || Wrapper? ==> s == text
      ensures Simple? ==> s == message
      ensures Floo? ==> s == f.Error()
    {
      match this
      case Plain(t) => t
      case Wrapper(t, _) => t
      case Simple(m) => m
      case Floo(f) => f.Error()
    }

    /** `errors.Unwrap`: the inner error of a wrapper and the cause of a
        structured error; nil for errors without an `Unwrap` method. The
        result is always a strictly smaller error. */
    function Unwrap(): (r: Error)
      ensures !Nil? ==> r.Size() < Size()
      ensures Wrapper? ==> r == inner
      ensures Floo? ==> r == f.cause
      ensures Plain? || Simple? || Nil? ==> r == Nil
    {
      match this
      case Wrapper(_, inner) => inner
      case Floo(f) => f.cause
      case _ => Nil
    }

    /** The number of links below and including this error. */
    function Size(): nat
    {
      match this
      case Nil => 0
      case Wrapper(_, inner) => 1 + inner.Size()
      case Floo(f) => 1 + f.cause.Size()
      case _ => 1
    }
  }

  /** `*err`: every field the factory bound at construction. `message` is the
      raw builder message, `errMessage` the effective one; `stack` holds the
      raw capture and the lazily resolved frames. */
  datatype FlooErr = FlooErr(
    message: string,
    errMessage: string,
    code: Code,
    cause: Error,
    stack: StackCache,
    context: map<string, Value>,
    sdc: map<string, string>)
  {
    /** `*err.Error`: the effective message, followed by the delimiter and
        the cause's text when there is a cause. */
    function Error(): (s: string)
      decreases this, 0
      ensures errMessage <= s
      ensures cause.Nil? <==> |s| == |errMessage|
      ensures !cause.Nil? ==> s[|errMessage|..] == CausedBy + cause.Text()
    {
      if cause.Nil? then errMessage else errMessage + CausedBy + cause.Text()
    }
  }

  /** The stack fields of `*err`: the raw capture `stackTracePTR`, fixed at
      construction, and the cache `stackTrace`, empty until first resolved. */
  class StackCache {
    const stackTracePTR: seq<Pc>
    const symbolize: Symbolizer
    var stackTrace: seq<StackFrame>

    /** The cache is empty or holds exactly the resolution of the capture. */
    ghost predicate Valid()
      reads this
    {
      stackTrace == [] || stackTrace == Resolved()
    }

    /** The frames a resolution yields: none without a capture, otherwise
        every frame the symboliser yields except the last one. */
    function Resolved(): seq<StackFrame>
    {
      if stackTracePTR == [] then [] else AllButLast(symbolize(stackTracePTR))
    }

    constructor (stackTracePTR: seq<Pc>, symbolize: Symbolizer)
      ensures this.stackTracePTR == stackTracePTR && this.symbolize == symbolize
      ensures stackTrace == [] && Valid()
    {
      this.stackTracePTR := stackTracePTR;
      this.symbolize := symbolize;
      stackTrace := [];
    }

    /** `*err.StackTrace`: a cached non-empty resolution is returned as is;
        otherwise the capture is symbolised, every frame reported with more
        frames after it is kept, and the result is cached. Every call
        returns the same frames. */
    method StackTrace() returns (traces: seq<StackFrame>)
      requires Valid()
      modifies this`stackTrace
      ensures Valid()
      ensures traces == Resolved()
      ensures stackTrace == traces
      ensures old(stackTrace) != [] ==> stackTrace == old(stackTrace)
    {
      if |stackTrace| > 0 {
        return stackTrace;
      }
      if |stackTracePTR| == 0 {
        return [];
      }
      var frames := symbolize(stackTracePTR);
      var i := 0;
      traces := [];
      while true
        invariant i <= |frames| && (|frames| > 0 ==> i < |frames|)
        invariant traces == frames[..i]
        decreases |frames| - i
      {
        var (frame, more) := NextFrame(frames, i);
        if !more {
          break;
        }
        traces := traces + [StackFrame(frame.Function, frame.File, frame.Line)];
        i := i + 1;
      }
      stackTrace := traces;
    }
  }

  /** Resolution yields nothing without a capture; otherwise the frames the
      symboliser yields, in order, all but the last one. */
  lemma ResolvedKeepsAllButLast(c: StackCache)
    ensures c.stackTracePTR == [] ==> c.Resolved() == []
    ensures var frames := c.symbolize(c.stackTracePTR);
      c.stackTracePTR != [] ==>
        && |c.Resolved()| == (if frames == [] then 0 else |frames| - 1)
        && forall i :: 0 <= i < |c.Resolved()| ==> c.Resolved()[i] == frames[i]
  {
  }

  /** `runtime.Frames.Next` after `i` calls: the next frame and whether more
      frames follow it; past the end, a zero frame and false. */
  function NextFrame(frames: seq<StackFrame>, i: nat): (r: (StackFrame, bool))
    ensures r.1 <==> i + 1 < |frames|
    ensures i < |frames| ==> r.0 == frames[i]
  {
    if i < |frames| then (frames[i], i + 1 < |frames|) else (StackFrame("", "", 0), false)
  }

  function AllButLast<T>(s: seq<T>): seq<T>
  {
    if s == [] then [] else s[..|s| - 1]
  }

  /** `newErr`, the factory the package registers: binds every argument into
      a fresh error whose stack cache is still empty. */
  method NewErr(
    message: string,
    errMessage: string,
    code: Code,
    cause: Error,
    stackTracePTR: seq<Pc>,
    context: map<string, Value>,
    sdc: map<string, string>,
    symbolize: Symbolizer)
    returns (f: FlooErr)
    ensures f.message == message && f.errMessage == errMessage && f.code == code
    ensures f.cause == cause && f.context == context && f.sdc == sdc
    ensures fresh(f.stack) && f.stack.stackTracePTR == stackTracePTR && f.stack.symbolize == symbolize
    ensures f.stack.stackTrace == [] && f.stack.Valid()
  {
    var stack := new StackCache(stackTracePTR, symbolize);
    f := FlooErr(message, errMessage, code, cause, stack, context, sdc);
  }

  /** Splits a rendered error text at the first occurrence of the delimiter,
      as a reader of logged error text would. */
  function SplitAtCausedBy(s: string): Option<(string, string)>
  {
    if |s| < |CausedBy| then None
    else if s[..|CausedBy|] == CausedBy then Some(([], s[|CausedBy|..]))
    else match SplitAtCausedBy(s[1..])
      case None => None
      case Some((m, rest)) => Some(([s[0]] + m, rest))
  }

  lemma {:induction false} SplitAfterMessage(m: string, t: string)
    requires SplitAtCausedBy(m).None?
    ensures SplitAtCausedBy(m + CausedBy + t) == Some((m, t))
  {
    var s := m + CausedBy + t;
    if m == [] {
      assert s[..|CausedBy|] == CausedBy;
      assert s[|CausedBy|..] == t;
    } else {
      if |m| >= |CausedBy| {
        assert s[..|CausedBy|] == m[..|CausedBy|];
      } else {
        assert s[|m|] == ';';
        assert forall k :: 1 <= k < |CausedBy| ==> CausedBy[k] != ';';
        assert s[..|CausedBy|][|m|] == s[|m|];
      }
      assert s[1..] == m[1..] + CausedBy + t;
      SplitAfterMessage(m[1..], t);
      assert [m[0]] + m[1..] == m;
    }
  }

  /** The delimiter makes `Error()` text readable back: when the effective
      message does not itself contain the delimiter, splitting the text at its
      first delimiter gives back the message and the cause's own text, and
      finds no delimiter at all when there is no cause. */
  lemma CausedByRoundTrip(f: FlooErr)
    requires SplitAtCausedBy(f.errMessage).None?
    ensures SplitAtCausedBy(f.Error()) ==
      if f.cause.Nil? then None else Some((f.errMessage, f.cause.Text()))
  {
    if !f.cause.Nil? {
      SplitAfterMessage(f.errMessage, f.cause.Text());
    }
  }
}
