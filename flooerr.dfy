/** The package-level entry points of flooerr/error.go: single-field builder
    starts, direct `Error`/`Wrap` constructors, and the package initialiser
    that registers `newErr` as the builder's factory. */
module Flooerr {
  import Types
  import Errors
  import opened Builder

  /** The package's `init`: registers `newErr` (over the runtime's
      symbolisation) as the factory `Build` uses. */
  method Init(reg: Registry, symbolize: Errors.Symbolizer)
    modifies reg
    ensures reg.buildErrFunc == Types.Some(NewErr(symbolize))
  {
    reg.SetBuildErrFunc(Types.Some(NewErr(symbolize)));
  }

  /** `Message`: a fresh builder with only the message set. */
  method Message(msg: string) returns (p: ErrProps)
    ensures fresh(p)
    ensures p.Snapshot() == Initial.(message := msg)
  {
    p := new ErrProps.Create();
    p := p.WithMessage(msg);
  }

  /** `Code`: a fresh builder with only the code set. */
  method Code(code: Types.Code) returns (p: ErrProps)
    ensures fresh(p)
    ensures p.Snapshot() == Initial.(code := code.text)
  {
    p := new ErrProps.Create();
    p := p.WithCode(code.String());
  }

  /** `StackTrace`: a fresh builder with capture switched on, which is how
      every fresh builder starts. */
  method StackTrace() returns (p: ErrProps)
    ensures fresh(p)
    ensures p.Snapshot() == Initial
  {
    p := new ErrProps.Create();
    p := p.WithStackTrace(true);
  }

  /** `Context`: a fresh builder whose context bag holds only `key`. */
  method Context(key: string, value: Types.Value) returns (p: ErrProps)
    ensures fresh(p)
    ensures p.Snapshot() == Initial.(context := map[key := value])
  {
    p := new ErrProps.Create();
    p := p.WithContext(key, value);
  }

  /** `SDC`: as written, stores the map under `key` in the CONTEXT bag and
      leaves the SDC bag empty. */
  method SDC(key: string, value: map<string, string>) returns (p: ErrProps)
    ensures fresh(p)
    ensures p.Snapshot() == Initial.(context := map[key := Types.StringMap(value)])
    ensures p.sdc == map[]
  {
    p := new ErrProps.Create();
    p := p.WithContext(key, Types.StringMap(value));
  }

  /** `Error`: builds from a fresh builder with no cause. */
  method Error(reg: Registry, message: string, stack: seq<Types.Pc>) returns (e: Errors.Error)
    ensures IsBuilt(e, reg.buildErrFunc, Initial, Errors.Nil, message, stack)
    ensures reg.buildErrFunc.Some? ==> fresh(e.f.stack) && e.f.stack.stackTrace == [] && e.f.stack.Valid()
  {
    var p := new ErrProps.Create();
    e := p.Build(reg, Errors.Nil, message, stack);
  }

  /** `ErrorF`: as `Error`, over the text `fmt.Sprintf` makes. */
  method ErrorF(reg: Registry, formatted: string, stack: seq<Types.Pc>) returns (e: Errors.Error)
    ensures IsBuilt(e, reg.buildErrFunc, Initial, Errors.Nil, formatted, stack)
    ensures reg.buildErrFunc.Some? ==> fresh(e.f.stack) && e.f.stack.stackTrace == [] && e.f.stack.Valid()
  {
    var p := new ErrProps.Create();
    e := p.Build(reg, Errors.Nil, formatted, stack);
  }

  /** `Wrap`: builds from a fresh builder around `err`. */
  method Wrap(reg: Registry, err: Errors.Error, message: string, stack: seq<Types.Pc>) returns (e: Errors.Error)
    ensures IsBuilt(e, reg.buildErrFunc, Initial, err, message, stack)
    ensures reg.buildErrFunc.Some? ==> fresh(e.f.stack) && e.f.stack.stackTrace == [] && e.f.stack.Valid()
  {
    var p := new ErrProps.Create();
    e := p.Build(reg, err, message, stack);
  }

  /** `WrapF`: as `Wrap`, over the text `fmt.Sprintf` makes. */
  method WrapF(reg: Registry, err: Errors.Error, formatted: string, stack: seq<Types.Pc>) returns (e: Errors.Error)
    ensures IsBuilt(e, reg.buildErrFunc, Initial, err, formatted, stack)
    ensures reg.buildErrFunc.Some? ==> fresh(e.f.stack) && e.f.stack.stackTrace == [] && e.f.stack.Valid()
  {
    var p := new ErrProps.Create();
    e := p.Build(reg, err, formatted, stack);
  }

  /** What `Error(message)` and `Wrap(err, message)` give once `newErr` is
      registered: the text is `message`, followed by the delimiter and the
      cause's text when wrapping; the raw message and code are empty, and
      both bags are present and empty. */
  lemma FreshBuild(
    e: Errors.Error, symbolize: Errors.Symbolizer,
    cause: Errors.Error, message: string, stack: seq<Types.Pc>)
    requires IsBuilt(e, Types.Some(NewErr(symbolize)), Initial, cause, message, stack)
    ensures e.Text() == if cause.Nil? then message else message + Errors.CausedBy + cause.Text()
    ensures e.f.message == "" && e.f.code == Types.Code("")
    ensures e.f.context == map[] && e.f.sdc == map[]
  {
  }
}
