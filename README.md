# flooerr, modelled in Dafny

A model of `flooerr`, a small Go library for structured errors, with proofs
about it. An error built by the library carries:
- a code and a human message;
- a context bag of arbitrary values and an SDC bag of strings;
- an optional wrapped cause;
- an optional captured call stack, resolved lazily.

The model covers the four parts of the library:

- **Builder** (`flooerr/internal/builder.go`, module `Builder`). `ErrProps` is a
  class whose fluent `With*` methods update its fields in place and return the
  receiver. `Build` takes the stack capture, resolves the effective message
  (the explicit message, or else the fallback) and dispatches on the
  package-level factory variable. That variable is modelled by the `Registry`
  class, and its fallback with no factory returns the cause or a
  `simpleError`. Stack capture in `callers` keeps at most 15 − 2 = 13 program
  counters.
- **Error value** (`flooerr/error.go`, modules `Errors` and `Flooerr`).
  - Go's `error` interface is the datatype `Errors.Error`, with these cases:
    - `Nil`;
    - `Plain`, a foreign error without `Unwrap`;
    - `Wrapper`, a foreign error with a single `Unwrap`;
    - `Simple`, the builder's fallback;
    - `Floo`, the library's own `*err`.
  - `*err` is the datatype `FlooErr`, whose field selectors are its accessors
    `Code`, `Message`, `Unwrap`, `Context` and `SDC`.
  - Its one mutable part, the lazily resolved stack, is the class
    `StackCache`. Its `StackTrace` method is the source's loop over the runtime
    frame iterator, and it drops the frame reported with `more == false`.
  - `Error()` renders the message, then `"; caused by: "` and the cause's text.
  - The package entry points (`Message`, `Code`, `StackTrace`, `Context`,
    `SDC`, `Error`, `ErrorF`, `Wrap`, `WrapF`) each start a fresh builder.
  - As in the source, `SDC(key, m)` writes into the context bag.
  - `Init` registers `newErr` as the factory.
- **Introspection** (`flooerr/parse.go`, module `Parse`).
  - `AsFlooErr` follows `errors.As`: it returns the first structured error
    along the unwrap chain.
  - The getters and predicates fall back to zero values.
  - `Parse` takes a snapshot of the structured error it finds.
  - `UnwrapChain` is a loop, proved against the function `Chain`.
  - `GetRootCause` returns the last link of that chain.
- **Stack frames** (`flooerr/stacktrace.go`, module `StackTrace`). A frame is
  rendered as `Function:File:Line`, with `Line` printed as `%d` does. The
  rendering is proved non-empty, and the text after its last colon is canonical and reads back
  as `Line`. `String` is a function on a value, so it cannot change the frame.

Two behaviours are modelled as the code writes them, and one is corrected:
- The raw capture keeps at most 13 program counters, not 15: `callers`
  slices off the last two of the 15 recorded.
- Resolving a stack drops the last frame the runtime reports.
- `Build` captures through the corrected `Callers`, which keeps
  `max(n-2, 0)` counters where the code panics when fewer than two are
  recorded (see "## Findings"; `Builder.CallersAsWritten` is the code as
  written).

The runtime's stack capture is the parameter `stack`: the program counters
above the frames `callers` skips. Symbolisation (`runtime.CallersFrames`) is a
deterministic function value of type `Errors.Symbolizer`. It is carried by the
registered factory.

## Model

| member | source | states |
|---|---|---|
| `Types.Code.String` | flooerr/internal/builder.go:10-12 | the code's text converts back to the same code |
| `StackTrace.StackFrame.String` | flooerr/stacktrace.go:11-13 | the rendering is `Function`, `:`, `File`, `:` and then the text after its last colon, which is canonical and reads back as `Line`, so it is exactly the `%d` text of `Line`; it is never empty and has exactly two colons more than `Function` and `File` together |
| `StackTrace.IntToDecimalIsCanonical` | flooerr/stacktrace.go:12 | the `%d` text of any integer is canonical: digits with no leading zero apart from `0` itself, a `-` only for negative numbers, and never `-0` |
| `StackTrace.CanonicalDecimalIsUnique` | flooerr/stacktrace.go:12 | a canonical decimal text is the `%d` text of the integer it reads back as, so the line's text in a rendering is fixed |
| `StackTrace.DecimalRoundTrip` | flooerr/stacktrace.go:12 | reading back the `%d` rendering of any integer, negative ones included, gives that integer |
| `StackTrace.ZeroFrameString` | flooerr/stacktrace.go:12 | a frame whose fields are all zero renders as `"::0"` |
| `StackTrace.RenderingIsJoin` | flooerr/stacktrace.go:12 | the rendering is exactly the function, the file and the `%d` text of the line, joined by colons |
| `StackTrace.Line42FrameString` | flooerr/stacktrace.go:12 | a frame at line 42 renders as `Function:File:42`, the form of `main.testFunction:/path/to/file.go:42` |
| `Errors.Error.Text` | flooerr/internal/builder.go:136-138 | the `Error()` text of a non-nil error: a foreign error's own text, a `simpleError`'s message, and a structured error's `*err.Error` (flooerr/error.go:77-82) |
| `Errors.Error.Unwrap` | flooerr/parse.go:174-175 | `errors.Unwrap` gives a wrapper's inner error, a structured error's cause, and nil for errors without `Unwrap`; the result is always strictly smaller |
| `Errors.FlooErr.Error` | flooerr/error.go:77-82 | the text starts with the effective message; it is exactly that message when there is no cause, and otherwise continues with `"; caused by: "` and the cause's text |
| `Errors.CausedByRoundTrip` | flooerr/error.go:77-82 | when the message does not contain the delimiter, splitting the text at its first delimiter gives back the message and the cause's text, and finds no delimiter when there is no cause |
| `Errors.StackCache.constructor` | flooerr/error.go:135-136 | a fresh error holds its raw capture and an empty stack cache |
| `Errors.StackCache.StackTrace` | flooerr/error.go:38-63 | every call returns the resolution of the raw capture and leaves it cached; a non-empty cached value is kept as it is, so a second call returns the same frames |
| `Errors.NextFrame` | flooerr/error.go:50 | `runtime.Frames.Next` after `i` calls: the `i`-th frame, with `more` holding exactly when another frame follows it |
| `Errors.ResolvedKeepsAllButLast` | flooerr/error.go:42-60 | no capture resolves to nothing; otherwise the result is every frame the symboliser yields except the last, in order |
| `Errors.NewErr` | flooerr/error.go:121-140 | the new error holds exactly the arguments it was given, and its stack cache is fresh and empty |
| `Builder.CallersAsWritten` | flooerr/internal/builder.go:140-146 | as written, `callers` panics exactly when fewer than two counters are recorded |
| `Builder.Callers` | flooerr/internal/builder.go:140-146 | the kept capture is a prefix of the stack, holds at most 13 counters, and has two fewer than were recorded (none when fewer than two were recorded) |
| `Builder.CallersAgree` | flooerr/internal/builder.go:144 | wherever the source does not panic, the corrected capture equals the source's |
| `Builder.CallersPanicsOnShortStack` | flooerr/internal/builder.go:143-144 | with a single recorded counter, the source panics and the corrected capture is empty |
| `Builder.Registry.constructor` | flooerr/internal/builder.go:124 | the factory variable starts out nil |
| `Builder.Registry.SetBuildErrFunc` | flooerr/internal/builder.go:126-129 | sets the factory variable to the given factory |
| `Builder.EffectiveMessage` | flooerr/internal/builder.go:69-72 | the explicit message when it is set, otherwise the fallback; it is empty only when both are |
| `Builder.RawCapture` | flooerr/internal/builder.go:64-67 | nothing is captured when capture is off; otherwise the `callers` prefix is captured |
| `Builder.BuiltIsNeverNil` | flooerr/internal/builder.go:87-91 | whatever the factory, `Build` never returns nil, and with no cause its text is the effective message |
| `Builder.BuiltText` | flooerr/internal/builder.go:75-91 | with a cause and `newErr` registered, the text is the effective message, the delimiter and the cause's text; with no factory, the cause comes back unchanged |
| `Builder.RawMessageVersusText` | flooerr/error.go:34-36 | `Message()` stays empty when no message was set, while the text is the fallback |
| `Builder.DisabledCaptureHasNoTrace` | flooerr/error.go:42-44 | with capture off, the built error has no raw capture and its stack trace resolves to nothing |
| `Builder.PutSize` | flooerr/internal/builder.go:53-61 | setting a key adds one entry when the key is new and none otherwise |
| `Builder.ErrProps.Create` | flooerr/internal/builder.go:22-35 | the new builder has an empty message and code, capture on, and two empty bags |
| `Builder.ErrProps.WithMessage` | flooerr/internal/builder.go:38-41 | sets only the message and returns the receiver; the last call wins |
| `Builder.ErrProps.WithCode` | flooerr/internal/builder.go:43-46 | sets only the code and returns the receiver; the last call wins |
| `Builder.ErrProps.WithStackTrace` | flooerr/internal/builder.go:48-51 | sets only the capture flag and returns the receiver |
| `Builder.ErrProps.WithContext` | flooerr/internal/builder.go:53-56 | binds the key in the context bag and changes nothing else; the bag grows only when the key is new |
| `Builder.ErrProps.WithSDC` | flooerr/internal/builder.go:58-61 | binds the key in the SDC bag and changes nothing else; the bag grows only when the key is new |
| `Builder.ErrProps.Build` | flooerr/internal/builder.go:63-92 | with `newErr` registered: a fresh structured error over the raw and effective messages, the code, the cause, the capture and the bags. With no factory: the cause, or a `simpleError` of the effective message. The capture goes through the corrected `Callers`, so unlike the code as written `Build` never panics on a stack of fewer than two counters |
| `Builder.ErrProps.Error` | flooerr/internal/builder.go:97-99 | behaves exactly as `Build` with the same arguments |
| `Builder.ErrProps.Errorf` | flooerr/internal/builder.go:101-103 | behaves as `Build` with no cause and the formatted text |
| `Builder.ErrProps.Wrap` | flooerr/internal/builder.go:105-107 | behaves exactly as `Build` with the same arguments |
| `Builder.ErrProps.Wrapf` | flooerr/internal/builder.go:109-111 | behaves as `Build` with the given cause and the formatted text |
| `Flooerr.Init` | flooerr/error.go:142-154 | registers `newErr` as the factory |
| `Flooerr.Message` | flooerr/error.go:84-86 | returns a fresh builder with only the message set |
| `Flooerr.Code` | flooerr/error.go:88-90 | returns a fresh builder with only the code set |
| `Flooerr.StackTrace` | flooerr/error.go:92-94 | returns a fresh builder with capture on, which is the default state |
| `Flooerr.Context` | flooerr/error.go:96-98 | returns a fresh builder whose context bag holds only the given key |
| `Flooerr.SDC` | flooerr/error.go:100-102 | returns a fresh builder with the map stored under the key in the context bag and an empty SDC bag |
| `Flooerr.Error` | flooerr/error.go:104-106 | builds from a fresh builder with no cause |
| `Flooerr.ErrorF` | flooerr/error.go:108-110 | builds from a fresh builder with no cause and the formatted text |
| `Flooerr.Wrap` | flooerr/error.go:112-114 | builds from a fresh builder around the given error |
| `Flooerr.WrapF` | flooerr/error.go:116-118 | builds from a fresh builder around the given error, with the formatted text |
| `Flooerr.FreshBuild` | flooerr/error.go:104-114 | with `newErr` registered, the text is the message, or the message, the delimiter and the cause's text when wrapping; the raw message and code are empty and both bags are present and empty |
| `Parse.CauseChain` | flooerr/parse.go:174-175 | the `errors.Unwrap` chain is empty exactly for nil and otherwise starts at the error |
| `Parse.CauseChainLinks` | flooerr/parse.go:174-175 | every link of the unwrap chain is non-nil and is the previous link's `Unwrap`, and the last link does not unwrap |
| `Parse.AsFlooErr` | flooerr/parse.go:52-63 | nil, plain errors and `simpleError`s give nothing; a structured error gives itself; a found error sits strictly above its cause |
| `Parse.AsFlooErrIsFirstInChain` | flooerr/parse.go:57-60 | `AsFlooErr` gives exactly the first structured error of the unwrap chain, and nothing when the chain holds none |
| `Parse.GetCode` | flooerr/parse.go:67-73 | the found error's code, otherwise the empty code |
| `Parse.GetCodeString` | flooerr/parse.go:77-79 | the text of `GetCode`, from which that code is recovered |
| `Parse.GetMessage` | flooerr/parse.go:83-89 | the found error's raw message, otherwise `""` |
| `Parse.GetContext` | flooerr/parse.go:93-99 | present exactly when a structured error is found, and then equal to its context bag |
| `Parse.GetContextValue` | flooerr/parse.go:103-109 | the value under the key when `HasContextKey` holds, otherwise nil |
| `Parse.GetSDC` | flooerr/parse.go:113-119 | present exactly when a structured error is found, and then equal to its SDC bag |
| `Parse.GetSDCValue` | flooerr/parse.go:123-129 | the value under the key when `HasSDCKey` holds, otherwise `""` |
| `Parse.GetStackTrace` | flooerr/parse.go:133-139 | the found error's resolved frames, otherwise none |
| `Parse.GetCause` | flooerr/parse.go:143-149 | the found error's cause, otherwise nil |
| `Parse.IsFlooErr` | flooerr/parse.go:152-155 | true exactly when `AsFlooErr` finds an error, and never for nil |
| `Parse.HasCode` | flooerr/parse.go:192-194 | true exactly when `GetCode` is the given code |
| `Parse.HasCodeOfZero` | flooerr/parse.go:192-194 | a non-structured error has the empty code, and only a structured error can have a non-empty code |
| `Parse.HasContextKey` | flooerr/parse.go:197-204 | true exactly when a structured error is found and its context bag has the key |
| `Parse.HasSDCKey` | flooerr/parse.go:207-214 | true exactly when a structured error is found and its SDC bag has the key |
| `Parse.Parse` | flooerr/parse.go:23-48 | nil gives the zero snapshot; an error with no structured error gives only its text; otherwise the snapshot is flagged structured and carries the found error's text |
| `Parse.ParseAgreesWithGetters` | flooerr/parse.go:38-47 | every field of the snapshot equals the matching getter |
| `Parse.ParseBuilt` | flooerr/parse.go:38-47 | parsing an error built with `newErr` gives back the builder's code, raw message, bags and cause, and its text and frames |
| `Parse.ChainNext` | flooerr/parse.go:170-176 | one step of the walk; it always goes to a strictly smaller error |
| `Parse.Chain` | flooerr/parse.go:159-180 | empty exactly for nil, otherwise starting at the error |
| `Parse.ChainLinks` | flooerr/parse.go:167-177 | every link is non-nil; each link after the first is the walk's step from the link before, and the walk stops after the last link |
| `Parse.UnwrapChain` | flooerr/parse.go:159-180 | the loop returns exactly `Chain` of its input |
| `Parse.GetRootCause` | flooerr/parse.go:183-189 | nil exactly for nil; otherwise the last link of `UnwrapChain`, where the walk stops |
| `Parse.ThreeLinkChain` | flooerr/parse_test.go:236-254 | two structured errors over a plain error give a chain of three links, top first and the plain error last |
| `Parse.WrappedStructuredIsSkipped` | flooerr/parse.go:170-172 | after a foreign wrapper around a structured error, the walk goes straight to that error's cause. With no cause, the wrapper is the last link even though it still unwraps, while the deepest link is the structured error |
| `Parse.RootCause` | flooerr/parse.go:182-189 | the deepest link of the unwrap chain: nil exactly for nil, otherwise the last link of `CauseChain`, which does not unwrap |
| `Parse.ChainIsCauseChainWithoutHiddenStructured` | flooerr/parse.go:159-180 | when no link hides a structured error under a foreign wrapper, `UnwrapChain` visits exactly the unwrap chain |

## Left out

- `runtime.Callers` and `runtime.CallersFrames`:
  - The program counters above the skipped frames are a parameter.
  - Symbolisation is a deterministic function value.
  - How skip counts and program counters map to source locations is not modelled.
- `fmt.Sprintf` templates in `Errorf`, `Wrapf`, `ErrorF` and `WrapF`: the formatted text is a parameter. The fixed renderings `"%s; caused by: %v"` and `"%s:%s:%d"` are modelled, with `%v` of a cause being its text.
- Aliasing of the two bags: the built error receives the builder's maps by reference. The model copies them as values, so changes made to the builder after `Build` are not reflected in the error.
- Concurrent first calls to `StackTrace`: the cache is modelled as single-threaded state.
- `Parse` and `GetStackTrace` fill the stack cache as a side effect of calling `StackTrace`. They are modelled as functions over the resolved frames. `Errors.StackCache.StackTrace` proves every call returns those same frames.
- User-supplied factories passed to `SetBuildErrFunc`: only `newErr` and "no factory" are modelled.
- `errors.As` on errors with their own `As` method, or with `Unwrap() []error`: neither occurs in this code.
- Cyclic cause chains, on which the source loops forever: an inductive datatype cannot form one.
- Pointer identity of foreign and `simpleError` values: `Plain` and `Simple` errors compare by value, whereas Go compares `errors.New` and `&simpleError{...}` results by pointer. Structured errors keep their identity through their fresh `StackCache`, and no modelled operation relies on identity.
- Go's distinction between a nil and an empty slice of frames: both are the empty sequence.
- Dynamic typing of context values: they are the datatype `Types.Value`, whose cases the source stores, plus an opaque tag.
- `flooerr/examples_test.go`: it only prints.

## Findings

| source | as written | input that shows it | evidently intended | confidence | as-written member | corrected member |
|---|---|---|---|---|---|---|
| flooerr/internal/builder.go:144 | `pcs[0 : n-2]` with no check that the runtime recorded two counters | `Build` called directly from a goroutine's entry function: only `runtime.goexit` is recorded above it, so n = 1, the slice bound is -1 and `Build` panics | keep `max(n-2, 0)` counters, so that `Build` never panics | medium, not executed | `Builder.CallersPanicsOnShortStack` | `Builder.Callers` |
| flooerr/parse.go:170-172 | follows the cause of the first structured error found anywhere below the current link, skipping the links in between | a foreign wrapper (`fmt.Errorf` with `%w`) around a structured error that has no cause: `UnwrapChain` is just the wrapper, and `GetRootCause` returns the wrapper although it still unwraps | the chain of every link, whose last link is the deepest error | medium, not executed | `Parse.WrappedStructuredIsSkipped` | `Parse.RootCause` |
