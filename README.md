# trans — controller adaptation layer, modelled in Dafny

This project models the core of `trans`, a small Go library that turns a
domain controller (parameters in, result and error out) into an HTTP
handler. The model covers three parts:

- **The parameter accumulator** (`Params`, module `Param`). This is a
  per-request map from a key to its list of values. It also holds a
  deferred validation state. The required scans merge a "required" or
  "should be an integer" message into that state. The optional scans never
  touch it. `FinalErrState` returns the state and clears it. The module
  also covers the construction options (`With`, `NewParams`) and the
  overlay of request sources in `httpParamsExec`.
- **The base-10, 64-bit integer parsers** that the integer scans rely on
  (`strconv.ParseInt` and `strconv.ParseUint`, module `Decimal`). They are
  proved against a reference reading of a digit string and against the
  formatter they invert.
- **The HTTP adapter** (module `Http`). It covers the four configuration
  options, the `valid` check, the error classifier `httpCode`, the
  validating decorator, the `{Data, Meta, Error}` envelope with its
  fallback body, and `handler`. `handler` puts the validating decorator
  first and folds the decorator list around the terminal request handler.
- **Decorator composition** (`ControllerDecorate`, module `Controller`).
  The loop builds `D0(D1(... Dn-1(h)))`. It is proved equal to a fold from
  the right. Under a trace reading of decorators, the composition is proved
  to give onion ordering.

How the Go program's entities appear in the model:

- A validation error is the sequence of its messages, in scan order. The
  empty sequence stands for nil.
- A scan method takes the current value of the Go out-pointer and returns
  the value written through it.
- A domain error is `Err(kind, msg)`. `msg` is the message once the
  classification code is cut off.
- Handlers are function values from a request to the list of operations
  they perform on the response writer.
- Calling a nil function value is the operation `Panic`.
- The validating decorator reads the configuration it was installed in.
  That configuration is not changed after `handler` returns. The model
  therefore realises the decorator with the validity of the final
  configuration.

## Model

| member | source | states |
|---|---|---|
| `Decimal.ScanDigits` | param.go:101 | the strconv digit loop only succeeds with a value between the start value and the bound |
| `Decimal.ParseUint` | param.go:131 | a successful unsigned parse is within 0 .. 2^64-1 |
| `Decimal.ParseInt` | param.go:101 | a successful signed parse is within -2^63 .. 2^63-1 |
| `Decimal.ScanDigitsCorrect` | param.go:101 | the left-to-right loop succeeds iff the rest is all digits and the whole value fits, and then yields the positional value |
| `Decimal.ParseUintCorrect` | param.go:131 | ParseUint accepts exactly the non-empty digit strings whose value fits in 64 bits (so a sign is refused), and returns their value |
| `Decimal.ParseIntCorrect` | param.go:101 | ParseInt accepts exactly an optional sign followed by a non-empty digit string whose signed value fits in 64 bits, and returns that value |
| `Decimal.ParseUintFormat` | param.go:131 | parsing inverts decimal formatting on the whole unsigned 64-bit range |
| `Decimal.ParseIntFormat` | param.go:116 | parsing inverts decimal formatting on the whole signed 64-bit range |
| `Decimal.SamplesAccepted` | param.go:95-108 | "42" and "+42" read as 42 and "-7" reads as -7 |
| `Decimal.SamplesRefused` | param.go:101-131 | "", "-" and "abc" are syntax errors, and the unsigned parser refuses "+7" |
| `Param.WithNilKeeps` | param.go:28-35 | `With(key, nil)` leaves any map unchanged |
| `Param.ApplyOptsAppend` | param.go:37-43 | options apply in order: running `a + b` is running `a`, then `b` |
| `Param.LastWithWins` | param.go:28-43 | a final non-nil `With` sets its key to the value's text and changes no other key, so the later of two `With`s wins |
| `Param.Params.constructor` | param.go:37-43 | `NewParams` folds the options over an empty map, left to right, with an empty validation state |
| `Param.Params.FromValues` | param.go:166-169 | the Params built around a finished map has no error and no body |
| `Param.Params.Enrich` | param.go:45-51 | an existing key gives the "already exist" error and the map is unchanged; otherwise exactly that key is added |
| `Param.Params.SetDto` | param.go:52-55 | stores the opaque body |
| `Param.Params.ScanDto` | param.go:56-58 | the consumer gets the stored body and its error is passed through, not merged |
| `Param.Params.ScanStrReq` | param.go:59-67 | a missing key (absent or empty list) appends exactly one "required" message naming it and leaves the output alone; otherwise the output is the first value and the state is unchanged |
| `Param.Params.ScanStr` | param.go:68-76 | yields the first value, or "" when missing; the state is never touched |
| `Param.Params.ScanStrsReq` | param.go:77-85 | like ScanStrReq, with the whole list as output |
| `Param.Params.ScanStrs` | param.go:86-94 | yields the whole list, or the empty list when the key is absent; the state is never touched |
| `Param.Params.ScanIntReq` | param.go:95-108 | a missing key adds only the "required" message; an empty first value adds nothing; a value that fails ParseInt adds one "should be an integer" message carrying the parse error; in these cases the output is untouched; otherwise the output is the parsed value |
| `Param.Params.ScanInt` | param.go:109-123 | yields the ParseInt value of the first value, and 0 when the key is missing, the value is empty or the parse fails; never touches the state |
| `Param.Params.ScanUint` | param.go:124-138 | the same with ParseUint, so a signed value yields 0 |
| `Param.Params.FinalErrState` | param.go:139-143 | returns the messages merged so far, in scan order, and clears them |
| `Param.Params.ResetState` | param.go:144-147 | the validation state becomes empty |
| `Param.FinalizeTwice` | param.go:139-147 | a second FinalErrState right after the first returns no error |
| `Param.Overlay` | param.go:151-155 | a range-and-assign loop overlays every key of the source on the map, the source winning |
| `Param.HttpParamsExec` | param.go:149-170 | the new Params holds the request's sources overlaid in precedence order, with no error and no body |
| `Param.Precedence` | param.go:149-165 | path variables beat body fields, which beat posted form, then form, then query; a key is present iff some source has it |
| `Param.BadBodyIgnored` | param.go:156-162 | a body that cannot be read or decoded contributes no key |
| `Controller.ControllerDecorate` | controller.go:15-21 | the reverse-index loop yields the fold from the right, `D0(D1(... Dn-1(endpoint)))` |
| `Controller.ComposeEmpty` | controller.go:15-21 | an empty decorator list returns the endpoint unchanged |
| `Controller.ComposeAppend` | controller.go:16-19 | composing over `A + B` is composing over `B`, then over `A` |
| `Controller.ComposeTrace` | controller.go:16-19 | with tracing decorators, the trace is the entries in list order, then the terminal trace, then the exits in reverse order: each decorator runs once, nothing is reordered or merged |
| `Controller.ComposeTraceNesting` | controller.go:16-19 | decorator i is entered at position i and left at the mirror position, so decorator 0 is entered first and left last |
| `Http.DecoratorsAppended` | http.go:27-31 | decorator options append in argument order across repeated uses, and a present list stays present |
| `Http.UntouchedKept` | http.go:32-46 | a field that no option sets keeps its value |
| `Http.ApplyOptionsAppend` | http.go:54-56 | options apply left to right |
| `Http.LastOptionWins` | http.go:32-46 | among the options that overwrite the builder, the executor or the controller, the last one wins |
| `Http.HttpOpt.Default` | http.go:49-53 | HTTP starts from an empty decorator list, the default executor and serializer, and no controller |
| `Http.HttpOpt.Copy` | http.go:60 | the copy has the same configuration |
| `Http.HttpOpt.Apply` | http.go:27-46 | one option changes the configuration as that option prescribes |
| `Http.HTTP` | http.go:48-58 | the options are applied in order to the default configuration |
| `Http.HttpCode` | http.go:86-104 | nil maps to 200 and nil; a non-nil error maps to a non-200 error status and comes back as its message alone |
| `Http.StatusTable` | http.go:89-100 | AccessDeny 401, Internal 500, NotFound 404, Timeout 408, any other kind 400 |
| `Http.StatusIdentifiesKind` | http.go:86-104 | the status read backwards gives the error's kind, and no kind for nil, so distinct kinds get distinct statuses |
| `Http.MakeEnvelope` | http.go:122-145 | Error is the message or ""; Data and Meta are absent for a nil result; Meta is set iff the result provides `Meta()` (and to its value) |
| `Http.FallbackCarriesError` | http.go:148 | the fallback body is `{"Data":"","Error":"` followed by the error text and then `"}` |
| `Http.DefaultBody` | http.go:121-151 | the body is the marshalled envelope, or the fallback carrying the error text when marshalling fails |
| `Http.HandlerDecorators` | http.go:59-64 | the handler's decorators are the validating one, then the configured ones, then the route's, each in its original order |
| `Http.InvalidShortCircuits` | http.go:106-117 | an invalid configuration answers every request with the fixed body and status 500, and never runs the rest of the chain |
| `Http.ValidPassesThrough` | http.go:106-117 | for a valid configuration, the validating decorator hands the request to the rest of the chain once, unchanged |
| `Http.ValidServes` | http.go:68-75 | with no other decorator, a valid configuration writes the classifier's status, then the serializer's body for the controller's result and stripped error |
| `Http.ValidIffNoPanic` | http.go:82-84 | with a decorator list present, `valid()` holds iff the terminal handler never calls a nil function |
| `Http.HttpOpt.Handler` | http.go:59-81 | the handler is the fold of the prepared configuration's decorators around the terminal handler, with index 0 outermost; invalid configurations answer every request with the fixed diagnostic; the receiver is not changed |

The fold loop in `handler` (http.go:76-79) is the same loop as
`ControllerDecorate`. The model uses `Controller.ControllerDecorate` for
both.

## Left out

- http_route.go is not part of this model. It only wires handlers onto
  the gorilla/mux router and `http.ServeMux`, and maps a base path of "/"
  to "".
- Transport I/O is not modelled: the `http.ResponseWriter`, the body read
  with `ioutil.ReadAll`, the multipart file accessor (`file`,
  `r.FormFile`) and the request context. The request is a value that holds
  its sources. The response is the list of writer operations.
- Go sends status 200 implicitly on the first `Write`. The validating
  decorator writes its body before calling `WriteHeader(500)`, so this rule
  matters there. The model records the two operations in source order and
  does not apply the rule.
- JSON is not modelled. The decoded body arrives as a map from key to the
  text `fmt.Sprint` gives for each value, and `None` stands for a body that
  could not be read or decoded. Envelope marshalling is a parameter
  (`Marshal`) that may fail, so the envelope round trip through a JSON
  parser is not modelled. The textual rendering of arbitrary Go values is
  abstracted as `Dynamic`.
- The text of a merged error is not modelled: `errs.Merge` keeps the
  messages as a list, and the separator it joins them with is not modelled.
  `errs.ExecCode` and `errs.CutCode` are abstracted by `Err(kind, msg)`.
- `Decimal.ErrorText`: the quoting of the offending string in a
  `strconv.NumError` message does not escape special characters.
- Log output is not modelled. This covers the warning for an invalid
  handler (http.go:65-67) and the log of a failed body write
  (http.go:72-74).
- Concurrency is not modelled. Each request's `Params` is private to it,
  and nothing in the core synchronises.
- The scan methods return their `Params` for chaining. The model instead
  returns the value written through the out-pointer, and chaining is a
  sequence of calls.
- In the handler model, a controller receives the parameter map of the
  fresh `Params` that the executor builds. That `Params` has an empty
  validation state and no body. Controller-level decorators are covered by
  the generic `ControllerDecorate`.
- A decorator or controller that panics, and nil entries in a decorator
  list, are not modelled.
- `int(i)` and `uint(i)` after parsing are assumed to be 64 bits wide, as
  on 64-bit platforms.

`validateDecorator` writes its body before `WriteHeader(500)`
(http.go:110-111); the model keeps that order.
