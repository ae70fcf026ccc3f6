/** The HTTP adapter: the handler configuration and its options, the
    validity check, the error classifier, the validating decorator, the
    response envelope, and the handler that folds the decorators around the
    terminal request handler. */
module Http {
  import opened Base
  import opened Errs
  import Param
  import Controller

  /** A controller result: its public projection (`Dto()`) and, when the
      result also provides `Meta()`, what that returns. */
  datatype Result = Result(dto: Dynamic, meta: Option<Dynamic>)

  /** What a handler does to the response writer. `Panic` is a call of a nil
      function value, which ends the request without a response. */
  datatype WriteOp = WriteHeader(code: int) | Write(body: string) | Panic

  type Request = Param.Request
  type Handler = Request -> seq<WriteOp>
  type HttpMdl = Handler -> Handler
  /** A parameter executor yields the map of the fresh `Params` it builds. */
  type ParamsExecutor = Request -> Values
  /** A controller endpoint, given the extracted parameters. */
  type ControllerEndpoint = Values -> (Option<Result>, Option<Err>)
  type BodySerializer = (Option<Result>, Option<string>) -> string
  type SerializerBuilder = Request -> BodySerializer

  /** The `{Data, Meta, Error}` response envelope. */
  datatype Envelope = Envelope(data: Dynamic, meta: Dynamic, error: string)

  /** JSON marshalling of an envelope; `None` when it fails. */
  type Marshal = Envelope -> Option<string>

  /** An entry of the decorator list: the validating decorator, which reads
      the configuration it is installed in, or a caller's decorator. */
  datatype Decorator = Validate | Custom(f: HttpMdl)

  /** The four options; the configuration's fields are private to the
      package, so nothing else can change them. */
  datatype HttpOption =
    | WithHTTPDecorators(ds: seq<HttpMdl>)
    | WithHTTPBodySrlzBuilder(builder: Option<SerializerBuilder>)
    | WithParamsExec(exec: Option<ParamsExecutor>)
    | WithControllerEndpoint(ctrl: Option<ControllerEndpoint>)

  /** The value of an `httpOpt`; `None` is a nil field. */
  datatype Config = Config(
    decorators: Option<seq<Decorator>>,
    paramsExec: Option<ParamsExecutor>,
    builder: Option<SerializerBuilder>,
    ctrl: Option<ControllerEndpoint>)

  // ---------------------------------------------------------------- options

  function Customs(ds: seq<HttpMdl>): (r: seq<Decorator>)
    ensures |r| == |ds|
  {
    if ds == [] then [] else [Custom(ds[0])] + Customs(ds[1..])
  }

  /** Go's `append(cur, ds...)`: appending nothing leaves even a nil list
      as it is. */
  function AppendDecorators(cur: Option<seq<Decorator>>, ds: seq<HttpMdl>): Option<seq<Decorator>>
  {
    if ds == [] then cur else Some(cur.GetOr([]) + Customs(ds))
  }

  function ApplyOption(c: Config, o: HttpOption): Config
  {
    match o
    case WithHTTPDecorators(ds) => c.(decorators := AppendDecorators(c.decorators, ds))
    case WithHTTPBodySrlzBuilder(b) => c.(builder := b)
    case WithParamsExec(f) => c.(paramsExec := f)
    case WithControllerEndpoint(f) => c.(ctrl := f)
  }

  /** The options applied left to right. */
  function ApplyOptions(c: Config, opts: seq<HttpOption>): Config
    decreases opts
  {
    if opts == [] then c else ApplyOptions(ApplyOption(c, opts[0]), opts[1..])
  }

  /** All decorators the options add, in argument order across options. */
  function AddedDecorators(opts: seq<HttpOption>): seq<HttpMdl>
  {
    if opts == [] then []
    else (if opts[0].WithHTTPDecorators? then opts[0].ds else []) + AddedDecorators(opts[1..])
  }

  lemma CustomsAppend(a: seq<HttpMdl>, b: seq<HttpMdl>)
    ensures Customs(a + b) == Customs(a) + Customs(b)
  {
    if a != [] {
      assert (a + b)[1..] == a[1..] + b;
      CustomsAppend(a[1..], b);
    } else {
      assert a + b == b;
    }
  }

  /** Decorator options append in argument order across repeated uses; a
      list that was present stays present. */
  lemma {:induction false} DecoratorsAppended(c: Config, opts: seq<HttpOption>)
    ensures ApplyOptions(c, opts).decorators.GetOr([]) == c.decorators.GetOr([]) + Customs(AddedDecorators(opts))
    ensures c.decorators.Some? ==> ApplyOptions(c, opts).decorators.Some?
    decreases opts
  {
    if opts != [] {
      var c' := ApplyOption(c, opts[0]);
      DecoratorsAppended(c', opts[1..]);
      var first := if opts[0].WithHTTPDecorators? then opts[0].ds else [];
      CustomsAppend(first, AddedDecorators(opts[1..]));
      assert c'.decorators.GetOr([]) == c.decorators.GetOr([]) + Customs(first);
    }
  }

  /** Whether two options set the same field. */
  predicate SameField(o: HttpOption, p: HttpOption)
  {
    (o.WithHTTPDecorators? && p.WithHTTPDecorators?) ||
    (o.WithHTTPBodySrlzBuilder? && p.WithHTTPBodySrlzBuilder?) ||
    (o.WithParamsExec? && p.WithParamsExec?) ||
    (o.WithControllerEndpoint? && p.WithControllerEndpoint?)
  }

  /** A field no option sets keeps its value. */
  lemma {:induction false} UntouchedKept(c: Config, opts: seq<HttpOption>)
    ensures (forall i :: 0 <= i < |opts| ==> !opts[i].WithHTTPBodySrlzBuilder?) ==>
      ApplyOptions(c, opts).builder == c.builder
    ensures (forall i :: 0 <= i < |opts| ==> !opts[i].WithParamsExec?) ==>
      ApplyOptions(c, opts).paramsExec == c.paramsExec
    ensures (forall i :: 0 <= i < |opts| ==> !opts[i].WithControllerEndpoint?) ==>
      ApplyOptions(c, opts).ctrl == c.ctrl
    decreases opts
  {
    if opts != [] {
      UntouchedKept(ApplyOption(c, opts[0]), opts[1..]);
    }
  }

  lemma {:induction false} ApplyOptionsAppend(c: Config, a: seq<HttpOption>, b: seq<HttpOption>)
    ensures ApplyOptions(c, a + b) == ApplyOptions(ApplyOptions(c, a), b)
    decreases a
  {
    if a == [] {
      assert a + b == b;
    } else {
      assert (a + b)[1..] == a[1..] + b;
      ApplyOptionsAppend(ApplyOption(c, a[0]), a[1..], b);
    }
  }

  /** Of the options that overwrite a field, the last one wins. */
  lemma LastOptionWins(c: Config, a: seq<HttpOption>, o: HttpOption, b: seq<HttpOption>)
    requires forall i :: 0 <= i < |b| ==> !SameField(o, b[i])
    ensures o.WithHTTPBodySrlzBuilder? ==> ApplyOptions(c, a + [o] + b).builder == o.builder
    ensures o.WithParamsExec? ==> ApplyOptions(c, a + [o] + b).paramsExec == o.exec
    ensures o.WithControllerEndpoint? ==> ApplyOptions(c, a + [o] + b).ctrl == o.ctrl
  {
    ApplyOptionsAppend(c, a + [o], b);
    ApplyOptionsAppend(c, a, [o]);
    UntouchedKept(ApplyOptions(c, a + [o]), b);
  }

  // ---------------------------------------------------------------- validity

  /** `valid()`: no field is nil. */
  predicate Valid(c: Config)
  {
    c.builder.Some? && c.decorators.Some? && c.paramsExec.Some? && c.ctrl.Some?
  }

  // ---------------------------------------------------------- classification

  /** `httpCode`: nil is 200 with no error; otherwise the status follows the
      kind and the error surfaces as its message alone. */
  function HttpCode(e: Option<Err>): (r: (int, Option<string>))
    ensures e.None? <==> r.0 == 200
    ensures e.None? ==> r.1.None?
    ensures e.Some? ==> r.1 == Some(e.value.msg) && 400 <= r.0 <= 500
  {
    if e.None? then (200, None)
    else
      var code := match e.value.kind
        case AccessDeny => 401
        case Internal => 500
        case NotFound => 404
        case Timeout => 408
        case Other => 400;
      (code, Some(e.value.msg))
  }

  /** The status table read backwards. */
  function KindOfStatus(code: int): Option<Kind>
  {
    if code == 401 then Some(AccessDeny)
    else if code == 500 then Some(Internal)
    else if code == 404 then Some(NotFound)
    else if code == 408 then Some(Timeout)
    else if code == 400 then Some(Other)
    else None
  }

  /** The status of a classified error determines its kind, and a nil error
      has no kind: distinct kinds get distinct statuses. */
  lemma StatusIdentifiesKind(e: Option<Err>)
    ensures KindOfStatus(HttpCode(e).0) == if e.None? then None else Some(e.value.kind)
  {
  }

  /** The status table: AccessDeny 401, Internal 500, NotFound 404,
      Timeout 408, anything else 400. */
  lemma StatusTable(msg: string)
    ensures HttpCode(Some(Err(AccessDeny, msg))) == (401, Some(msg))
    ensures HttpCode(Some(Err(Internal, msg))) == (500, Some(msg))
    ensures HttpCode(Some(Err(NotFound, msg))) == (404, Some(msg))
    ensures HttpCode(Some(Err(Timeout, msg))) == (408, Some(msg))
    ensures HttpCode(Some(Err(Other, msg))) == (400, Some(msg))
  {
  }

  // ---------------------------------------------------------------- envelope

  /** The envelope of a result and an error. */
  function MakeEnvelope(res: Option<Result>, err: Option<string>): (env: Envelope)
    ensures env.error == err.GetOr("")
    ensures res.None? ==> env.data == Nil && env.meta == Nil
    ensures res.Some? ==> env.data == res.value.dto
    ensures env.meta != Nil ==> res.Some? && res.value.meta == Some(env.meta)
    ensures res.Some? && res.value.meta.Some? ==> env.meta == res.value.meta.value
  {
    var data := if res.Some? then res.value.dto else Nil;
    var meta := if res.Some? && res.value.meta.Some? then res.value.meta.value else Nil;
    Envelope(data, meta, err.GetOr(""))
  }

  const FallbackHead: string := "{\"Data\":\"\",\"Error\":\""
  const FallbackTail: string := "\"}"

  /** The hand-built body used when marshalling fails; the error text is
      put in as it is, without escaping. */
  function Fallback(e: string): string
  {
    FallbackHead + e + FallbackTail
  }

  /** The fallback body carries the error text verbatim between a fixed head
      and tail, so it can be read back. */
  lemma FallbackCarriesError(e: string)
    ensures |Fallback(e)| == |e| + 22
    ensures Fallback(e)[..20] == FallbackHead && Fallback(e)[20..|e| + 20] == e
    ensures Fallback(e)[|e| + 20..] == FallbackTail
  {
  }

  /** The body the default serializer produces: the marshalled envelope, or
      the fallback carrying the error text. */
  function DefaultBody(marshal: Marshal, res: Option<Result>, err: Option<string>): (body: string)
    ensures marshal(MakeEnvelope(res, err)).Some? ==> body == marshal(MakeEnvelope(res, err)).value
    ensures marshal(MakeEnvelope(res, err)).None? ==> body == Fallback(err.GetOr(""))
  {
    match marshal(MakeEnvelope(res, err))
    case Some(b) => b
    case None => Fallback(MakeEnvelope(res, err).error)
  }

  /** `httpBodySerializeBuilder()`: the request is not looked at. */
  function DefaultBuilder(marshal: Marshal): SerializerBuilder
  {
    (r: Request) => (res: Option<Result>, err: Option<string>) => DefaultBody(marshal, res, err)
  }

  // ---------------------------------------------------------------- handlers

  const InvalidBody: string := "try to invoke invalid handler"

  /** What the validating decorator writes for an invalid configuration:
      the body first, then status 500. */
  const InvalidResponse: seq<WriteOp> := [Write(InvalidBody), WriteHeader(500)]

  /** `validateDecorator`, given the validity of the configuration it reads
      (fixed once the handler is built). */
  function ValidateDecorator(valid: bool): HttpMdl
  {
    (next: Handler) => (req: Request) => if valid then next(req) else InvalidResponse
  }

  function Realize(ds: seq<Decorator>, valid: bool): (r: seq<HttpMdl>)
    ensures |r| == |ds|
  {
    if ds == [] then []
    else
      [match ds[0] case Validate => ValidateDecorator(valid) case Custom(f) => f]
        + Realize(ds[1..], valid)
  }

  /** The terminal request handler: extract the parameters, call the
      controller, classify its error, write the status, then the body. A nil
      field is called as it is reached and panics. */
  function Terminal(c: Config): Handler
  {
    (req: Request) =>
      match c.paramsExec
      case None => [Panic]
      case Some(exec) =>
        match c.ctrl
        case None => [Panic]
        case Some(ctrl) =>
          var out := ctrl(exec(req));
          var classified := HttpCode(out.1);
          match c.builder
          case None => [WriteHeader(classified.0), Panic]
          case Some(b) => [WriteHeader(classified.0), Write(b(req)(out.0, classified.1))]
  }

  /** The handler a configuration yields: its decorators folded around the
      terminal handler. */
  function Serve(c: Config): Handler
  {
    Controller.Compose(Realize(c.decorators.GetOr([]), Valid(c)), Terminal(c))
  }

  /** The validating decorator put in front of the configured ones. */
  function Prepare(c: Config): Config
  {
    c.(decorators := Some([Validate] + c.decorators.GetOr([])))
  }

  /** The configuration a handler is built from: the prepared copy with the
      route's options applied. */
  function HandlerConfig(c: Config, routeOpts: seq<HttpOption>): Config
  {
    ApplyOptions(Prepare(c), routeOpts)
  }

  /** The validating decorator comes first, then the configured decorators,
      then those of the route, each in its original order. */
  lemma HandlerDecorators(c: Config, routeOpts: seq<HttpOption>)
    ensures HandlerConfig(c, routeOpts).decorators ==
      Some([Validate] + c.decorators.GetOr([]) + Customs(AddedDecorators(routeOpts)))
  {
    DecoratorsAppended(Prepare(c), routeOpts);
  }

  /** An invalid configuration whose first decorator is the validating one
      answers every request with the fixed diagnostic and never runs the
      rest of the chain. */
  lemma InvalidShortCircuits(c: Config, rest: seq<Decorator>, req: Request)
    requires c.decorators == Some([Validate] + rest) && !Valid(c)
    ensures Serve(c)(req) == InvalidResponse
  {
    var ds := Realize([Validate] + rest, false);
    assert ([Validate] + rest)[1..] == rest;
    assert ds[1..] == Realize(rest, false);
  }

  /** A valid configuration's validating decorator hands the request, once,
      to the rest of the chain. */
  lemma ValidPassesThrough(c: Config, rest: seq<Decorator>, req: Request)
    requires c.decorators == Some([Validate] + rest) && Valid(c)
    ensures Serve(c)(req) == Controller.Compose(Realize(rest, true), Terminal(c))(req)
  {
    assert ([Validate] + rest)[1..] == rest;
  }

  /** With only the validating decorator, a valid configuration writes one
      status, the classifier's, and then one body, the serializer's. */
  lemma ValidServes(c: Config, req: Request)
    requires c.decorators == Some([Validate]) && Valid(c)
    ensures var out := c.ctrl.value(c.paramsExec.value(req));
      Serve(c)(req) ==
        [WriteHeader(HttpCode(out.1).0), Write(c.builder.value(req)(out.0, HttpCode(out.1).1))]
  {
    assert [Validate] + [] == [Validate];
    ValidPassesThrough(c, [], req);
  }

  /** For a configuration whose decorator list is present, validity is
      exactly the absence of a nil call in the terminal handler. */
  lemma ValidIffNoPanic(c: Config)
    requires c.decorators.Some?
    ensures Valid(c) <==> forall req :: Panic !in Terminal(c)(req)
  {
    if !Valid(c) {
      var req := Param.Request(map[], map[], map[], None, map[]);
      assert Panic in Terminal(c)(req);
    }
  }

  /** The configuration `HTTP()` starts from. */
  function DefaultConfig(marshal: Marshal): Config
  {
    Config(Some([]), Some(Param.RequestValues), Some(DefaultBuilder(marshal)), None)
  }

  /** An `httpOpt`: the configuration the options mutate. */
  class HttpOpt {
    var decorators: Option<seq<Decorator>>
    var paramsExec: Option<ParamsExecutor>
    var builder: Option<SerializerBuilder>
    var ctrl: Option<ControllerEndpoint>

    function Snapshot(): Config
      reads this
    {
      Config(decorators, paramsExec, builder, ctrl)
    }

    /** The literal `HTTP` starts from: an empty decorator list, the default
        parameter executor and serializer, no controller. */
    constructor Default(marshal: Marshal)
      ensures Snapshot() == DefaultConfig(marshal)
    {
      decorators := Some([]);
      paramsExec := Some(Param.RequestValues);
      builder := Some(DefaultBuilder(marshal));
      ctrl := None;
    }

    /** `nh := *h`. */
    constructor Copy(h: HttpOpt)
      ensures Snapshot() == h.Snapshot()
    {
      decorators := h.decorators;
      paramsExec := h.paramsExec;
      builder := h.builder;
      ctrl := h.ctrl;
    }

    /** Runs one option against this configuration. */
    method Apply(o: HttpOption)
      modifies this
      ensures Snapshot() == ApplyOption(old(Snapshot()), o)
    {
      match o
      case WithHTTPDecorators(ds) => decorators := AppendDecorators(decorators, ds);
      case WithHTTPBodySrlzBuilder(b) => builder := b;
      case WithParamsExec(f) => paramsExec := f;
      case WithControllerEndpoint(f) => ctrl := f;
    }

    /** `handler`: copies the configuration, puts the validating decorator
        first, applies the route's options to the copy, and folds the
        decorators around the terminal handler, index 0 outermost. This
        configuration is left as it was. */
    method Handler(routeOpts: seq<HttpOption>) returns (hf: Handler)
      ensures hf == Serve(HandlerConfig(Snapshot(), routeOpts))
      ensures !Valid(HandlerConfig(Snapshot(), routeOpts)) ==>
        forall req :: hf(req) == InvalidResponse
    {
      var nh := new HttpOpt.Copy(this);
      nh.decorators := Some([Validate] + decorators.GetOr([]));
      for i := 0 to |routeOpts|
        invariant ApplyOptions(nh.Snapshot(), routeOpts[i..]) == HandlerConfig(Snapshot(), routeOpts)
      {
        assert routeOpts[i..][1..] == routeOpts[i + 1..];
        nh.Apply(routeOpts[i]);
      }
      var c := nh.Snapshot();
      assert c == HandlerConfig(Snapshot(), routeOpts);
      hf := Controller.ControllerDecorate(Terminal(c), Realize(c.decorators.GetOr([]), Valid(c)));
      HandlerDecorators(Snapshot(), routeOpts);
      var rest := decorators.GetOr([]) + Customs(AddedDecorators(routeOpts));
      assert [Validate] + decorators.GetOr([]) + Customs(AddedDecorators(routeOpts)) == [Validate] + rest;
      forall req | !Valid(c)
        ensures hf(req) == InvalidResponse
      {
        InvalidShortCircuits(c, rest, req);
      }
    }
  }

  /** `HTTP(opts...)`: the default configuration with the options applied
      in order; its `Handler` method is the handler constructor it returns. */
  method HTTP(opts: seq<HttpOption>, marshal: Marshal) returns (h: HttpOpt)
    ensures fresh(h) && h.Snapshot() == ApplyOptions(DefaultConfig(marshal), opts)
  {
    h := new HttpOpt.Default(marshal);
    for i := 0 to |opts|
      invariant ApplyOptions(h.Snapshot(), opts[i..]) == ApplyOptions(DefaultConfig(marshal), opts)
    {
      assert opts[i..][1..] == opts[i + 1..];
      h.Apply(opts[i]);
    }
  }
}
