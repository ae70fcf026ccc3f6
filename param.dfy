/** The per-request parameter accumulator: the parameter map, the deferred
    validation state that required scans merge into, the opaque typed body,
    and the construction of the map from the sources of a request. */
module Param {
  import opened Base
  import Decimal

  /** A construction option: a transformer of the parameter map. */
  type ParamsOpt = Values -> Values

  /** `With(key, val)`: sets `key` to the one-element list holding the text of
      `val`, or does nothing when `val` is nil. */
  function With(key: string, val: Dynamic): ParamsOpt
  {
    (m: Values) => if val == Nil then m else m[key := [Sprint(val)]]
  }

  /** The options applied in order, left to right. */
  function ApplyOpts(m: Values, opts: seq<ParamsOpt>): Values
    decreases opts
  {
    if opts == [] then m else ApplyOpts(opts[0](m), opts[1..])
  }

  /** `With(key, nil)` leaves any map unchanged. */
  lemma WithNilKeeps(key: string, m: Values)
    ensures With(key, Nil)(m) == m
  {
  }

  lemma {:induction false} ApplyOptsAppend(m: Values, a: seq<ParamsOpt>, b: seq<ParamsOpt>)
    ensures ApplyOpts(m, a + b) == ApplyOpts(ApplyOpts(m, a), b)
    decreases a
  {
    if a == [] {
      assert a + b == b;
    } else {
      assert (a + b)[1..] == a[1..] + b;
      ApplyOptsAppend(a[0](m), a[1..], b);
    }
  }

  /** A final non-nil `With` decides its key and touches no other key, so of
      two `With`s on one key the later one wins. */
  lemma LastWithWins(m: Values, opts: seq<ParamsOpt>, key: string, val: Dynamic)
    requires val != Nil
    ensures ApplyOpts(m, opts + [With(key, val)]) == ApplyOpts(m, opts)[key := [Sprint(val)]]
  {
    ApplyOptsAppend(m, opts, [With(key, val)]);
  }

  /** The list stored under `key` when it is present with at least one
      value; absent, nil and empty lists all read as missing. */
  function Lookup(values: Values, key: string): (r: Option<seq<string>>)
    ensures r.Some? <==> key in values && values[key] != []
    ensures r.Some? ==> r.value == values[key]
  {
    if key in values && |values[key]| != 0 then Some(values[key]) else None
  }

  function RequiredMsg(key: string): string
  {
    "param '" + key + "' is required"
  }

  /** The wrapped parse failure of a required integer scan. */
  function IntegerMsg(key: string, s: string, e: Decimal.NumError): string
  {
    "param '" + key + "' should be an integer: " + Decimal.ErrorText("ParseInt", s, e)
  }

  function EnrichMsg(key: string): string
  {
    "can't enrich params with key '" + key + "'. key already exist"
  }

  /** The sources of a request, as the transport hands them over: query,
      form and posted-form fields, the top-level fields of the JSON body
      already rendered as text (`None` when reading or decoding the body
      failed), and the path-template variables. */
  datatype Request = Request(
    query: Values,
    form: Values,
    postForm: Values,
    body: Option<map<string, string>>,
    vars: map<string, string>)

  function BodyFields(req: Request): map<string, string>
  {
    req.body.GetOr(map[])
  }

  function Convert<V>(src: map<string, V>, f: V -> seq<string>): Values
  {
    map k | k in src :: f(src[k])
  }

  function Singleton(s: string): seq<string> { [s] }

  /** The parameter map of a request: each source overlaid on the previous
      ones, a later source winning on a shared key. */
  function RequestValues(req: Request): Values
  {
    req.query + req.form + req.postForm
      + Convert(BodyFields(req), Singleton) + Convert(req.vars, Singleton)
  }

  /** Precedence of the sources: path variables over body fields over posted
      form over form over query; a key is present iff some source has it. */
  lemma Precedence(req: Request, k: string)
    ensures k in RequestValues(req) <==>
      k in req.query || k in req.form || k in req.postForm || k in BodyFields(req) || k in req.vars
    ensures k in req.vars ==> RequestValues(req)[k] == [req.vars[k]]
    ensures k !in req.vars && k in BodyFields(req) ==> RequestValues(req)[k] == [BodyFields(req)[k]]
    ensures k !in req.vars && k !in BodyFields(req) && k in req.postForm ==>
      RequestValues(req)[k] == req.postForm[k]
    ensures k !in req.vars && k !in BodyFields(req) && k !in req.postForm && k in req.form ==>
      RequestValues(req)[k] == req.form[k]
    ensures k !in req.vars && k !in BodyFields(req) && k !in req.postForm && k !in req.form && k in req.query ==>
      RequestValues(req)[k] == req.query[k]
  {
  }

  /** A body that could not be read or decoded contributes no key. */
  lemma BadBodyIgnored(req: Request)
    requires req.body.None?
    ensures RequestValues(req) == req.query + req.form + req.postForm + Convert(req.vars, Singleton)
  {
    assert Convert(BodyFields(req), Singleton) == map[];
  }

  /** One `for key, val := range src { p[key] = f(val) }` loop of
      `httpParamsExec`: every key of `src` overwrites `p`. */
  method Overlay<V>(p: Values, src: map<string, V>, f: V -> seq<string>) returns (r: Values)
    ensures r == p + Convert(src, f)
  {
    r := p;
    var rest := src.Keys;
    while rest != {}
      invariant rest <= src.Keys
      invariant r == p + Convert(src - rest, f)
      decreases rest
    {
      var k :| k in rest;
      assert Convert(src - (rest - {k}), f) == Convert(src - rest, f)[k := f(src[k])];
      r := r[k := f(src[k])];
      rest := rest - {k};
    }
    assert src - {} == src;
  }

  function Same(v: seq<string>): seq<string> { v }

  class Params {
    var values: Values
    /** The validation state: the messages merged so far, in scan order;
        empty stands for no error. */
    var errs: seq<string>
    var dto: Dynamic

    /** `NewParams(opts...)`. */
    constructor (opts: seq<ParamsOpt>)
      ensures values == ApplyOpts(map[], opts) && errs == [] && dto == Nil
    {
      var vs: Values := map[];
      for i := 0 to |opts|
        invariant ApplyOpts(vs, opts[i..]) == ApplyOpts(map[], opts)
      {
        assert opts[i..][1..] == opts[i + 1..];
        vs := opts[i](vs);
      }
      values := vs;
      errs := [];
      dto := Nil;
    }

    /** The value `httpParamsExec` builds around a finished map. */
    constructor FromValues(vs: Values)
      ensures values == vs && errs == [] && dto == Nil
    {
      values := vs;
      errs := [];
      dto := Nil;
    }

    /** Adds a key that is not there yet; refuses to overwrite one. */
    method Enrich(key: string, val: seq<string>) returns (e: Option<string>)
      modifies this`values
      ensures key in old(values) ==> e == Some(EnrichMsg(key)) && values == old(values)
      ensures key !in old(values) ==> e == None && values == old(values)[key := val]
      ensures values.Keys == old(values).Keys + {key}
    {
      if key in values {
        return Some(EnrichMsg(key));
      }
      values := values[key := val];
      return None;
    }

    method SetDto(val: Dynamic)
      modifies this`dto
      ensures dto == val
    {
      dto := val;
    }

    /** Hands the stored body to `consume` and passes its error through,
        without touching the validation state. */
    method ScanDto(consume: Dynamic -> Option<string>) returns (e: Option<string>)
      ensures e == consume(dto)
    {
      e := consume(dto);
    }

    /** Required string: the first value, or one "required" error and `cur`
        left as it was. */
    method ScanStrReq(key: string, cur: string) returns (out: string)
      modifies this`errs
      ensures Lookup(values, key).None? ==> errs == old(errs) + [RequiredMsg(key)] && out == cur
      ensures Lookup(values, key).Some? ==> errs == old(errs) && out == values[key][0]
    {
      var v := Lookup(values, key);
      if v.None? {
        errs := errs + [RequiredMsg(key)];
        return cur;
      }
      out := v.value[0];
    }

    /** Optional string: the first value, or "" when missing. */
    method ScanStr(key: string) returns (out: string)
      ensures key in values && values[key] != [] ==> out == values[key][0]
      ensures !(key in values && values[key] != []) ==> out == ""
    {
      var v := Lookup(values, key);
      if v.None? {
        return "";
      }
      out := v.value[0];
    }

    /** Required list: the whole list, or one "required" error and `cur`
        left as it was. */
    method ScanStrsReq(key: string, cur: seq<string>) returns (out: seq<string>)
      modifies this`errs
      ensures Lookup(values, key).None? ==> errs == old(errs) + [RequiredMsg(key)] && out == cur
      ensures Lookup(values, key).Some? ==> errs == old(errs) && out == values[key]
    {
      var v := Lookup(values, key);
      if v.None? {
        errs := errs + [RequiredMsg(key)];
        return cur;
      }
      out := v.value;
    }

    /** Optional list: the whole list, or the empty list when missing. */
    method ScanStrs(key: string) returns (out: seq<string>)
      ensures key in values ==> out == values[key]
      ensures key !in values ==> out == []
    {
      var v := Lookup(values, key);
      if v.None? {
        return [];
      }
      out := v.value;
    }

    /** Required integer: a missing key adds only the "required" error; an
        empty first value adds nothing; a first value that is not a 64-bit
        decimal adds one "should be an integer" error; in those three cases
        `cur` is left as it was. */
    method ScanIntReq(key: string, cur: int) returns (out: int)
      modifies this`errs
      ensures Lookup(values, key).None? ==> errs == old(errs) + [RequiredMsg(key)] && out == cur
      ensures Lookup(values, key).Some? && values[key][0] == "" ==> errs == old(errs) && out == cur
      ensures Lookup(values, key).Some? && values[key][0] != "" ==>
        var s := values[key][0];
        match Decimal.ParseInt(s)
        case Ok(n) => errs == old(errs) && out == n
        case Fail(e) => errs == old(errs) + [IntegerMsg(key, s, e)] && out == cur
    {
      var s := ScanStrReq(key, "");
      if s == "" {
        return cur;
      }
      match Decimal.ParseInt(s)
      case Fail(e) =>
        errs := errs + [IntegerMsg(key, s, e)];
        out := cur;
      case Ok(n) =>
        out := n;
    }

    /** Optional integer: the signed 64-bit value of the first value, and 0
        when the key is missing or that value does not parse. */
    method ScanInt(key: string) returns (out: int)
      ensures Decimal.MinInt64 <= out <= Decimal.MaxInt64
      ensures Lookup(values, key).None? ==> out == 0
      ensures Lookup(values, key).Some? ==>
        out == (match Decimal.ParseInt(values[key][0]) case Ok(n) => n case Fail(_) => 0)
    {
      var s := ScanStr(key);
      if s == "" {
        return 0;
      }
      match Decimal.ParseInt(s)
      case Fail(_) =>
        out := 0;
      case Ok(n) =>
        out := n;
    }

    /** Optional unsigned integer: like `ScanInt`, but a sign is refused and
        the bound is that of an unsigned 64-bit value. */
    method ScanUint(key: string) returns (out: nat)
      ensures out <= Decimal.MaxUint64
      ensures Lookup(values, key).None? ==> out == 0
      ensures Lookup(values, key).Some? ==>
        out == (match Decimal.ParseUint(values[key][0]) case Ok(n) => n case Fail(_) => 0)
    {
      var s := ScanStr(key);
      if s == "" {
        return 0;
      }
      match Decimal.ParseUint(s)
      case Fail(_) =>
        out := 0;
      case Ok(n) =>
        out := n;
    }

    /** Returns the merged validation error and clears it. */
    method FinalErrState() returns (e: seq<string>)
      modifies this`errs
      ensures e == old(errs) && errs == []
    {
      e := errs;
      ResetState();
    }

    method ResetState()
      modifies this`errs
      ensures errs == []
    {
      errs := [];
    }
  }

  /** Finalising twice in a row: the first call returns what the scans
      merged, the second returns no error. */
  method FinalizeTwice(p: Params) returns (first: seq<string>, second: seq<string>)
    modifies p
    ensures first == old(p.errs) && second == [] && p.errs == []
  {
    first := p.FinalErrState();
    second := p.FinalErrState();
  }

  /** `httpParamsExec`: overlays the sources of the request in precedence
      order on an empty map. */
  method HttpParamsExec(req: Request) returns (p: Params)
    ensures fresh(p) && p.values == RequestValues(req) && p.errs == [] && p.dto == Nil
  {
    var vs: Values := map[];
    var sources := [req.query, req.form, req.postForm];
    for i := 0 to |sources|
      invariant vs == if i == 0 then map[] else if i == 1 then req.query
                      else if i == 2 then req.query + req.form else req.query + req.form + req.postForm
    {
      vs := Overlay(vs, sources[i], Same);
      assert Convert(sources[i], Same) == sources[i];
      assert i == 0 ==> map[] + req.query == req.query;
    }
    var op := if req.body.Some? then req.body.value else map[];
    vs := Overlay(vs, op, Singleton);
    vs := Overlay(vs, req.vars, Singleton);
    p := new Params.FromValues(vs);
  }
}
