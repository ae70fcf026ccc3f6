/** Decorator composition: wrapping a terminal handler in an ordered list of
    decorators so that the first one is the outermost. Handlers are left
    abstract (any type `H`); a decorator is a function from the next handler
    to its replacement. */
module Controller {

  /** The intended composition `ds[0](ds[1](... ds[n-1](h)))`: a fold from
      the right. */
  function Compose<H>(ds: seq<H -> H>, h: H): H
  {
    if ds == [] then h else ds[0](Compose(ds[1..], h))
  }

  /** `ControllerDecorate`: the loop walks the indices from the last one down
      to 0, re-assigning the endpoint each time. */
  method ControllerDecorate<H>(endpoint: H, decorators: seq<H -> H>) returns (r: H)
    ensures r == Compose(decorators, endpoint)
  {
    var index := |decorators| - 1;
    r := endpoint;
    for i := 0 to |decorators|
      invariant r == Compose(decorators[|decorators| - i..], endpoint)
    {
      ghost var done := decorators[|decorators| - i..];
      assert decorators[index - i..][1..] == done;
      r := decorators[index - i](r);
    }
    assert decorators[0..] == decorators;
  }

  /** An empty decorator list leaves the handler unchanged. */
  lemma ComposeEmpty<H>(h: H)
    ensures Compose([], h) == h
  {
  }

  /** Composing over `a + b` is composing over `b` first, then over `a`. */
  lemma {:induction false} ComposeAppend<H>(a: seq<H -> H>, b: seq<H -> H>, h: H)
    ensures Compose(a + b, h) == Compose(a, Compose(b, h))
  {
    if a == [] {
      assert a + b == b;
    } else {
      assert (a + b)[1..] == a[1..] + b;
      ComposeAppend(a[1..], b, h);
    }
  }

  /** An event of a traced request: a decorator labelled `l` is entered or
      left, or the terminal handler runs. */
  datatype Event<L> = Enter(who: L) | Exit(who: L) | Call

  /** A handler observed through the events it produces for an input. */
  type Traced<!X, L> = X -> seq<Event<L>>

  /** A decorator that records its entry, runs `next` once, and records its
      exit. */
  function Tracer<X, L>(l: L): Traced<X, L> -> Traced<X, L>
  {
    (next: Traced<X, L>) => (x: X) => [Enter(l)] + next(x) + [Exit(l)]
  }

  function Tracers<X, L>(ls: seq<L>): (ds: seq<Traced<X, L> -> Traced<X, L>>)
    ensures |ds| == |ls|
  {
    if ls == [] then [] else [Tracer(ls[0])] + Tracers(ls[1..])
  }

  function Enters<L>(ls: seq<L>): (t: seq<Event<L>>)
    ensures |t| == |ls| && forall i :: 0 <= i < |ls| ==> t[i] == Enter(ls[i])
  {
    seq(|ls|, i requires 0 <= i < |ls| => Enter(ls[i]))
  }

  /** The exits of `ls` in reverse order: the last label is left first. */
  function ExitsReversed<L>(ls: seq<L>): (t: seq<Event<L>>)
    ensures |t| == |ls| && forall i :: 0 <= i < |ls| ==> t[i] == Exit(ls[|ls| - 1 - i])
  {
    seq(|ls|, i requires 0 <= i < |ls| => Exit(ls[|ls| - 1 - i]))
  }

  /** Onion ordering: the composed handler enters the decorators in list
      order, runs the terminal handler, and leaves them in reverse order;
      each decorator appears exactly once on each side. */
  lemma {:induction false} ComposeTrace<X, L>(ls: seq<L>, base: Traced<X, L>, x: X)
    ensures Compose(Tracers(ls), base)(x) == Enters(ls) + base(x) + ExitsReversed(ls)
  {
    if ls != [] {
      var ds := Tracers<X, L>(ls);
      assert ds[1..] == Tracers(ls[1..]);
      var inner := Compose(ds[1..], base);
      ComposeTrace(ls[1..], base, x);
      assert Compose(ds, base)(x) == [Enter(ls[0])] + inner(x) + [Exit(ls[0])];
      assert Enters(ls) == [Enter(ls[0])] + Enters(ls[1..]);
      assert ExitsReversed(ls) == ExitsReversed(ls[1..]) + [Exit(ls[0])];
    }
  }

  /** Decorator `i` is entered at position `i` and left at the mirror
      position, so decorator 0 is entered first and left last. */
  lemma ComposeTraceNesting<X, L>(ls: seq<L>, base: Traced<X, L>, x: X, i: nat)
    requires i < |ls|
    ensures var t := Compose(Tracers(ls), base)(x);
      |t| == 2 * |ls| + |base(x)| && t[i] == Enter(ls[i]) && t[|t| - 1 - i] == Exit(ls[i])
  {
    ComposeTrace(ls, base, x);
  }
}
