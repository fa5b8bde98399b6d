/** Error values, their wrapping, and the transient/terminal classification that decides retry and dead-lettering. */
module Errors {
  import opened Options

  datatype Class = Transient | Terminal

  /** Errors compared by identity. `Other` is any error of a library or of this program that is not listed. */
  datatype Sentinel =
    | UnknownDataType
    | NilMessage
    | MissingDeviceId
    | MissingType
    | MissingTimestamp
    | ContextDone
    | Other(text: string)

  /** An error value with what its Unwrap method returns; a ProcessorError may wrap nothing. */
  datatype Error =
    | Leaf(sentinel: Sentinel)
    | Classified(kind: Class, inner: Error)
    | Processor(cause: Option<Error>)
    | Wrapped(inner: Error)

  function NewTransientError(err: Option<Error>): Option<Error> {
    if err.None? then None else Some(Classified(Transient, err.value))
  }

  function NewTerminalError(err: Option<Error>): Option<Error> {
    if err.None? then None else Some(Classified(Terminal, err.value))
  }

  /** errors.As with a ClassifiedError target: the class of the first value in the chain that has one. */
  function AsClassified(err: Error): Option<Class> {
    match err
    case Leaf(_) => None
    case Classified(kind, _) => Some(kind)
    case Processor(cause) => if cause.None? then None else AsClassified(cause.value)
    case Wrapped(inner) => AsClassified(inner)
  }

  /** errors.Is. */
  predicate Is(err: Error, target: Sentinel) {
    match err
    case Leaf(s) => s == target
    case Classified(_, inner) => Is(inner, target)
    case Processor(cause) => cause.Some? && Is(cause.value, target)
    case Wrapped(inner) => Is(inner, target)
  }

  function Classify(err: Option<Error>): Class {
    if err.None? then
      Transient
    else
      match AsClassified(err.value)
      case Some(kind) => kind
      case None =>
        if Is(err.value, MissingDeviceId) || Is(err.value, MissingType) ||
           Is(err.value, MissingTimestamp) || Is(err.value, UnknownDataType)
        then Terminal
        else Transient
  }

  /** The error and everything below it, outermost first. */
  function Chain(err: Error): (chain: seq<Error>)
    ensures |chain| > 0 && chain[0] == err
  {
    match err
    case Leaf(_) => [err]
    case Classified(_, inner) => [err] + Chain(inner)
    case Processor(cause) => if cause.None? then [err] else [err] + Chain(cause.value)
    case Wrapped(inner) => [err] + Chain(inner)
  }

  predicate TerminalSentinel(s: Sentinel) {
    s == MissingDeviceId || s == MissingType || s == MissingTimestamp || s == UnknownDataType
  }

  ghost predicate ListsTerminalSentinel(chain: seq<Error>) {
    exists k :: 0 <= k < |chain| && chain[k].Leaf? && TerminalSentinel(chain[k].sentinel)
  }

  /** Position k holds the outermost value with an explicit class. */
  ghost predicate OutermostExplicit(chain: seq<Error>, k: int) {
    0 <= k < |chain| && chain[k].Classified? && forall j | 0 <= j < k :: !chain[j].Classified?
  }

  /** AsClassified stops at position k of the chain, or finds nothing in all of it. */
  lemma {:induction false} AsClassifiedStopsAt(err: Error) returns (k: nat)
    ensures k <= |Chain(err)| && forall j | 0 <= j < k :: !Chain(err)[j].Classified?
    ensures k == |Chain(err)| ==> AsClassified(err) == None
    ensures k < |Chain(err)| ==> Chain(err)[k].Classified? && AsClassified(err) == Some(Chain(err)[k].kind)
  {
    match err
    case Leaf(_) => k := 1;
    case Classified(_, _) => k := 0;
    case Processor(cause) =>
      k := 0;
      if cause.Some? { k := AsClassifiedStopsAt(cause.value); }
      k := k + 1;
    case Wrapped(inner) =>
      k := AsClassifiedStopsAt(inner);
      k := k + 1;
  }

  lemma {:induction false} IsFindsLeaf(err: Error, target: Sentinel)
    ensures Is(err, target) <==> Leaf(target) in Chain(err)
  {
    match err
    case Leaf(_) =>
    case Classified(_, inner) => IsFindsLeaf(inner, target);
    case Processor(cause) => if cause.Some? { IsFindsLeaf(cause.value, target); }
    case Wrapped(inner) => IsFindsLeaf(inner, target);
  }

  /**
    What Classify means for the chain: the outermost explicit class decides; without one, the
    error is terminal exactly when a listed sentinel lies somewhere in the chain.
   */
  lemma ClassifyMeaning(err: Error)
    ensures forall k :: OutermostExplicit(Chain(err), k) ==> Classify(Some(err)) == Chain(err)[k].kind
    ensures (forall k | 0 <= k < |Chain(err)| :: !Chain(err)[k].Classified?) ==>
              (Classify(Some(err)) == Terminal <==> ListsTerminalSentinel(Chain(err)))
  {
    var k := AsClassifiedStopsAt(err);
    forall s | TerminalSentinel(s)
      ensures Is(err, s) <==> Leaf(s) in Chain(err)
    {
      IsFindsLeaf(err, s);
    }
  }

  /** One more layer around an error: a ProcessorError, a %w message, or an explicit class. */
  datatype Layer = InProcessor | InMessage | InClass(kind: Class)

  function Wrap(layers: seq<Layer>, err: Error): Error {
    if layers == [] then
      err
    else
      var inner := Wrap(layers[1..], err);
      match layers[0]
      case InProcessor => Processor(Some(inner))
      case InMessage => Wrapped(inner)
      case InClass(kind) => Classified(kind, inner)
  }

  predicate AllPlain(layers: seq<Layer>) {
    forall l | l in layers :: !l.InClass?
  }

  lemma PlainLayer(l: Layer, err: Error)
    requires !l.InClass?
    ensures Classify(Some(Wrap([l], err))) == Classify(Some(err))
  {
    assert Wrap([l][1..], err) == err;
    var wrapped := Wrap([l], err);
    assert AsClassified(wrapped) == AsClassified(err);
    assert forall s :: Is(wrapped, s) <==> Is(err, s);
  }

  lemma WrapStep(layers: seq<Layer>, err: Error)
    requires layers != []
    ensures Wrap(layers, err) == Wrap([layers[0]], Wrap(layers[1..], err))
  {
    assert [layers[0]][1..] == [];
  }

  lemma {:induction false} PlainLayers(layers: seq<Layer>, err: Error)
    requires AllPlain(layers)
    ensures Classify(Some(Wrap(layers, err))) == Classify(Some(err))
  {
    if layers != [] {
      assert layers[0] in layers && AllPlain(layers[1..]);
      PlainLayers(layers[1..], err);
      WrapStep(layers, err);
      PlainLayer(layers[0], Wrap(layers[1..], err));
    }
  }

  lemma {:induction false} WrapConcat(a: seq<Layer>, b: seq<Layer>, err: Error)
    ensures Wrap(a + b, err) == Wrap(a, Wrap(b, err))
  {
    if a == [] {
      assert a + b == b;
    } else {
      assert (a + b)[1..] == a[1..] + b && (a + b)[0] == a[0];
      WrapConcat(a[1..], b, err);
    }
  }

  /** Any number of plain layers leaves the class as it was, and an explicit layer overrides all below it. */
  lemma {:induction false} ClassifySurvivesWrapping(layers: seq<Layer>, err: Error)
    ensures AllPlain(layers) ==> Classify(Some(Wrap(layers, err))) == Classify(Some(err))
    ensures forall k | 0 <= k < |layers| && layers[k].InClass? && AllPlain(layers[..k]) ::
              Classify(Some(Wrap(layers, err))) == layers[k].kind
  {
    if AllPlain(layers) { PlainLayers(layers, err); }
    forall k | 0 <= k < |layers| && layers[k].InClass? && AllPlain(layers[..k])
      ensures Classify(Some(Wrap(layers, err))) == layers[k].kind
    {
      var inner := Wrap(layers[k..], err);
      assert layers == layers[..k] + layers[k..];
      WrapConcat(layers[..k], layers[k..], err);
      PlainLayers(layers[..k], inner);
      assert Classify(Some(inner)) == layers[k].kind;
    }
  }
}
