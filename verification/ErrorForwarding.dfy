/** Error sets of lore-error-set: how an error and its trace travel along a chain of forwards, each to
    a set of its own. The two traits' forwards have one body; what the strict one asks of its target
    at compile time is a condition on the chain. */
module ErrorForwarding {
  import opened Wrappers

  const MAX_TRACE_DEPTH: nat := 16
  const INTERNAL_CODE: int := -1

  datatype Location = Location(file: string, line: nat, column: nat, context: string)

  datatype Trace = Trace(locations: seq<Location>, overflow: bool)

  /** A discrete error type of some set, or the one every set has, which may hold what it stands for. */
  datatype Inner = Discrete(variant: string, code: int, payload: string) | Internal(source: Option<Inner>)

  datatype TracedBox = TracedBox(inner: Inner, trace: Trace)

  /** A value of an error set: one of its declared variants or its `Internal`. */
  datatype Error = Variant(inner: Inner, trace: Trace) | InternalVariant(inner: Inner, trace: Trace)

  /** The variants a set declares. */
  type ErrorSet = set<string>

  ghost predicate InSet(e: Error, declared: ErrorSet) {
    match e
    case Variant(inner, _) => inner.Discrete? && inner.variant in declared
    case InternalVariant(inner, _) => inner.Internal?
  }

  // ---------------------------------------------------------------------------
  // Traces
  // ---------------------------------------------------------------------------

  function Pushed(trace: Trace, location: Location): Trace {
    if |trace.locations| >= MAX_TRACE_DEPTH then Trace(trace.locations[1..] + [location], true)
    else Trace(trace.locations + [location], trace.overflow)
  }

  /** A trace after every location of a history: its last sixteen, and whether there were more. */
  function TraceOf(history: seq<Location>): Trace {
    if |history| > MAX_TRACE_DEPTH then Trace(history[|history| - MAX_TRACE_DEPTH..], true) else Trace(history, false)
  }

  lemma PushKeepsTheLast(history: seq<Location>, location: Location)
    ensures Pushed(TraceOf(history), location) == TraceOf(history + [location])
  {
    var n := |history|;
    if n == MAX_TRACE_DEPTH {
      assert history[1..] + [location] == (history + [location])[1..];
    } else if n > MAX_TRACE_DEPTH {
      assert history[n - MAX_TRACE_DEPTH..][1..] + [location] == (history + [location])[n + 1 - MAX_TRACE_DEPTH..];
    }
  }

  class TraceStack {
    var locations: seq<Location>
    var overflow: bool
    /** Every location ever pushed. */
    ghost var history: seq<Location>

    ghost predicate Valid()
      reads this
    {
      Trace(locations, overflow) == TraceOf(history)
    }

    constructor ()
      ensures Valid() && history == []
    {
      locations, overflow, history := [], false, [];
    }

    method Push(location: Location)
      requires Valid()
      modifies this
      ensures Valid() && history == old(history) + [location]
    {
      PushKeepsTheLast(history, location);
      if |locations| >= MAX_TRACE_DEPTH {
        locations := locations[1..];
        overflow := true;
      }
      locations := locations + [location];
      history := history + [location];
    }
  }

  // ---------------------------------------------------------------------------
  // One forward
  // ---------------------------------------------------------------------------

  function ExtractInner(e: Error): TracedBox {
    TracedBox(e.inner, e.trace)
  }

  /** The generated downcasts: only declared variants match. */
  function TryFromInner(declared: ErrorSet, traced: TracedBox): Result<Error, TracedBox> {
    if traced.inner.Discrete? && traced.inner.variant in declared then Ok(Variant(traced.inner, traced.trace))
    else Err(traced)
  }

  /** An inner that is already `Internal` is adopted, any other becomes the source of a new one. */
  function WrapInternal(traced: TracedBox): Error {
    if traced.inner.Internal? then InternalVariant(traced.inner, traced.trace)
    else InternalVariant(Internal(Some(traced.inner)), traced.trace)
  }

  function Forward(e: Error, target: ErrorSet, hop: Location): Error {
    match TryFromInner(target, ExtractInner(e))
    case Ok(forwarded) => forwarded.(trace := Pushed(forwarded.trace, hop))
    case Err(unmatched) => WrapInternal(unmatched.(trace := Pushed(unmatched.trace, hop)))
  }

  /** The code at the foreign interface. */
  function FfiCode(e: Error): int {
    match e
    case Variant(inner, _) => if inner.Discrete? then inner.code else INTERNAL_CODE
    case InternalVariant(_, _) => INTERNAL_CODE
  }

  // ---------------------------------------------------------------------------
  // Chains
  // ---------------------------------------------------------------------------

  datatype Hop = Hop(target: ErrorSet, location: Location)

  function ForwardAll(e: Error, hops: seq<Hop>): Error
    decreases |hops|
  {
    if hops == [] then e else ForwardAll(Forward(e, hops[0].target, hops[0].location), hops[1..])
  }

  function Locations(hops: seq<Hop>): seq<Location> {
    if hops == [] then [] else [hops[0].location] + Locations(hops[1..])
  }

  /** Every target declares the error's variant. */
  predicate Declared(inner: Inner, hops: seq<Hop>) {
    inner.Discrete? && forall h :: h in hops ==> inner.variant in h.target
  }

  /** The set a chain ends in. */
  function LastSet(declared: ErrorSet, hops: seq<Hop>): ErrorSet {
    if hops == [] then declared else hops[|hops| - 1].target
  }

  /** Along any chain: an error all of whose targets declare it arrives as it left; any other is
      `Internal` from the first target that does not, holding the error itself and never another
      `Internal`. The trace is the last sixteen of all locations it was given. */
  lemma {:induction false} ChainMeaning(e: Error, declared: ErrorSet, hops: seq<Hop>, history: seq<Location>)
    requires InSet(e, declared) && e.trace == TraceOf(history)
    ensures var out := ForwardAll(e, hops);
            && InSet(out, LastSet(declared, hops))
            && out.trace == TraceOf(history + Locations(hops))
            && out.inner == (if e.inner.Internal? || Declared(e.inner, hops) then e.inner else Internal(Some(e.inner)))
            && FfiCode(out) == (if Declared(e.inner, hops) then e.inner.code else INTERNAL_CODE)
    decreases |hops|
  {
    if hops == [] {
      assert history + Locations(hops) == history;
    } else {
      var next := Forward(e, hops[0].target, hops[0].location);
      PushKeepsTheLast(history, hops[0].location);
      assert history + [hops[0].location] + Locations(hops[1..]) == history + Locations(hops);
      ChainMeaning(next, hops[0].target, hops[1..], history + [hops[0].location]);
      DeclaredStep(e.inner, hops);
    }
  }

  lemma DeclaredStep(inner: Inner, hops: seq<Hop>)
    requires hops != []
    ensures Declared(inner, hops) <==> inner.Discrete? && inner.variant in hops[0].target && Declared(inner, hops[1..])
  {
    if inner.Discrete? && inner.variant in hops[0].target && Declared(inner, hops[1..]) {
      forall h | h in hops ensures inner.variant in h.target { assert h == hops[0] || h in hops[1..]; }
    }
  }

  /** What `forward` demands: each set declares all of the one before. */
  ghost predicate Strict(declared: ErrorSet, hops: seq<Hop>)
    decreases |hops|
  {
    hops == [] || (declared <= hops[0].target && Strict(hops[0].target, hops[1..]))
  }

  lemma {:induction false} StrictDeclares(inner: Inner, declared: ErrorSet, hops: seq<Hop>)
    requires inner.Discrete? && inner.variant in declared && Strict(declared, hops)
    ensures Declared(inner, hops)
    decreases |hops|
  {
    if hops != [] {
      StrictDeclares(inner, hops[0].target, hops[1..]);
      DeclaredStep(inner, hops);
    }
  }

  /** Strict forwards change neither the error nor its code, however long the chain. */
  lemma StrictChainPreserves(e: Error, declared: ErrorSet, hops: seq<Hop>, history: seq<Location>)
    requires InSet(e, declared) && e.trace == TraceOf(history) && Strict(declared, hops)
    ensures ForwardAll(e, hops).inner == e.inner && FfiCode(ForwardAll(e, hops)) == FfiCode(e)
  {
    ChainMeaning(e, declared, hops, history);
    if e.inner.Discrete? { StrictDeclares(e.inner, declared, hops); }
  }
}
