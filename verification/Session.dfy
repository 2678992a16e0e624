/** A FUSE session: its workers, every request they have read, and both sides of the lookup
    accounting, over every interleaving of requests, deferred tasks and INTERRUPTs. */
module Session {
  import opened Wrappers
  import opened Collections
  import opened Dispatch

  datatype WorkerState = Listening | Serving(u: Unique) | Stopped

  datatype State = State(
    requests: map<Unique, RequestState>,
    workers: map<WorkerId, WorkerState>,
    /** Lookups the provider has counted, less those forgotten or given back. */
    counted: multiset<Node>,
    /** References the kernel holds. */
    kernel: multiset<Node>,
    /** A reply met a transport error. */
    broken: bool)

  datatype Step =
    /** A worker reads a request. With a FORGET the kernel gives its references up. */
    | Receive(w: WorkerId, u: Unique, request: Request)
    /** Shutdown, or the end of the transport. */
    | Stop(w: WorkerId)
    /** A late notification of the slot meant for an earlier request wakes this one. */
    | Stray(u: Unique)
    | Own(u: Unique, event: Event)

  /** An INTERRUPT finds a request in a worker's slot, or in the map of deferred requests until its
      task has removed it. */
  predicate Findable(s: State, u: Unique) {
    u in s.requests && (s.requests[u].phase.Racing? || (s.requests[u].onTask && !s.requests[u].phase.Done?))
  }

  predicate FindsTarget(s: State, r: RequestState) {
    r.request.Interrupt? && Findable(s, r.request.target)
  }

  predicate CanStep(s: State, step: Step) {
    match step
    case Receive(w, u, request) =>
      w in s.workers && s.workers[w].Listening? && u != 0 && u !in s.requests && Forgets(request) <= s.kernel
    case Stop(w) => w in s.workers && s.workers[w].Listening?
    case Stray(u) => u in s.requests && s.requests[u].phase.Racing?
    case Own(u, event) =>
      && u in s.requests && Enabled(s.requests[u], event)
      && (event.Dispatched? ==> event.found == FindsTarget(s, s.requests[u]))
  }

  function Arrived(request: Request, w: WorkerId): RequestState {
    RequestState(request, w, false, Received, [], false, false, 0, None, 0)
  }

  /** The worker of a request that has left it reads the next one, or stops if its send failed. */
  function WorkersAfter(s: State, r: RequestState, r': RequestState, event: Event): map<WorkerId, WorkerState> {
    if !r.onTask && (r'.onTask || r'.phase.Done?)
    then s.workers[r.worker := if event == Delivered(Broken) then Stopped else Listening]
    else s.workers
  }

  function Interrupted(requests: map<Unique, RequestState>, u: Unique): map<Unique, RequestState>
    requires u in requests
  {
    requests[u := requests[u].(interrupted := true)]
  }

  function StepOwn(s: State, u: Unique, event: Event): State
    requires CanStep(s, Own(u, event))
  {
    var r := s.requests[u];
    var (r', effect) := After(r, event);
    var requests := if event.Dispatched? && event.found then Interrupted(s.requests, r.request.target) else s.requests;
    State(requests[u := r'],
          WorkersAfter(s, r, r', event),
          s.counted + effect.counted - effect.released,
          s.kernel + effect.taken,
          s.broken || event == Delivered(Broken))
  }

  function Apply(s: State, step: Step): State
    requires CanStep(s, step)
  {
    match step
    case Receive(w, u, request) =>
      s.(requests := s.requests[u := Arrived(request, w)], workers := s.workers[w := Serving(u)],
         kernel := s.kernel - Forgets(request))
    case Stop(w) => s.(workers := s.workers[w := Stopped])
    case Stray(u) => s.(requests := Interrupted(s.requests, u))
    case Own(u, event) => StepOwn(s, u, event)
  }

  ghost predicate Init(s: State) {
    && s.requests == map[] && s.counted == s.kernel == multiset{} && !s.broken
    && forall w :: w in s.workers ==> s.workers[w].Listening?
  }

  ghost predicate Runs(s: State, steps: seq<Step>)
    decreases |steps|
  {
    steps == [] || (CanStep(s, steps[0]) && Runs(Apply(s, steps[0]), steps[1..]))
  }

  ghost function End(s: State, steps: seq<Step>): State
    requires Runs(s, steps)
    decreases |steps|
  {
    if steps == [] then s else End(Apply(s, steps[0]), steps[1..])
  }

  // ---------------------------------------------------------------------------
  // What all requests together owe
  // ---------------------------------------------------------------------------

  ghost function Owed(requests: map<Unique, RequestState>): multiset<Node>
    decreases |requests|
  {
    if requests == map[] then multiset{}
    else
      var u :| u in requests;
      Pending(requests[u]) + Owed(requests - {u})
  }

  lemma Cancel(a: multiset<Node>, b: multiset<Node>, c: multiset<Node>)
    requires a + c == b + c
    ensures a == b
  {
    forall n: Node ensures a[n] == b[n] { assert (a + c)[n] == (b + c)[n]; }
  }

  lemma {:induction false} OwedSplit(requests: map<Unique, RequestState>, u: Unique)
    requires u in requests
    ensures Owed(requests) == Pending(requests[u]) + Owed(requests - {u})
    decreases |requests|
  {
    var v :| v in requests && Owed(requests) == Pending(requests[v]) + Owed(requests - {v});
    if v != u {
      var rest := requests - {v} - {u};
      OwedSplit(requests - {v}, u);
      OwedSplit(requests - {u}, v);
      assert requests - {u} - {v} == rest;
      Exchange(Pending(requests[v]), Pending(requests[u]), Owed(rest));
    }
  }

  lemma OwedUpdate(requests: map<Unique, RequestState>, u: Unique, r: RequestState)
    requires u in requests
    ensures Owed(requests[u := r]) + Pending(requests[u]) == Owed(requests) + Pending(r)
  {
    OwedSplit(requests, u);
    OwedSplit(requests[u := r], u);
    assert requests[u := r] - {u} == requests - {u};
  }

  lemma OwedAdd(requests: map<Unique, RequestState>, u: Unique, r: RequestState)
    requires u !in requests
    ensures Owed(requests[u := r]) == Owed(requests) + Pending(r)
  {
    OwedSplit(requests[u := r], u);
    assert requests[u := r] - {u} == requests;
  }

  // ---------------------------------------------------------------------------
  // Invariant
  // ---------------------------------------------------------------------------

  ghost predicate Conserved(s: State) {
    s.counted == s.kernel + Owed(s.requests)
  }

  /** A request on a worker is the one that worker serves. */
  ghost predicate Assigned(s: State) {
    && (forall u :: u in s.requests && !s.requests[u].onTask && !s.requests[u].phase.Done? ==>
          s.requests[u].worker in s.workers && s.workers[s.requests[u].worker] == Serving(u))
    && (forall w :: w in s.workers && s.workers[w].Serving? ==>
          var u := s.workers[w].u;
          u in s.requests && s.requests[u].worker == w && !s.requests[u].onTask && !s.requests[u].phase.Done?)
  }

  ghost predicate AllGood(requests: map<Unique, RequestState>) {
    forall u :: u in requests ==> Good(requests[u])
  }

  ghost predicate Inv(s: State) {
    AllGood(s.requests) && Assigned(s) && (!s.broken ==> Conserved(s))
  }

  lemma MarkedKeeps(r: RequestState)
    ensures Good(r.(interrupted := true)) == Good(r) && Pending(r.(interrupted := true)) == Pending(r)
  {
  }

  lemma InterruptedGood(requests: map<Unique, RequestState>, u: Unique)
    requires u in requests && AllGood(requests)
    ensures AllGood(Interrupted(requests, u))
  {
    MarkedKeeps(requests[u]);
  }

  lemma InterruptedOwes(requests: map<Unique, RequestState>, u: Unique)
    requires u in requests
    ensures Owed(Interrupted(requests, u)) == Owed(requests)
  {
    OwedUpdate(requests, u, requests[u].(interrupted := true));
    MarkedKeeps(requests[u]);
    Cancel(Owed(Interrupted(requests, u)), Owed(requests), Pending(requests[u]));
  }

  /** The books balance over one event, given that they do for its request. */
  lemma Settle(counted: multiset<Node>, kernel: multiset<Node>, owed: multiset<Node>, owed': multiset<Node>,
               before: multiset<Node>, after: multiset<Node>, effect: Effect)
    requires counted == kernel + owed
    requires owed' + before == owed + after
    requires before + effect.counted == after + effect.released + effect.taken
    ensures counted + effect.counted - effect.released == kernel + effect.taken + owed'
  {
    forall n: Node
      ensures (counted + effect.counted - effect.released)[n] == (kernel + effect.taken + owed')[n]
    {
      assert counted[n] == kernel[n] + owed[n];
      assert (owed' + before)[n] == (owed + after)[n];
      assert (before + effect.counted)[n] == (after + effect.released + effect.taken)[n];
    }
  }

  lemma OwnConserves(s: State, u: Unique, event: Event)
    requires Inv(s) && CanStep(s, Own(u, event)) && !s.broken && event != Delivered(Broken)
    ensures Conserved(StepOwn(s, u, event))
  {
    var r := s.requests[u];
    var (r', effect) := After(r, event);
    AfterBalances(r, event);
    if event.Dispatched? && event.found {
      InterruptedOwes(s.requests, r.request.target);
      assert r.request.target != u;
      OwedUpdate(Interrupted(s.requests, r.request.target), u, r');
    } else {
      OwedUpdate(s.requests, u, r');
    }
    Settle(s.counted, s.kernel, Owed(s.requests), Owed(StepOwn(s, u, event).requests), Pending(r), Pending(r'), effect);
  }

  lemma OwnGood(s: State, u: Unique, event: Event)
    requires Inv(s) && CanStep(s, Own(u, event))
    ensures AllGood(StepOwn(s, u, event).requests)
  {
    AfterGood(s.requests[u], event);
    if event.Dispatched? && event.found { InterruptedGood(s.requests, s.requests[u].request.target); }
  }

  /** Which worker holds a request: an event moves it off its worker at most. */
  lemma AfterPlace(r: RequestState, e: Event)
    requires Enabled(r, e)
    ensures After(r, e).0.worker == r.worker && (r.onTask ==> After(r, e).0.onTask) && !r.phase.Done?
  {
  }

  lemma OwnAssigned(s: State, u: Unique, event: Event)
    requires Inv(s) && CanStep(s, Own(u, event))
    ensures Assigned(StepOwn(s, u, event))
  {
    AfterPlace(s.requests[u], event);
    var s' := StepOwn(s, u, event);
    forall v | v in s'.requests && !s'.requests[v].onTask && !s'.requests[v].phase.Done?
      ensures s'.requests[v].worker in s'.workers && s'.workers[s'.requests[v].worker] == Serving(v)
    {
      SamePlace(s, u, event, v);
    }
    forall w | w in s'.workers && s'.workers[w].Serving?
      ensures var v := s'.workers[w].u;
              v in s'.requests && s'.requests[v].worker == w && !s'.requests[v].onTask && !s'.requests[v].phase.Done?
    {
      assert s.workers[w] == s'.workers[w];
      SamePlace(s, u, event, s.workers[w].u);
    }
  }

  /** The other requests stay where they are; an INTERRUPT at most marks one of them. */
  lemma SamePlace(s: State, u: Unique, event: Event, v: Unique)
    requires CanStep(s, Own(u, event))
    ensures v in StepOwn(s, u, event).requests <==> v in s.requests
    ensures v in s.requests && v != u ==>
              StepOwn(s, u, event).requests[v] == s.requests[v].(interrupted := StepOwn(s, u,
                  event).requests[v].interrupted)
  {
  }

  lemma ReceiveInv(s: State, w: WorkerId, u: Unique, request: Request)
    requires Inv(s) && CanStep(s, Receive(w, u, request))
    ensures Inv(Apply(s, Receive(w, u, request)))
  {
    ReceiveAssigned(s, w, u, request);
    if !s.broken { ReceiveConserves(s, w, u, request); }
  }

  lemma ReceiveAssigned(s: State, w: WorkerId, u: Unique, request: Request)
    requires Assigned(s) && CanStep(s, Receive(w, u, request))
    ensures Assigned(Apply(s, Receive(w, u, request)))
  {
  }

  lemma ReceiveConserves(s: State, w: WorkerId, u: Unique, request: Request)
    requires CanStep(s, Receive(w, u, request)) && Conserved(s)
    ensures Conserved(Apply(s, Receive(w, u, request)))
  {
    OwedAdd(s.requests, u, Arrived(request, w));
    assert s.kernel == (s.kernel - Forgets(request)) + Forgets(request);
  }

  lemma StepInv(s: State, step: Step)
    requires Inv(s) && CanStep(s, step)
    ensures Inv(Apply(s, step))
  {
    match step
    case Receive(w, u, request) => ReceiveInv(s, w, u, request);
    case Stop(_) =>
    case Stray(u) =>
      InterruptedGood(s.requests, u);
      InterruptedOwes(s.requests, u);
    case Own(u, event) =>
      OwnGood(s, u, event);
      OwnAssigned(s, u, event);
      if !s.broken && event != Delivered(Broken) { OwnConserves(s, u, event); }
  }

  lemma {:induction false} RunInv(s: State, steps: seq<Step>)
    requires Inv(s) && Runs(s, steps)
    ensures Inv(End(s, steps))
    decreases |steps|
  {
    if steps != [] {
      StepInv(s, steps[0]);
      RunInv(Apply(s, steps[0]), steps[1..]);
    }
  }

  lemma InitInv(s: State)
    requires Init(s)
    ensures Inv(s)
  {
  }

  // ---------------------------------------------------------------------------
  // One reply for each request
  // ---------------------------------------------------------------------------

  /** No request is ever answered twice; one that is over was answered exactly once, unless it is a
      FORGET, a BATCH_FORGET or an INTERRUPT that found its target, which are not answered at all. */
  lemma OneReplyPerRequest(start: State, steps: seq<Step>, u: Unique)
    requires Init(start) && Runs(start, steps) && u in End(start, steps).requests
    ensures var r := End(start, steps).requests[u];
            && r.sends <= 1
            && (r.phase.Done? ==> (r.sends == 0 <==> Unanswered(r.request) || r.foundTarget))
            && (r.foundTarget ==> r.request.Interrupt?)
  {
    InitInv(start);
    RunInv(start, steps);
    assert Good(End(start, steps).requests[u]);
  }

  /** Every reply is one its kind of request can have: the errors the dispatcher makes up itself go to
      INTERRUPTs without a target, requests it does not know and bodies that do not decode, `EINTR` to
      requests that are raced, and lookups are handed over by the kinds that carry an entry or a page. */
  lemma RepliesAreOfTheirKind(start: State, steps: seq<Step>, u: Unique)
    requires Init(start) && Runs(start, steps) && u in End(start, steps).requests
    ensures var r := End(start, steps).requests[u];
            r.answer.Some? ==> MayAnswer(r.request, r.answer.value)
  {
    InitInv(start);
    RunInv(start, steps);
    assert Good(End(start, steps).requests[u]);
  }

  /** How much of its course a request still has before it. */
  function Rank(r: RequestState): (rank: nat)
    ensures rank <= 8
  {
    match r.phase
    case Received => 8
    case Racing => 7
    case Running => 6
    case Handoff => 5
    case Deferred => 4
    case Completing => 3
    case Sending(_) => 2
    case Replied => 1
    case Done => 0
  }

  /** The event that takes a request on, once its provider future has ended. */
  function NextEvent(s: State, r: RequestState): Event {
    match r.phase
    case Received => Dispatched(FindsTarget(s, r))
    case Handoff => Registered
    case Sending(_) => Delivered(Sent)
    case Replied => Removed
    case _ => Finished(ProviderResult.Ok(1))
  }

  /** A request that is not over has an event of its own to come, other than a row. */
  lemma HasATurn(s: State, u: Unique) returns (step: Step)
    requires Inv(s) && u in s.requests && !s.requests[u].phase.Done?
    ensures IsTurn(step, u) && CanStep(s, step)
  {
    assert Good(s.requests[u]);
    step := Own(u, NextEvent(s, s.requests[u]));
  }

  /** A request's own events other than the rows of a page bring it closer to its end. */
  lemma RankFalls(r: RequestState, e: Event)
    requires Enabled(r, e)
    ensures Rank(After(r, e).0) <= Rank(r) && (!e.Row? ==> Rank(After(r, e).0) < Rank(r))
  {
    match e
    case Dispatched(_) => assert Rank(r) == 8;
    case Row(_) =>
    case Finished(result) => FinishedRankFalls(r, result);
    case InterruptWins =>
    case Registered =>
    case Delivered(_) =>
    case Removed =>
  }

  lemma FinishedRankFalls(r: RequestState, result: ProviderResult)
    requires Enabled(r, Finished(result))
    ensures Rank(After(r, Finished(result)).0) < Rank(r)
  {
  }

  /** No step of any request or worker sets a request back. */
  lemma NothingSetsBack(s: State, step: Step, u: Unique)
    requires Inv(s) && CanStep(s, step) && u in s.requests
    ensures u in Apply(s, step).requests && Rank(Apply(s, step).requests[u]) <= Rank(s.requests[u])
  {
    assert Good(s.requests[u]);
    if step.Own? {
      if step.u == u { RankFalls(s.requests[u], step.event); } else { SamePlace(s, step.u, step.event, u); }
    }
  }

  /** The events of request `u` itself, other than rows of a page. */
  predicate IsTurn(step: Step, u: Unique) {
    step.Own? && step.u == u && !step.event.Row?
  }

  function Turns(steps: seq<Step>, u: Unique): nat {
    if steps == [] then 0 else (if IsTurn(steps[0], u) then 1 else 0) + Turns(steps[1..], u)
  }

  /** The most turns request `u` can still take, whether it has arrived or not. */
  function Left(s: State, u: Unique): nat {
    if u in s.requests then Rank(s.requests[u]) else 8
  }

  lemma LeftStep(s: State, step: Step, u: Unique)
    requires Inv(s) && CanStep(s, step)
    ensures Left(Apply(s, step), u) + (if IsTurn(step, u) then 1 else 0) <= Left(s, u)
  {
    if u in s.requests {
      if IsTurn(step, u) { RankFalls(s.requests[u], step.event); } else { NothingSetsBack(s, step, u); }
    }
  }

  /** Over every run, a request's turns are paid for by its progress. */
  lemma {:induction false} TurnsAreBounded(s: State, steps: seq<Step>, u: Unique)
    requires Inv(s) && Runs(s, steps)
    ensures Left(End(s, steps), u) + Turns(steps, u) <= Left(s, u)
    decreases |steps|
  {
    if steps != [] {
      LeftStep(s, steps[0], u);
      StepInv(s, steps[0]);
      TurnsAreBounded(Apply(s, steps[0]), steps[1..], u);
    }
  }

  /** Request `u` has no event of its own left but rows: every future, send and removal it started has
      ended. */
  ghost predicate Settled(s: State, u: Unique) {
    forall event :: CanStep(s, Own(u, event)) ==> event.Row?
  }

  lemma SettledIsOver(s: State, u: Unique)
    requires Inv(s) && u in s.requests
    ensures Settled(s, u) <==> s.requests[u].phase.Done?
  {
    if !s.requests[u].phase.Done? {
      var step := HasATurn(s, u);
      assert CanStep(s, Own(u, step.event));
    }
  }

  /** Every run in which a request's futures end answers it: whatever the other requests do, it takes
      at most eight turns, rows apart, and when it has none left it is over, not answered at all if it
      is a FORGET, a BATCH_FORGET or an INTERRUPT that found its target, and otherwise answered exactly
      once. */
  lemma EveryRunAnswers(start: State, steps: seq<Step>, u: Unique)
    requires Init(start) && Runs(start, steps) && u in End(start, steps).requests
    ensures var s, r := End(start, steps), End(start, steps).requests[u];
            && Turns(steps, u) + Rank(r) <= 8
            && (Settled(s, u) <==> r.phase.Done?)
            && (Settled(s, u) ==> if Unanswered(r.request) || r.foundTarget then NotAnswered(r) else AnsweredOnce(r))
  {
    InitInv(start);
    RunInv(start, steps);
    TurnsAreBounded(start, steps, u);
    SettledIsOver(End(start, steps), u);
    assert Good(End(start, steps).requests[u]);
  }

  // ---------------------------------------------------------------------------
  // Workers
  // ---------------------------------------------------------------------------

  ghost predicate NoneStopped(s: State) {
    forall w :: w in s.workers ==> !s.workers[w].Stopped?
  }

  lemma GoesOnStep(s: State, step: Step)
    requires CanStep(s, step) && NoneStopped(s) && !step.Stop? && !Apply(s, step).broken
    ensures NoneStopped(Apply(s, step))
  {
  }

  /** Without a shutdown and without a broken reply every worker goes on serving. */
  lemma {:induction false} WorkersGoOn(s: State, steps: seq<Step>)
    requires NoneStopped(s) && Runs(s, steps) && !End(s, steps).broken
    requires forall k :: 0 <= k < |steps| ==> !steps[k].Stop?
    ensures NoneStopped(End(s, steps)) && !s.broken
    decreases |steps|
  {
    if steps != [] {
      BrokenStays(Apply(s, steps[0]), steps[1..]);
      GoesOnStep(s, steps[0]);
      WorkersGoOn(Apply(s, steps[0]), steps[1..]);
    }
  }

  lemma {:induction false} BrokenStays(s: State, steps: seq<Step>)
    requires Runs(s, steps)
    ensures s.broken ==> End(s, steps).broken
    decreases |steps|
  {
    if steps != [] { BrokenStays(Apply(s, steps[0]), steps[1..]); }
  }

  lemma StoppedStep(s: State, step: Step, w: WorkerId)
    requires Inv(s) && CanStep(s, step) && w in s.workers && s.workers[w].Stopped?
    ensures w in Apply(s, step).workers && Apply(s, step).workers[w].Stopped?
  {
    if step.Own? { assert Good(s.requests[step.u]); }
  }

  lemma {:induction false} StoppedStays(s: State, steps: seq<Step>, w: WorkerId)
    requires Inv(s) && Runs(s, steps) && w in s.workers && s.workers[w].Stopped?
    ensures w in End(s, steps).workers && End(s, steps).workers[w].Stopped?
    decreases |steps|
  {
    if steps != [] {
      StoppedStep(s, steps[0], w);
      StepInv(s, steps[0]);
      StoppedStays(Apply(s, steps[0]), steps[1..], w);
    }
  }

  /** A worker whose own reply broke stops for good; one whose reply broke on a task does not notice. */
  lemma BrokenReplyStopsItsWorker(s: State, u: Unique, steps: seq<Step>)
    requires Inv(s) && CanStep(s, Own(u, Delivered(Broken))) && !s.requests[u].onTask
    requires Runs(Apply(s, Own(u, Delivered(Broken))), steps)
    ensures var w, end := s.requests[u].worker, End(Apply(s, Own(u, Delivered(Broken))), steps);
            w in end.workers && end.workers[w].Stopped?
  {
    assert Good(s.requests[u]);
    StepInv(s, Own(u, Delivered(Broken)));
    StoppedStays(Apply(s, Own(u, Delivered(Broken))), steps, s.requests[u].worker);
  }

  // ---------------------------------------------------------------------------
  // The map of deferred requests
  // ---------------------------------------------------------------------------

  /** The requests on tasks of their own, each with whether an INTERRUPT has reached it. */
  function Permits(s: State): map<Unique, bool> {
    PermitsOf(s.requests)
  }

  function PermitsOf(requests: map<Unique, RequestState>): map<Unique, bool> {
    map u | u in requests && InMap(requests[u]) :: requests[u].interrupted
  }

  lemma PermitsUpdate(requests: map<Unique, RequestState>, u: Unique, r: RequestState)
    ensures PermitsOf(requests[u := r]) ==
            if InMap(r) then PermitsOf(requests)[u := r.interrupted] else PermitsOf(requests) - {u}
  {
  }

  predicate InMap(r: RequestState) {
    r.onTask && !r.phase.Done?
  }

  predicate InSlot(s: State, u: Unique) {
    u in s.requests && s.requests[u].phase.Racing?
  }

  /** An event leaves a request registered or not as it was, and its permit, except for the two that
      register and remove it. */
  lemma RegisteredAfter(r: RequestState, e: Event)
    requires Good(r) && Enabled(r, e)
    ensures match e
            case Registered => InMap(After(r, e).0) && !After(r, e).0.interrupted && !InMap(r)
            case Removed => !InMap(After(r, e).0)
            case _ => InMap(After(r, e).0) == InMap(r) && After(r, e).0.interrupted == r.interrupted
  {
    match e
    case Dispatched(_) => assert !r.onTask;
    case Finished(_) => assert !r.phase.Done?;
    case _ =>
  }

  /** What a step does to the map of deferred requests. */
  function PermitsAfter(s: State, step: Step): map<Unique, bool>
    requires CanStep(s, step)
  {
    var permits := Permits(s);
    if !step.Own? then permits
    else match step.event
      case Registered => permits[step.u := false]
      case Removed => permits - {step.u}
      case Dispatched(found) =>
        var target := s.requests[step.u].request;
        if found && target.target in permits then permits[target.target := true] else permits
      case _ => permits
  }

  lemma FoundPermits(s: State, i: Unique)
    requires Inv(s) && CanStep(s, Own(i, Dispatched(true)))
    ensures Permits(Apply(s, Own(i, Dispatched(true)))) == PermitsAfter(s, Own(i, Dispatched(true)))
  {
    var target, over := s.requests[i].request.target, After(s.requests[i], Dispatched(true)).0;
    assert Good(s.requests[i]) && over.phase.Done? && target != i;
    PermitsUpdate(s.requests, target, s.requests[target].(interrupted := true));
    PermitsUpdate(Interrupted(s.requests, target), i, over);
  }

  lemma OwnPermits(s: State, u: Unique, e: Event)
    requires Inv(s) && CanStep(s, Own(u, e)) && e != Dispatched(true)
    ensures Permits(Apply(s, Own(u, e))) == PermitsAfter(s, Own(u, e))
  {
    assert Good(s.requests[u]);
    RegisteredAfter(s.requests[u], e);
    PermitsUpdate(s.requests, u, After(s.requests[u], e).0);
  }

  /** The map of deferred requests changes only where a request registers, is removed, or is found in
      it by an INTERRUPT. */
  lemma PermitsFollow(s: State, step: Step)
    requires Inv(s) && CanStep(s, step)
    ensures Permits(Apply(s, step)) == PermitsAfter(s, step)
  {
    match step
    case Receive(_, _, _) =>
    case Stop(_) =>
    case Stray(u) => StrayPermits(s, u);
    case Own(u, e) => if e == Dispatched(true) { FoundPermits(s, u); } else { OwnPermits(s, u, e); }
  }

  lemma StrayPermits(s: State, u: Unique)
    requires Inv(s) && CanStep(s, Stray(u))
    ensures Permits(Apply(s, Stray(u))) == Permits(s)
  {
    assert Good(s.requests[u]);
    PermitsUpdate(s.requests, u, s.requests[u].(interrupted := true));
  }

  /** An INTERRUPT finds its target exactly in a slot or in that map. */
  lemma FoundInSlotOrMap(s: State, r: RequestState)
    requires Inv(s) && r.request.Interrupt?
    ensures FindsTarget(s, r) <==> InSlot(s, r.request.target) || r.request.target in Permits(s)
  {
  }

  // ---------------------------------------------------------------------------
  // Lookup references
  // ---------------------------------------------------------------------------

  /** In every run without a transport error, the lookups the provider has counted, less those
      forgotten or given back, are the references the kernel holds and those still in replies, pages
      and FORGETs under way. */
  lemma LookupsConserved(start: State, steps: seq<Step>)
    requires Init(start) && Runs(start, steps) && !End(start, steps).broken
    ensures var s := End(start, steps);
            s.counted == s.kernel + Owed(s.requests)
  {
    InitInv(start);
    RunInv(start, steps);
  }

  lemma {:induction false} NothingOwed(requests: map<Unique, RequestState>)
    requires forall u :: u in requests ==> requests[u].phase.Done?
    ensures Owed(requests) == multiset{}
    decreases |requests|
  {
    if requests != map[] {
      var u :| u in requests;
      OwedSplit(requests, u);
      NothingOwed(requests - {u});
    }
  }

  /** When every request is over, the two sides agree exactly. */
  lemma LookupsAgreeAtRest(start: State, steps: seq<Step>)
    requires Init(start) && Runs(start, steps) && !End(start, steps).broken
    requires forall u :: u in End(start, steps).requests ==> End(start, steps).requests[u].phase.Done?
    ensures End(start, steps).counted == End(start, steps).kernel
  {
    LookupsConserved(start, steps);
    NothingOwed(End(start, steps).requests);
  }

  // ---------------------------------------------------------------------------
  // Changes
  // ---------------------------------------------------------------------------

  /** A write-family request other than FSYNC makes its change at most once, exactly once when it is
      answered with success, and never when the dispatcher answers `EINTR`. */
  lemma ChangeMadeOnce(start: State, steps: seq<Step>, u: Unique)
    requires Init(start) && Runs(start, steps)
    requires u in End(start, steps).requests
    requires var q := End(start, steps).requests[u].request; q == Link || (q.Modify? && q.kind != Fsync)
    ensures var r := End(start, steps).requests[u];
            && r.applied <= 1
            && (r.answer.Some? && r.answer.value.Success? ==> r.applied == 1)
            && (r.answer == Some(Error(Eintr)) ==> r.applied == 0)
  {
    InitInv(start);
    RunInv(start, steps);
    assert Good(End(start, steps).requests[u]);
  }

  /** A request goes through some events of its own. */
  ghost predicate Goes(r: RequestState, events: seq<Event>)
    decreases |events|
  {
    events == [] || (Enabled(r, events[0]) && Goes(After(r, events[0]).0, events[1..]))
  }

  ghost function Gone(r: RequestState, events: seq<Event>): RequestState
    requires Goes(r, events)
    decreases |events|
  {
    if events == [] then r else Gone(After(r, events[0]).0, events[1..])
  }

  ghost function Effects(r: RequestState, events: seq<Event>): seq<Effect>
    requires Goes(r, events)
    decreases |events|
  {
    if events == [] then [] else [After(r, events[0]).1] + Effects(After(r, events[0]).0, events[1..])
  }

  /** Past every race. */
  predicate PastRaces(r: RequestState) {
    r.phase.Completing? || r.phase.Sending? || r.phase.Replied? || r.phase.Done?
  }

  lemma MarkedCompletion(r: RequestState, result: ProviderResult)
    requires r.phase.Completing? && !result.WouldFetch?
    ensures Finishing(r, result).0.phase.Sending?
    ensures Finishing(r.(interrupted := true), result) ==
            (Finishing(r, result).0.(interrupted := true), Finishing(r, result).1)
  {
  }

  lemma MarkedDelivery(r: RequestState, outcome: SendOutcome)
    requires r.phase.Sending?
    ensures PastRaces(Delivering(r, outcome).0)
    ensures Delivering(r.(interrupted := true), outcome) ==
            (Delivering(r, outcome).0.(interrupted := true), Delivering(r, outcome).1)
  {
  }

  lemma MarkedStep(r: RequestState, e: Event)
    requires PastRaces(r)
    ensures Enabled(r, e) <==> Enabled(r.(interrupted := true), e)
    ensures Enabled(r, e) ==>
              && PastRaces(After(r, e).0)
              && After(r.(interrupted := true), e) == (After(r, e).0.(interrupted := true), After(r, e).1)
  {
    match e
    case Finished(result) => if r.phase.Completing? && !result.WouldFetch? { MarkedCompletion(r, result); }
    case Delivered(outcome) => if r.phase.Sending? { MarkedDelivery(r, outcome); }
    case _ =>
  }

  lemma {:induction false} MarkedCourse(r: RequestState, events: seq<Event>)
    requires PastRaces(r)
    ensures Goes(r, events) <==> Goes(r.(interrupted := true), events)
    ensures Goes(r, events) ==>
              && Gone(r.(interrupted := true), events) == Gone(r, events).(interrupted := true)
              && Effects(r.(interrupted := true), events) == Effects(r, events)
    decreases |events|
  {
    if events != [] {
      MarkedStep(r, events[0]);
      if Enabled(r, events[0]) { MarkedCourse(After(r, events[0]).0, events[1..]); }
    }
  }

  /** An INTERRUPT that arrives while a deferred write completes finds it, and changes nothing about
      how it ends: the same courses of events are open to the write, with the same replies, changes
      and effects on the lookups. */
  lemma InterruptDuringCompletion(s: State, i: Unique, u: Unique, events: seq<Event>)
    requires Inv(s) && u in s.requests && s.requests[u].phase.Completing?
    requires i in s.requests && s.requests[i].phase.Received? && s.requests[i].request == Interrupt(u)
    ensures CanStep(s, Own(i, Dispatched(true))) && NotAnswered(StepOwn(s, i, Dispatched(true)).requests[i])
    ensures var r, marked := s.requests[u], StepOwn(s, i, Dispatched(true)).requests[u];
            && (Goes(r, events) <==> Goes(marked, events))
            && (Goes(r, events) ==>
                  && Effects(marked, events) == Effects(r, events)
                  && Gone(marked, events) == Gone(r, events).(interrupted := true))
  {
    assert Good(s.requests[u]) && Good(s.requests[i]);
    assert StepOwn(s, i, Dispatched(true)).requests[u] == s.requests[u].(interrupted := true);
    MarkedCourse(s.requests[u], events);
  }
}
