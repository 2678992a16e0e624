/** In-flight request tracking for INTERRUPT: one slot for each worker, holding the unique of the
    request it serves. The class is the source's own form; the step model below it interleaves the
    single loads, stores and notifications of workers and INTERRUPT handlers, under sequential
    consistency. */
module InterruptSlots {
  import opened Wrappers

  // ---------------------------------------------------------------------------
  // The slots, one call at a time
  // ---------------------------------------------------------------------------

  class InFlightSlots {
    /** 0 for an idle slot. */
    const unique: array<nat>
    const interrupted: array<nat>
    /** How often each slot's waiters have been notified. */
    const notified: array<nat>

    ghost predicate Valid()
      reads this
    {
      && unique.Length == interrupted.Length == notified.Length
      && unique != interrupted && unique != notified && interrupted != notified
    }

    constructor (workers: nat)
      ensures Valid() && fresh(unique) && fresh(interrupted) && fresh(notified)
      ensures unique.Length == workers
      ensures forall i :: 0 <= i < workers ==> unique[i] == 0 && interrupted[i] == 0 && notified[i] == 0
    {
      unique := new nat[workers](_ => 0);
      interrupted := new nat[workers](_ => 0);
      notified := new nat[workers](_ => 0);
    }

    /** The slots of a state of the step model below. */
    ghost predicate Shows(s: State)
      requires Valid()
      reads this, unique, interrupted
    {
      && |s.slots| == unique.Length
      && forall i :: 0 <= i < |s.slots| ==> s.slots[i].unique == unique[i] && s.slots[i].interrupted == interrupted[i]
    }

    /** Claims `worker`'s slot: the step of a worker that begins a request. */
    method Begin(worker: nat, u: nat)
      requires Valid() && worker < unique.Length
      modifies unique
      ensures unique[..] == old(unique[..])[worker := u]
      ensures forall s :: old(Shows(s)) && Enabled(s, Step.Begin(worker, u)) ==> Shows(Apply(s, Step.Begin(worker, u)))
    {
      unique[worker] := u;
      forall s | old(Shows(s)) && Enabled(s, Step.Begin(worker, u)) ensures Shows(Apply(s, Step.Begin(worker, u))) {
        var slots := Apply(s, Step.Begin(worker, u)).slots;
        assert forall i :: 0 <= i < |slots| && i != worker ==> slots[i] == s.slots[i];
      }
    }

    /** `SlotGuard`'s drop: the step of a worker that leaves a request. */
    method Drop(worker: nat)
      requires Valid() && worker < unique.Length
      modifies unique
      ensures unique[..] == old(unique[..])[worker := 0]
      ensures forall s :: old(Shows(s)) && Enabled(s, Clear(worker)) ==> Shows(Apply(s, Clear(worker)))
    {
      unique[worker] := 0;
      forall s | old(Shows(s)) && Enabled(s, Clear(worker)) ensures Shows(Apply(s, Clear(worker))) {
        var slots := Apply(s, Clear(worker)).slots;
        assert forall i :: 0 <= i < |slots| && i != worker ==> slots[i] == s.slots[i];
      }
    }

    /** Flags and notifies the first slot that holds `u`, and says whether there was one. The
        sentinel 0 finds none, not even an idle slot. */
    method Interrupt(u: nat) returns (found: bool)
      requires Valid()
      modifies interrupted, notified
      ensures found <==> u != 0 && u in unique[..]
      ensures !found ==> interrupted[..] == old(interrupted[..]) && notified[..] == old(notified[..])
      ensures found ==> exists i :: && 0 <= i < unique.Length && unique[i] == u && u !in unique[..i]
                                    && interrupted[..] == old(interrupted[..])[i := u]
                                    && notified[..] == old(notified[..])[i := old(notified[i]) + 1]
      // The handler of the step model, run without a break.
      ensures forall s, h {:trigger Interrupting(s, h, u)} :: old(Shows(s)) && h !in s.handlers ==>
                && Shows(Interrupting(s, h, u))
                && Interrupting(s, h, u).handlers[h].Finished?
                && (found <==> Interrupting(s, h, u).handlers[h].at.Some?)
    {
      if u == 0 { return false; }
      for i := 0 to unique.Length
        invariant u !in unique[..i]
        invariant interrupted[..] == old(interrupted[..]) && notified[..] == old(notified[..])
      {
        if unique[i] == u {
          interrupted[i] := u;
          notified[i] := notified[i] + 1;
          forall s | old(Shows(s)) ensures FirstHolding(s, u, 0) == Some(i) { FirstHoldingIs(s, u, 0); }
          return true;
        }
      }
      assert unique[..unique.Length] == unique[..];
      forall s | old(Shows(s)) ensures FirstHolding(s, u, 0) == None { FirstHoldingIs(s, u, 0); }
      found := false;
    }
  }

  // ---------------------------------------------------------------------------
  // Steps
  // ---------------------------------------------------------------------------

  /** What let `SlotGuard::interrupted` return: the stored unique, or a notification by the handler
      of the unique given. */
  datatype Cause = Flag | Notified(target: nat)

  /** Where a worker stands with the request it serves. `woken` is the handler, by the unique it was
      after, that has notified the registered waiter. */
  datatype Place =
    | Off
    | Begun(u: nat)
    | Registered(u: nat, woken: Option<nat>)
    | Waiting(u: nat, woken: Option<nat>)
    | Resolved(u: nat, cause: Cause)
    /** The race is over and the waiter gone; the guard is not dropped yet. */
    | Leaving(u: nat)

  datatype Slot = Slot(unique: nat, interrupted: nat, place: Place)

  /** An INTERRUPT handler: scanning from slot `i`, then the three steps on the slot it matched. */
  datatype Handler =
    | Scanning(u: nat, i: nat)
    | Matched(u: nat, i: nat)
    | Flagged(u: nat, i: nat)
    | Finished(u: nat, at: Option<nat>)

  datatype State = State(
    slots: seq<Slot>,
    handlers: map<nat, Handler>,
    /** The uniques of all requests so far. */
    used: set<nat>,
    /** The uniques that a handler has found in a slot. */
    matched: set<nat>,
    /** Requests whose stored interruption a handler of another unique has overwritten. */
    clobbered: set<nat>)

  datatype Step =
    | Begin(w: nat, u: nat)
    | Register(w: nat)
    | Check(w: nat)
    | Wake(w: nat)
    | Leave(w: nat)
    | Clear(w: nat)
    | Start(h: nat, u: nat)
    | Load(h: nat)
    | StoreFlag(h: nat)
    | Notify(h: nat)

  predicate Racing(p: Place) {
    p.Begun? || p.Registered? || p.Waiting? || p.Resolved?
  }

  predicate Enabled(s: State, step: Step) {
    match step
    case Begin(w, u) => w < |s.slots| && s.slots[w].place.Off? && u != 0 && u !in s.used
    case Register(w) => w < |s.slots| && s.slots[w].place.Begun?
    case Check(w) => w < |s.slots| && s.slots[w].place.Registered?
    case Wake(w) => w < |s.slots| && s.slots[w].place.Waiting? && s.slots[w].place.woken.Some?
    case Leave(w) => w < |s.slots| && Racing(s.slots[w].place)
    case Clear(w) => w < |s.slots| && s.slots[w].place.Leaving?
    case Start(h, _) => h !in s.handlers
    case Load(h) => h in s.handlers && s.handlers[h].Scanning?
    case StoreFlag(h) => h in s.handlers && s.handlers[h].Matched? && s.handlers[h].i < |s.slots|
    case Notify(h) => h in s.handlers && s.handlers[h].Flagged? && s.handlers[h].i < |s.slots|
  }

  function Placed(s: State, w: nat, place: Place): State
    requires w < |s.slots|
  {
    s.(slots := s.slots[w := s.slots[w].(place := place)])
  }

  /** `notify_waiters` wakes the waiter if one is registered. */
  function Woken(p: Place, target: nat): Place {
    match p
    case Registered(u, woken) => Registered(u, if woken.Some? then woken else Some(target))
    case Waiting(u, woken) => Waiting(u, if woken.Some? then woken else Some(target))
    case _ => p
  }

  function Apply(s: State, step: Step): State
    requires Enabled(s, step)
  {
    match step
    case Begin(w, u) => s.(slots := s.slots[w := s.slots[w].(unique := u, place := Begun(u))], used := s.used + {u})
    case Register(w) => Placed(s, w, Registered(s.slots[w].place.u, None))
    case Check(w) =>
      var p := s.slots[w].place;
      Placed(s, w, if s.slots[w].interrupted == p.u then Resolved(p.u, Flag) else Waiting(p.u, p.woken))
    case Wake(w) => Placed(s, w, Resolved(s.slots[w].place.u, Notified(s.slots[w].place.woken.value)))
    case Leave(w) => Placed(s, w, Leaving(s.slots[w].place.u))
    case Clear(w) => s.(slots := s.slots[w := s.slots[w].(unique := 0, place := Off)])
    case Start(h, u) => s.(handlers := s.handlers[h := if u == 0 then Finished(0, None) else Scanning(u, 0)])
    case Load(h) =>
      var u, i := s.handlers[h].u, s.handlers[h].i;
      if i >= |s.slots| then s.(handlers := s.handlers[h := Finished(u, None)])
      else if s.slots[i].unique == u then s.(handlers := s.handlers[h := Matched(u, i)], matched := s.matched + {u})
      else s.(handlers := s.handlers[h := Scanning(u, i + 1)])
    case StoreFlag(h) =>
      var u, i := s.handlers[h].u, s.handlers[h].i;
      var slot := s.slots[i];
      s.(handlers := s.handlers[h := Flagged(u, i)],
         slots := s.slots[i := slot.(interrupted := u)],
         clobbered := if slot.unique != 0 && slot.unique != u && slot.interrupted == slot.unique
                      then s.clobbered + {slot.unique} else s.clobbered)
    case Notify(h) =>
      var u, i := s.handlers[h].u, s.handlers[h].i;
      var slot := s.slots[i];
      s.(handlers := s.handlers[h := Finished(u, Some(i))],
         slots := s.slots[i := slot.(place := Woken(slot.place, u))])
  }

  /** The first slot from the `i`th on that holds `u`. */
  function FirstHolding(s: State, u: nat, i: nat): (at: Option<nat>)
    ensures at.Some? ==> i <= at.value < |s.slots|
    decreases |s.slots| - i
  {
    if i >= |s.slots| then None else if s.slots[i].unique == u then Some(i) else FirstHolding(s, u, i + 1)
  }

  lemma {:induction false} FirstHoldingIs(s: State, u: nat, i: nat)
    ensures match FirstHolding(s, u, i)
            case None => forall j :: i <= j < |s.slots| ==> s.slots[j].unique != u
            case Some(at) => i <= at < |s.slots| && s.slots[at].unique == u && forall j :: i <= j < at ==>
                s.slots[j].unique != u
    decreases |s.slots| - i
  {
    if i < |s.slots| && s.slots[i].unique != u { FirstHoldingIs(s, u, i + 1); }
  }

  /** What handler `h` of `u` does when nothing comes between its steps. */
  function Interrupting(s: State, h: nat, u: nat): State {
    var at := if u == 0 then None else FirstHolding(s, u, 0);
    if at.None? then s.(handlers := s.handlers[h := Finished(u, None)])
    else
      var slot := s.slots[at.value];
      s.(handlers := s.handlers[h := Finished(u, at)],
         matched := s.matched + {u},
         slots := s.slots[at.value := slot.(interrupted := u, place := Woken(slot.place, u))])
  }

  ghost predicate Runs(s: State, steps: seq<Step>)
    decreases |steps|
  {
    steps == [] || (Enabled(s, steps[0]) && Runs(Apply(s, steps[0]), steps[1..]))
  }

  ghost function End(s: State, steps: seq<Step>): State
    requires Runs(s, steps)
    decreases |steps|
  {
    if steps == [] then s else End(Apply(s, steps[0]), steps[1..])
  }

  function Initial(workers: nat): State {
    State(seq(workers, _ => Slot(0, 0, Off)), map[], {}, {}, {})
  }

  // ---------------------------------------------------------------------------
  // Every interleaving
  // ---------------------------------------------------------------------------

  /** The request a worker holds a guard for. */
  function Held(p: Place): nat {
    if p.Off? then 0 else p.u
  }

  ghost predicate SlotInv(s: State, slot: Slot) {
    && slot.unique == Held(slot.place)
    && (slot.unique == 0 || slot.unique in s.used) && (slot.place.Off? <==> slot.unique == 0)
    && (slot.interrupted == 0 || slot.interrupted in s.matched)
    && (slot.place.Resolved? && slot.place.cause.Flag? ==> slot.unique in s.matched)
    && (slot.place.Resolved? && slot.place.cause.Notified? ==> slot.place.cause.target in s.matched)
    && ((slot.place.Registered? || slot.place.Waiting?) && slot.place.woken.Some? ==>
        slot.place.woken.value in s.matched)
  }

  /** The slot handler `h` matched: no other slot holds its unique, then or later. */
  ghost predicate Pinned(s: State, u: nat, i: nat) {
    && i < |s.slots| && u in s.matched
    && forall j :: 0 <= j < |s.slots| && s.slots[j].unique == u ==> j == i
  }

  /** The interruption of `u` is still stored in its slot, or was overwritten. */
  ghost predicate Recorded(s: State, u: nat, i: nat)
    requires i < |s.slots|
  {
    s.slots[i].unique == u ==> s.slots[i].interrupted == u || u in s.clobbered
  }

  ghost predicate HandlerInv(s: State, h: Handler) {
    match h
    case Scanning(u, _) => u != 0
    case Matched(u, i) => u != 0 && Pinned(s, u, i)
    case Flagged(u, i) => u != 0 && Pinned(s, u, i) && Recorded(s, u, i)
    case Finished(u, at) =>
      at.Some? ==>
        && u != 0 && Pinned(s, u, at.value) && Recorded(s, u, at.value)
        && (s.slots[at.value].place == Waiting(u, None) ==> u in s.clobbered)
  }

  ghost predicate Distinct(s: State) {
    forall i, j :: 0 <= i < j < |s.slots| && s.slots[i].unique == s.slots[j].unique ==> s.slots[i].unique == 0
  }

  ghost predicate Inv(s: State) {
    && (forall i :: 0 <= i < |s.slots| ==> SlotInv(s, s.slots[i]))
    && (forall h :: h in s.handlers ==> HandlerInv(s, s.handlers[h]))
    && Distinct(s)
    && s.matched <= s.used
  }

  lemma WorkerStep(s: State, step: Step)
    requires Inv(s) && Enabled(s, step)
    requires step.Begin? || step.Register? || step.Check? || step.Wake? || step.Leave? || step.Clear?
    ensures Inv(Apply(s, step))
  {
    var s' := Apply(s, step);
    assert SlotInv(s, s.slots[step.w]);
    assert SlotInv(s', s'.slots[step.w]);
    WorkerFrame(s, s', step.w);
  }

  /** A worker changes its own slot only, and takes a unique only if it is new. */
  lemma WorkerFrame(s: State, s': State, w: nat)
    requires Inv(s) && w < |s.slots| == |s'.slots| && s' == s.(slots := s.slots[w := s'.slots[w]], used := s'.used)
    requires s.used <= s'.used && SlotInv(s', s'.slots[w])
    requires s'.slots[w].interrupted == s.slots[w].interrupted
    requires s'.slots[w].unique in {0, s.slots[w].unique} || s'.slots[w].unique !in s.used
    requires s'.slots[w].place.Waiting? && s'.slots[w].place.woken.None? ==>
               s.slots[w].unique == s'.slots[w].unique && s.slots[w].interrupted != s.slots[w].unique
    ensures Inv(s')
  {
    forall i | 0 <= i < |s'.slots| ensures SlotInv(s', s'.slots[i]) { if i != w { assert SlotInv(s, s.slots[i]); } }
    forall h | h in s'.handlers ensures HandlerInv(s', s'.handlers[h]) { assert HandlerInv(s, s.handlers[h]); }
  }

  lemma HandlerStep(s: State, step: Step)
    requires Inv(s) && Enabled(s, step)
    requires step.Start? || step.Load? || step.StoreFlag? || step.Notify?
    ensures Inv(Apply(s, step))
  {
    var s' := Apply(s, step);
    if !step.Start? { assert HandlerInv(s, s.handlers[step.h]); }
    forall i | 0 <= i < |s'.slots| ensures SlotInv(s', s'.slots[i]) { assert SlotInv(s, s.slots[i]); }
    forall h | h in s'.handlers ensures HandlerInv(s', s'.handlers[h]) {
      if h != step.h { assert HandlerInv(s, s.handlers[h]); }
    }
  }

  lemma StepInv(s: State, step: Step)
    requires Inv(s) && Enabled(s, step)
    ensures Inv(Apply(s, step))
  {
    if step.Start? || step.Load? || step.StoreFlag? || step.Notify? { HandlerStep(s, step); }
        else { WorkerStep(s, step); }
  }

  lemma {:induction false} RunInv(s: State, steps: seq<Step>)
    requires Inv(s) && Runs(s, steps)
    ensures Inv(End(s, steps))
    decreases |steps|
  {
    if steps != [] {
      StepInv(s, steps[0]);
      RunInv(Apply(s, steps[0]), steps[1..]);
    }
  }

  /** In every interleaving, overlapping handlers included: once `interrupt(u)` has returned true and
      while the guard for `u` is held, its waiter waits unnotified only if the handler of another
      request overwrote the stored unique. */
  lemma LostOnlyIfClobbered(workers: nat, steps: seq<Step>, h: nat)
    requires Runs(Initial(workers), steps)
    requires var s := End(Initial(workers), steps);
             h in s.handlers && s.handlers[h].Finished? && s.handlers[h].at.Some?
    ensures var s := End(Initial(workers), steps);
            var u, i := s.handlers[h].u, s.handlers[h].at.value;
            && i < |s.slots|
            && (s.slots[i].unique == u && u !in s.clobbered ==>
                  s.slots[i].interrupted == u && s.slots[i].place != Waiting(u, None))
  {
    RunInv(Initial(workers), steps);
    assert HandlerInv(End(Initial(workers), steps), End(Initial(workers), steps).handlers[h]);
  }

  /** A request resolves only through a handler that found a request: by the stored unique only if
      it was this one. */
  lemma ResolvedOnlyThroughAMatch(workers: nat, steps: seq<Step>, w: nat)
    requires Runs(Initial(workers), steps)
    requires var s := End(Initial(workers), steps);
             w < |s.slots| && s.slots[w].place.Resolved?
    ensures var s := End(Initial(workers), steps);
            var p := s.slots[w].place;
            match p.cause
            case Flag => p.u in s.matched
            case Notified(target) => target in s.matched
  {
    RunInv(Initial(workers), steps);
    assert SlotInv(End(Initial(workers), steps), End(Initial(workers), steps).slots[w]);
  }

  // ---------------------------------------------------------------------------
  // Handlers that do not overlap
  // ---------------------------------------------------------------------------

  ghost predicate AllFinished(s: State) {
    forall h :: h in s.handlers ==> s.handlers[h].Finished?
  }

  /** A run in which a handler starts only once every earlier one has returned. */
  ghost predicate Serial(s: State, steps: seq<Step>)
    requires Runs(s, steps)
    decreases |steps|
  {
    steps == [] || ((steps[0].Start? ==> AllFinished(s)) && Serial(Apply(s, steps[0]), steps[1..]))
  }

  ghost predicate SerialInv(s: State) {
    && s.clobbered == {}
    && (forall h, h' ::
          h in s.handlers && h' in s.handlers && !s.handlers[h].Finished? && !s.handlers[h'].Finished? ==> h == h')
    // Whoever holds the slot a handler is about to flag has not been interrupted yet.
    && (forall h :: h in s.handlers && s.handlers[h].Matched? && s.handlers[h].i < |s.slots| ==>
          var slot := s.slots[s.handlers[h].i];
          slot.unique != s.handlers[h].u && slot.unique != 0 ==> slot.interrupted != slot.unique)
  }

  lemma SerialStep(s: State, step: Step)
    requires Inv(s) && SerialInv(s) && Enabled(s, step) && (step.Start? ==> AllFinished(s))
    ensures SerialInv(Apply(s, step))
  {
    var s' := Apply(s, step);
    if step.Begin? { assert SlotInv(s, s.slots[step.w]); }
    if step.StoreFlag? { assert SlotInv(s, s.slots[s.handlers[step.h].i]); assert HandlerInv(s, s.handlers[step.h]); }
  }

  lemma {:induction false} SerialRun(s: State, steps: seq<Step>)
    requires Inv(s) && SerialInv(s) && Runs(s, steps) && Serial(s, steps)
    ensures SerialInv(End(s, steps))
    decreases |steps|
  {
    if steps != [] {
      StepInv(s, steps[0]);
      SerialStep(s, steps[0]);
      SerialRun(Apply(s, steps[0]), steps[1..]);
    }
  }

  /** No lost interrupt: with handlers that do not overlap each other, once `interrupt(u)` has
      returned true and while the guard for `u` is held, the waiter is notified if it waits, and if
      it does not wait yet the stored unique makes its check return. */
  lemma NoLostInterrupt(workers: nat, steps: seq<Step>, h: nat)
    requires Runs(Initial(workers), steps) && Serial(Initial(workers), steps)
    requires var s := End(Initial(workers), steps);
             h in s.handlers && s.handlers[h].Finished? && s.handlers[h].at.Some?
    ensures var s := End(Initial(workers), steps);
            var u, i := s.handlers[h].u, s.handlers[h].at.value;
            && i < |s.slots|
            && (s.slots[i].unique == u ==>
                  s.slots[i].interrupted == u && s.slots[i].place != Waiting(u, None))
  {
    SerialRun(Initial(workers), steps);
    LostOnlyIfClobbered(workers, steps, h);
  }

  // ---------------------------------------------------------------------------
  // What does go wrong, and exactly when
  // ---------------------------------------------------------------------------

  /** A run extended by one step. */
  lemma {:induction false} Then(s: State, steps: seq<Step>, step: Step) returns (more: seq<Step>)
    requires Runs(s, steps) && Enabled(End(s, steps), step)
    ensures more == steps + [step] && Runs(s, more) && End(s, more) == Apply(End(s, steps), step)
    ensures Serial(s, steps) && (step.Start? ==> AllFinished(End(s, steps))) ==> Serial(s, more)
    decreases |steps|
  {
    more := steps + [step];
    if steps == [] {
      assert more[1..] == [];
    } else {
      var rest := Then(Apply(s, steps[0]), steps[1..], step);
      assert more[1..] == rest;
    }
  }

  /** Every step is one of handler `h`. */
  ghost predicate OnlyHandler(steps: seq<Step>, h: nat) {
    forall k :: 0 <= k < |steps| ==>
        steps[k] in {Load(h), StoreFlag(h), Notify(h)} || (steps[k].Start? && steps[k].h == h)
  }

  lemma {:induction false} Scans(s: State, h: nat, u: nat, i: nat) returns (steps: seq<Step>)
    requires h in s.handlers && s.handlers[h] == Scanning(u, i)
    ensures Runs(s, steps) && OnlyHandler(steps, h)
    ensures var at := FirstHolding(s, u, i);
            End(s, steps) == if at.None? then s.(handlers := s.handlers[h := Finished(u, None)])
                             else s.(handlers := s.handlers[h := Matched(u, at.value)], matched := s.matched + {u})
    decreases |s.slots| - i
  {
    steps := Then(s, [], Load(h));
    if i < |s.slots| && s.slots[i].unique != u {
      var next := Apply(s, Load(h));
      var rest := Scans(next, h, u, i + 1);
      FirstHoldingFrame(s, next, u, i + 1);
      Continue(s, steps, rest);
      steps := steps + rest;
      assert next.handlers[h := Finished(u, None)] == s.handlers[h := Finished(u, None)];
      forall j: nat ensures next.handlers[h := Matched(u, j)] == s.handlers[h := Matched(u, j)] {}
    }
  }

  lemma {:induction false} FirstHoldingFrame(s: State, s': State, u: nat, i: nat)
    requires s.slots == s'.slots
    ensures FirstHolding(s, u, i) == FirstHolding(s', u, i)
    decreases |s.slots| - i
  {
    if i < |s.slots| { FirstHoldingFrame(s, s', u, i + 1); }
  }

  lemma FlagsAndNotifies(s: State, h: nat, u: nat, at: nat) returns (steps: seq<Step>)
    requires h in s.handlers && s.handlers[h] == Matched(u, at) && at < |s.slots| && s.slots[at].unique == u
    ensures Runs(s, steps) && OnlyHandler(steps, h)
    ensures End(s, steps) == s.(handlers := s.handlers[h := Finished(u, Some(at))],
                                slots := s.slots[at := s.slots[at].(interrupted := u, place := Woken(s.slots[at].place,
                                    u))])
  {
    steps := Then(s, [], StoreFlag(h));
    steps := Then(s, steps, Notify(h));
  }

  /** `InFlightSlots.Interrupt` is a run of the handler's own steps: the start, a load of each slot up
      to the one it finds, the store and the notification. */
  lemma InterruptIsARun(s: State, h: nat, u: nat) returns (steps: seq<Step>)
    requires h !in s.handlers
    ensures Runs(s, steps) && OnlyHandler(steps, h)
    ensures End(s, steps) == Interrupting(s, h, u)
  {
    steps := Then(s, [], Start(h, u));
    var started := End(s, steps);
    if u != 0 {
      var scan := Scans(started, h, u, 0);
      FirstHoldingFrame(s, started, u, 0);
      FirstHoldingIs(s, u, 0);
      Continue(s, steps, scan);
      steps := steps + scan;
      if FirstHolding(s, u, 0).Some? {
        var more := FlagsAndNotifies(End(s, steps), h, u, FirstHolding(s, u, 0).value);
        Continue(s, steps, more);
        steps := steps + more;
      }
    }
  }

  lemma {:induction false} Continue(s: State, steps: seq<Step>, more: seq<Step>)
    requires Runs(s, steps) && Runs(End(s, steps), more)
    ensures Runs(s, steps + more) && End(s, steps + more) == End(End(s, steps), more)
    ensures Serial(s, steps) && Serial(End(s, steps), more) ==> Serial(s, steps + more)
    decreases |steps|
  {
    if steps == [] {
      assert steps + more == more;
    } else {
      assert (steps + more)[1..] == steps[1..] + more;
      Continue(Apply(s, steps[0]), steps[1..], more);
    }
  }

  /** A handler has found a request in slot `w` and has yet to notify it. */
  predicate Pending(h: Handler, w: nat) {
    (h.Matched? || h.Flagged?) && h.i == w
  }

  ghost predicate AnyPending(s: State, w: nat) {
    exists h :: h in s.handlers && Pending(s.handlers[h], w)
  }

  /** Not woken yet. */
  predicate Unwoken(p: Place, u: nat) {
    p == Begun(u) || p == Registered(u, None) || p == Waiting(u, None)
  }

  /** Some continuation resolves `u` in slot `w` although no INTERRUPT has found it. */
  ghost predicate MayResolveUnmatched(s: State, w: nat, u: nat) {
    exists steps :: Runs(s, steps) && ResolvedUnmatched(End(s, steps), w, u)
  }

  ghost predicate ResolvedUnmatched(s: State, w: nat, u: nat) {
    w < |s.slots| && s.slots[w].place.Resolved? && s.slots[w].place.u == u && u !in s.matched
  }

  /** Nothing can wake `u` in slot `w` unless an INTERRUPT finds it, or it is over. */
  ghost predicate Undisturbed(s: State, w: nat, u: nat) {
    && w < |s.slots| && u in s.used
    && (u in s.matched || s.slots[w].unique != u
        || ((Unwoken(s.slots[w].place, u) || s.slots[w].place.Leaving?) && !AnyPending(s, w)))
  }

  lemma UndisturbedStep(s: State, step: Step, w: nat, u: nat)
    requires Inv(s) && u != 0 && Undisturbed(s, w, u) && Enabled(s, step)
    ensures Undisturbed(Apply(s, step), w, u)
  {
    var s' := Apply(s, step);
    assert SlotInv(s, s.slots[w]);
    forall h | h in s'.handlers && Pending(s'.handlers[h], w) && u !in s'.matched && s'.slots[w].unique == u
      ensures h in s.handlers && Pending(s.handlers[h], w)
    {
    }
  }

  lemma {:induction false} UndisturbedRun(s: State, steps: seq<Step>, w: nat, u: nat)
    requires Inv(s) && u != 0 && Undisturbed(s, w, u) && Runs(s, steps)
    ensures Undisturbed(End(s, steps), w, u)
    decreases |steps|
  {
    if steps != [] {
      UndisturbedStep(s, steps[0], w, u);
      StepInv(s, steps[0]);
      UndisturbedRun(Apply(s, steps[0]), steps[1..], w, u);
    }
  }

  /** The waiter of a request no INTERRUPT has found comes to wait. */
  lemma ComesToWait(s: State, w: nat, u: nat) returns (steps: seq<Step>)
    requires Inv(s) && w < |s.slots| && Unwoken(s.slots[w].place, u) && s.slots[w].interrupted != u
    ensures Runs(s, steps) && Serial(s, steps) && End(s, steps) == Placed(s, w, Waiting(u, None))
  {
    steps := [];
    if s.slots[w].place.Begun? { steps := Then(s, steps, Register(w)); }
    if !s.slots[w].place.Waiting? { steps := Then(s, steps, Check(w)); }
    assert s.slots[w := s.slots[w].(place := Waiting(u, None))] == Placed(s, w, Waiting(u, None)).slots;
  }

  /** A handler that has found a request in the slot finishes. */
  lemma HandlerFinishes(s: State, h: nat, w: nat) returns (steps: seq<Step>)
    requires h in s.handlers && Pending(s.handlers[h], w) && w < |s.slots|
    ensures Runs(s, steps) && Serial(s, steps)
    ensures var v, slot, end := s.handlers[h].u, s.slots[w], End(s, steps);
            && end.handlers == s.handlers[h := Finished(v, Some(w))]
            && end.slots == s.slots[w := slot.(interrupted := if s.handlers[h].Matched? then v else slot.interrupted,
                                               place := Woken(slot.place, v))]
            && end.used == s.used && end.matched == s.matched
  {
    steps := [];
    if s.handlers[h].Matched? { steps := Then(s, steps, StoreFlag(h)); }
    steps := Then(s, steps, Notify(h));
  }

  lemma PendingWakes(s: State, w: nat, u: nat, h: nat) returns (steps: seq<Step>)
    requires Inv(s) && w < |s.slots| && Unwoken(s.slots[w].place, u) && u !in s.matched
    requires h in s.handlers && Pending(s.handlers[h], w)
    ensures Runs(s, steps) && Serial(s, steps) && ResolvedUnmatched(End(s, steps), w, u)
    ensures End(s, steps).slots[w].place == Resolved(u, Notified(s.handlers[h].u))
  {
    assert SlotInv(s, s.slots[w]);
    steps := ComesToWait(s, w, u);
    var finish := HandlerFinishes(End(s, steps), h, w);
    Continue(s, steps, finish);
    steps := Then(s, steps + finish, Wake(w));
  }

  /** A request that no INTERRUPT has found, and that has not been woken, may resolve exactly when a
      handler has found an earlier request in its slot and has yet to notify it. Checked when a
      worker begins a request, this says whether the wait of that request can be cut short. */
  lemma StrayWakeupIff(s: State, w: nat, u: nat)
    requires Inv(s) && w < |s.slots| && Unwoken(s.slots[w].place, u) && u !in s.matched
    ensures MayResolveUnmatched(s, w, u) <==> AnyPending(s, w)
  {
    assert SlotInv(s, s.slots[w]);
    if AnyPending(s, w) {
      var h :| h in s.handlers && Pending(s.handlers[h], w);
      var steps := PendingWakes(s, w, u, h);
    } else {
      forall steps | Runs(s, steps) ensures !ResolvedUnmatched(End(s, steps), w, u) {
        UndisturbedRun(s, steps, w, u);
        RunInv(s, steps);
      }
    }
  }

  // ---------------------------------------------------------------------------
  // Lost interruptions
  // ---------------------------------------------------------------------------

  /** The waiter of `u` waits unnotified, and no handler is about to notify its slot. */
  ghost predicate Lost(s: State, w: nat, u: nat) {
    w < |s.slots| && s.slots[w].place == Waiting(u, None) && !AnyPending(s, w)
  }

  ghost predicate MayBeLost(s: State, w: nat, u: nat) {
    exists steps :: Runs(s, steps) && Lost(End(s, steps), w, u)
  }

  /** A handler has found another request in slot `w`, where `u` now is, and has yet to store it. */
  ghost predicate Overwriter(s: State, w: nat, u: nat) {
    exists h :: h in s.handlers && s.handlers[h].Matched? && s.handlers[h].i == w && s.handlers[h].u != u
  }

  /** The interruption of `u` is stored and stays so while `u` is there. */
  ghost predicate Kept(s: State, w: nat, u: nat) {
    && w < |s.slots| && u in s.used
    && (s.slots[w].unique == u ==>
          s.slots[w].interrupted == u && s.slots[w].place != Waiting(u, None) && !Overwriter(s, w, u))
  }

  lemma KeptStep(s: State, step: Step, w: nat, u: nat)
    requires Inv(s) && u != 0 && Kept(s, w, u) && Enabled(s, step)
    ensures Kept(Apply(s, step), w, u)
  {
    var s' := Apply(s, step);
    assert SlotInv(s, s.slots[w]);
    forall h | h in s'.handlers && s'.handlers[h].Matched? && s'.handlers[h].i == w && s'.handlers[h].u != u
               && s'.slots[w].unique == u
      ensures h in s.handlers && s.handlers[h] == s'.handlers[h]
    {
    }
  }

  lemma {:induction false} KeptRun(s: State, steps: seq<Step>, w: nat, u: nat)
    requires Inv(s) && u != 0 && Kept(s, w, u) && Runs(s, steps)
    ensures Kept(End(s, steps), w, u)
    decreases |steps|
  {
    if steps != [] {
      KeptStep(s, steps[0], w, u);
      StepInv(s, steps[0]);
      KeptRun(Apply(s, steps[0]), steps[1..], w, u);
    }
  }

  ghost predicate AnyFlagged(s: State, w: nat) {
    exists h :: h in s.handlers && s.handlers[h].Flagged? && s.handlers[h].i == w
  }

  /** The waiter of `u` has registered, and whatever it does not find stored will notify it. */
  ghost predicate Covered(s: State, w: nat, u: nat) {
    && w < |s.slots| && u in s.used
    && (s.slots[w].unique == u ==>
          && !s.slots[w].place.Begun?
          && (s.slots[w].place == Registered(u, None) ==> s.slots[w].interrupted == u || AnyFlagged(s, w))
          && (s.slots[w].place == Waiting(u, None) ==> AnyFlagged(s, w)))
  }

  lemma CoveredStep(s: State, step: Step, w: nat, u: nat)
    requires Inv(s) && u != 0 && Covered(s, w, u) && Enabled(s, step)
    ensures Covered(Apply(s, step), w, u)
  {
    var s' := Apply(s, step);
    assert SlotInv(s, s.slots[w]);
    if AnyFlagged(s, w) {
      var h :| h in s.handlers && s.handlers[h].Flagged? && s.handlers[h].i == w;
      if step != Notify(h) { assert h in s'.handlers && s'.handlers[h] == s.handlers[h]; }
    }
    if step.StoreFlag? && s.handlers[step.h].i == w { assert s'.handlers[step.h].Flagged?; }
  }

  lemma {:induction false} CoveredRun(s: State, steps: seq<Step>, w: nat, u: nat)
    requires Inv(s) && u != 0 && Covered(s, w, u) && Runs(s, steps)
    ensures Covered(End(s, steps), w, u)
    decreases |steps|
  {
    if steps != [] {
      CoveredStep(s, steps[0], w, u);
      StepInv(s, steps[0]);
      CoveredRun(Apply(s, steps[0]), steps[1..], w, u);
    }
  }

  ghost function PendingOthers(s: State, w: nat, h: nat): set<nat> {
    set g | g in s.handlers && g != h && Pending(s.handlers[g], w)
  }

  /** Every other handler with business in the slot finishes before the waiter registers. */
  lemma {:induction false} OthersFinish(s: State, w: nat, u: nat, h: nat) returns (steps: seq<Step>)
    requires w < |s.slots| && s.slots[w].place == Begun(u) && h in s.handlers && s.handlers[h].Matched?
    ensures Runs(s, steps)
    ensures var end := End(s, steps);
            && PendingOthers(end, w, h) == {} && h in end.handlers && end.handlers[h] == s.handlers[h]
            && |end.slots| == |s.slots| && end.slots[w].place == Begun(u)
            && (forall g :: g in s.handlers && s.handlers[g].Finished? ==>
                g in end.handlers && end.handlers[g] == s.handlers[g])
    decreases |PendingOthers(s, w, h)|
  {
    steps := [];
    if PendingOthers(s, w, h) != {} {
      var g :| g in PendingOthers(s, w, h);
      steps := HandlerFinishes(s, g, w);
      assert PendingOthers(End(s, steps), w, h) == PendingOthers(s, w, h) - {g};
      var rest := OthersFinish(End(s, steps), w, u, h);
      Continue(s, steps, rest);
      steps := steps + rest;
    }
  }

  lemma OverwriterLoses(s: State, w: nat, u: nat, h: nat) returns (steps: seq<Step>)
    requires Inv(s) && w < |s.slots| && s.slots[w].place == Begun(u)
    requires h in s.handlers && s.handlers[h].Matched? && s.handlers[h].i == w && s.handlers[h].u != u
    ensures Runs(s, steps) && Lost(End(s, steps), w, u)
    ensures forall g :: g in s.handlers && s.handlers[g].Finished? ==>
              g in End(s, steps).handlers && End(s, steps).handlers[g] == s.handlers[g]
  {
    steps := OthersFinish(s, w, u, h);
    RunInv(s, steps);
    var quiet := End(s, steps);
    var finish := HandlerFinishes(quiet, h, w);
    Continue(s, steps, finish);
    steps := steps + finish;
    RunInv(s, steps);
    var wait := ComesToWait(End(s, steps), w, u);
    Continue(s, steps, wait);
    steps := steps + wait;
    forall g | g in End(s, steps).handlers ensures !Pending(End(s, steps).handlers[g], w) {
      assert g != h && Pending(quiet.handlers[g], w) ==> g in PendingOthers(quiet, w, h);
    }
  }

  /** A stored interruption of a request that has yet to look at it may be lost, the waiter left
      waiting with no handler about to notify it, exactly when its waiter has not registered and a
      handler that found an earlier request in the slot has yet to store that one's unique. */
  lemma LostIff(s: State, w: nat, u: nat)
    requires Inv(s) && w < |s.slots| && s.slots[w].interrupted == u
    requires s.slots[w].place == Begun(u) || s.slots[w].place == Registered(u, None)
    ensures MayBeLost(s, w, u) <==> s.slots[w].place.Begun? && Overwriter(s, w, u)
  {
    assert SlotInv(s, s.slots[w]);
    if s.slots[w].place.Begun? && Overwriter(s, w, u) {
      var h :| h in s.handlers && s.handlers[h].Matched? && s.handlers[h].i == w && s.handlers[h].u != u;
      var steps := OverwriterLoses(s, w, u, h);
    } else {
      forall steps | Runs(s, steps) ensures !Lost(End(s, steps), w, u) { NotLost(s, steps, w, u); }
    }
  }

  lemma NotLost(s: State, steps: seq<Step>, w: nat, u: nat)
    requires Inv(s) && Runs(s, steps) && w < |s.slots| && s.slots[w].interrupted == u
    requires s.slots[w].place == Begun(u) || s.slots[w].place == Registered(u, None)
    requires s.slots[w].place.Registered? || !Overwriter(s, w, u)
    ensures !Lost(End(s, steps), w, u)
  {
    assert SlotInv(s, s.slots[w]);
    RunInv(s, steps);
    if s.slots[w].place.Begun? { KeptRun(s, steps, w, u); } else { CoveredRun(s, steps, w, u); }
    if w < |End(s, steps).slots| { assert SlotInv(End(s, steps), End(s, steps).slots[w]); }
  }

  // ---------------------------------------------------------------------------
  // Runs in which it does
  // ---------------------------------------------------------------------------

  /** The handler of request 1 has found it in the slot, and the worker has moved on to request 2. */
  lemma MovesOn() returns (steps: seq<Step>)
    ensures Runs(Initial(1), steps) && Serial(Initial(1), steps)
    ensures End(Initial(1), steps) == State([Slot(2, 0, Begun(2))], map[0 := Matched(1, 0)], {1, 2}, {1}, {})
  {
    var s := Initial(1);
    steps := Then(s, [], Begin(0, 1));
    steps := Then(s, steps, Start(0, 1));
    steps := Then(s, steps, Load(0));
    steps := Then(s, steps, Leave(0));
    steps := Then(s, steps, Clear(0));
    steps := Then(s, steps, Begin(0, 2));
  }

  /** A second handler has interrupted request 2 meanwhile. */
  lemma InterruptsTheNext() returns (steps: seq<Step>)
    ensures Runs(Initial(1), steps)
    ensures End(Initial(1), steps) ==
            State([Slot(2, 2, Begun(2))], map[0 := Matched(1, 0), 1 := Finished(2, Some(0))], {1, 2}, {1, 2}, {})
  {
    var s := Initial(1);
    steps := MovesOn();
    steps := Then(s, steps, Start(1, 2));
    steps := Then(s, steps, Load(1));
    steps := Then(s, steps, StoreFlag(1));
    steps := Then(s, steps, Notify(1));
  }

  /** Handlers that overlap can lose an interruption for good: the handler of request 1 stores its
      unique after the worker has moved on to request 2 and after request 2 was interrupted, so 2's
      waiter, registered later, finds the wrong unique and waits although its handler returned true. */
  lemma OverlapLosesAnInterrupt() returns (steps: seq<Step>)
    ensures Runs(Initial(1), steps)
    ensures var s := End(Initial(1), steps);
            Lost(s, 0, 2) && 1 in s.handlers && s.handlers[1] == Finished(2, Some(0))
  {
    var s := Initial(1);
    steps := InterruptsTheNext();
    RunInv(s, steps);
    var more := OverwriterLoses(End(s, steps), 0, 2, 0);
    Continue(s, steps, more);
    steps := steps + more;
  }

  /** `interrupted` can resolve a request that no INTERRUPT named, even with a single handler: one
      that matched request 1 notifies the slot when request 2 already waits in it. */
  lemma StrayWakeup() returns (steps: seq<Step>)
    ensures Runs(Initial(1), steps) && Serial(Initial(1), steps)
    ensures ResolvedUnmatched(End(Initial(1), steps), 0, 2)
  {
    var s := Initial(1);
    steps := MovesOn();
    RunInv(s, steps);
    var more := PendingWakes(End(s, steps), 0, 2, 0);
    Continue(s, steps, more);
    steps := steps + more;
  }
}
