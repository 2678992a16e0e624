/** `refresh_user_token` and the store's other operations, run by any number of processes that share
    one token file, with a step for each lock, reload, comparison, take, write, presentation and
    answer, and with cancellations and crashes between any two of them. The file and each process's
    cached map are the finite maps that TokenMap shows the nested lists to stand for. */
module RefreshProtocol {
  import opened Wrappers
  import opened TokenMap
  import opened TokenStore

  type Pid = nat

  /** The operations that change the map and write it back. */
  datatype Change =
    | Login(endpoint: string, token: IdentityToken, policy: RefreshPolicy)
    | RemoveUser(authUrl: string, user: string)
    | RemoveAll(authUrl: string)
    | RemoveWhere(key: Key, removes: string -> bool)

  datatype Call = Refresh(key: Key, expired: string) | Write(change: Change) | Reset

  /** Where a process's current operation stands. The in-process lock is held from `Waiting` on, the
      file lock from `Locked` on, so a process has at most one operation under way. */
  datatype Op =
    | Idle
    | Waiting(call: Call)
    | Locked(call: Call)
    | Reloaded(call: Call)
    | Changed
    | TakenOut(key: Key, expired: string, refresh: string, deadline: nat)
    | Removed(key: Key, expired: string, refresh: string, deadline: nat)
    | Presented(key: Key, expired: string, refresh: string, deadline: nat)
    | Replied(key: Key, expired: string, refresh: string, answer: Refreshed)

  datatype Process = Process(cache: Option<Entries>, op: Op)

  /** What an observer of the run records. */
  datatype Event =
    | Present(refresh: string, key: Key, expired: string)
    | Answer(refresh: string, key: Key, expired: string, answer: Refreshed)
    /** The write of the answer: whether it succeeded. */
    | Stored(refresh: string, ok: bool)
    /** An accepted answer has reached the file. */
    | Accept(key: Key, expired: string, token: string)
    /** The operation ended between the presentation and the write of the answer. */
    | Abandon(refresh: string)
    | LoggedIn(key: Key, token: string)
    /** A refresh ended without a presentation, and what it returned. */
    | Returned(key: Key, expired: string, result: Result<string, RefreshError>)

  datatype State = State(
    file: Option<Entries>,
    lock: Option<Pid>,
    procs: map<Pid, Process>,
    /** Every refresh token that has stood in a map. */
    seen: set<string>,
    log: seq<Event>)

  // ---------------------------------------------------------------------------
  // Steps
  // ---------------------------------------------------------------------------

  function ChangeMap(c: Change, m: Entries): Entries {
    match c
    case Login(endpoint, token, policy) => MapPut(m, Trimmed(endpoint), token, policy)
    case RemoveUser(authUrl, user) => MapStrip(m, Under(Trimmed(authUrl)), user)
    case RemoveAll(authUrl) => MapStripAll(m, Under(Trimmed(authUrl)))
    case RemoveWhere(key, removes) => MapRemoveWhere(m, key, removes)
  }

  /** A removal writes the file only where it removed something; on no map it does nothing. */
  predicate Writes(c: Change, before: Option<Entries>) {
    c.Login? || (before.Some? && exists k :: k in before.value && k !in ChangeMap(c, before.value))
  }

  function OrEmpty(m: Option<Entries>): Entries {
    if m.Some? then m.value else map[]
  }

  /** The refresh token of a login or a rotation has not been seen before. */
  predicate FreshChange(s: State, c: Change) {
    c.Login? && c.token.refresh.Some? ==> c.token.refresh.value !in s.seen
  }

  function SeenIn(c: Change): set<string> {
    if c.Login? && c.token.refresh.Some? then {c.token.refresh.value} else {}
  }

  predicate FreshAnswer(s: State, refresh: string, user: string, answer: Refreshed) {
    Accepted(answer, user) && answer.refresh.Some? ==>
      answer.refresh.value == refresh || answer.refresh.value !in s.seen
  }

  function AnswerSeen(user: string, answer: Refreshed): set<string> {
    if Accepted(answer, user) && answer.refresh.Some? then {answer.refresh.value} else {}
  }

  predicate HoldsLock(op: Op) {
    !op.Idle? && !op.Waiting?
  }

  /** The refresh token an operation has presented and whose answer it has not yet stored. */
  predicate Outstanding(op: Op) {
    op.Presented? || op.Replied?
  }

  /** Process `p` ends its operation with `cache`, releasing what it holds. */
  function Ended(s: State, p: Pid, cache: Option<Entries>): State
    requires p in s.procs
  {
    s.(procs := s.procs[p := Process(cache, Idle)],
       lock := if HoldsLock(s.procs[p].op) then None else s.lock)
  }

  function Moved(s: State, p: Pid, cache: Option<Entries>, op: Op): State {
    s.(procs := s.procs[p := Process(cache, op)])
  }

  function Logged(s: State, e: Event): State {
    s.(log := s.log + [e])
  }

  /** `Ended`, recording the loss of a refresh token that was out. */
  function Cut(s: State, p: Pid, cache: Option<Entries>): State
    requires p in s.procs
  {
    if Outstanding(s.procs[p].op) then Logged(Ended(s, p, cache), Abandon(s.procs[p].op.refresh))
    else Ended(s, p, cache)
  }

  datatype Step =
    | Spawn(p: Pid)
    | Begin(p: Pid, call: Call)
    | Fill(p: Pid)
    | Lock(p: Pid)
    | Reload(p: Pid)
    | DoChange(p: Pid)
    | StoreChange(p: Pid, ok: bool)
    | DoReset(p: Pid, ok: bool)
    | Refuse(p: Pid)
    | Take(p: Pid)
    | StoreRemoval(p: Pid, ok: bool)
    | DoPresent(p: Pid)
    | DoAnswer(p: Pid, answer: Refreshed)
    | SealFails(p: Pid, answer: Refreshed, fault: SealFault)
    | Vanish(p: Pid)
    | StoreAnswer(p: Pid, ok: bool)
    | Cancel(p: Pid)
    | Crash(p: Pid)

  /** `refresh_user_token` gives up, or finds the token replaced, before it takes anything: no
      entry, a token other than the expired one, or no refresh token. */
  predicate Refuses(cache: Option<Entries>, key: Key, expired: string) {
    || cache.None?
    || key !in cache.value
    || cache.value[key].token != expired
    || cache.value[key].refresh.None?
  }

  /** What such a call returns: the token that is there, if it is another. */
  function Given(cache: Option<Entries>, key: Key, expired: string): Result<string, RefreshError> {
    Unrefreshed(if cache.Some? then MapFind(cache.value, key) else None, expired, _ => true)
  }

  ghost predicate Next(s: State, step: Step, s': State) {
    if step.Spawn? then
      step.p !in s.procs && s' == Moved(s, step.p, None, Idle)
    else
      step.p in s.procs &&
      var p := step.p;
      var cache, op := s.procs[p].cache, s.procs[p].op;
      match step
      case Spawn(_) => false
      case Begin(_, call) => op.Idle? && s' == Moved(s, p, cache, Waiting(call))
      // A reading operation loads the file into an empty cache.
      case Fill(_) => op.Idle? && cache.None? && s.lock.None? && s.file.Some? && s' == Moved(s, p, s.file, Idle)
      case Lock(_) => op.Waiting? && s.lock.None? && s' == Moved(s, p, cache, Locked(op.call)).(lock := Some(p))
      case Reload(_) =>
        op.Locked? && !op.call.Reset? && s' == Moved(s, p, if s.file.Some? then s.file else cache, Reloaded(op.call))
      case DoChange(_) =>
        && op.Reloaded? && op.call.Write? && FreshChange(s, op.call.change)
        && var c := op.call.change;
           var after := if c.Login? || cache.Some? then Some(ChangeMap(c, OrEmpty(cache))) else None;
           if !Writes(c, cache) then s' == Ended(s, p, after)
           else s' == Noted(Moved(s, p, after, Changed).(seen := s.seen + SeenIn(c)), c)
      case StoreChange(_, ok) =>
        op.Changed? && s' == Ended(s, p, cache).(file := if ok then cache else s.file)
      case DoReset(_, ok) =>
        && op.Locked? && op.call.Reset?
        && s' == (if ok then Ended(s, p, if cache.Some? then Some(map[]) else None).(file := Some(map[]))
                  else Ended(s, p, cache))
      case Refuse(_) =>
        && op.Reloaded? && op.call.Refresh? && Refuses(cache, op.call.key, op.call.expired)
        && s' == Logged(Ended(s, p, cache),
                        Returned(op.call.key, op.call.expired, Given(cache, op.call.key, op.call.expired)))
      case Take(_) =>
        && op.Reloaded? && op.call.Refresh? && !Refuses(cache, op.call.key, op.call.expired)
        && var e := cache.value[op.call.key];
           s' == Moved(s, p, Some(cache.value[op.call.key := Taken(e)]),
                       TakenOut(op.call.key, op.call.expired, e.refresh.value, e.refreshExpires))
      case StoreRemoval(_, ok) =>
        && op.TakenOut? && cache.Some? && op.key in cache.value
        && s' == (if ok then Moved(s, p, cache, Removed(op.key, op.expired, op.refresh, op.deadline)).(file := cache)
                  else Ended(s, p, Some(cache.value[op.key := cache.value[op.key].(refresh := Some(op.refresh),
                                                                                  refreshExpires := op.deadline)])))
      case DoPresent(_) =>
        && op.Removed?
        && s' == Logged(Moved(s, p, cache, Presented(op.key, op.expired, op.refresh, op.deadline)),
                        Present(op.refresh, op.key, op.expired))
      case DoAnswer(_, answer) =>
        && op.Presented? && cache.Some? && op.key in cache.value
        && FreshAnswer(s, op.refresh, op.key.user, answer)
        && var e := cache.value[op.key];
           s' == Logged(Moved(s, p, Some(cache.value[op.key := Answered(e, op.refresh, op.deadline, answer)]),
                              Replied(op.key, op.expired, op.refresh, answer))
                        .(seen := s.seen + AnswerSeen(op.key.user, answer)),
                        Answer(op.refresh, op.key, op.expired, answer))
      // A seal of an accepted answer fails: nothing of it is stored.
      case SealFails(_, answer, fault) =>
        && op.Presented? && cache.Some? && op.key in cache.value && !fault.NoFault? && Accepted(answer, op.key.user)
        && var e := cache.value[op.key];
           var left := if fault.TokenFault? then e else e.(token := answer.token, domains := answer.domains);
           s' == Cut(s, p, Some(cache.value[op.key := left]))
      // "Token store entry vanished while the store was locked".
      case Vanish(_) =>
        op.Presented? && (cache.None? || op.key !in cache.value) && s' == Cut(s, p, cache)
      case StoreAnswer(_, ok) =>
        && op.Replied? && cache.Some?
        && var done := Logged(Ended(s, p, cache).(file := if ok then cache else s.file), Stored(op.refresh, ok));
           s' == (if ok && Accepted(op.answer, op.key.user)
                  then Logged(done, Accept(op.key, op.expired, op.answer.token)) else done)
      // Every error return and every cancellation: the locks are released, the cached map stays.
      case Cancel(_) => !op.Idle? && s' == Cut(s, p, cache)
      case Crash(_) => s' == Cut(s, p, None)
  }

  function Noted(s: State, c: Change): State {
    if c.Login? then Logged(s, LoggedIn(Key(Trimmed(c.endpoint), c.token.userId), c.token.token)) else s
  }

  ghost predicate Init(s: State) {
    && s.lock.None? && s.log == []
    && (forall p :: p in s.procs ==> s.procs[p] == Process(None, Idle))
    && (s.file.Some? ==>
          && Owned(s.file.value) && Injective(s.file.value)
          && forall k :: k in s.file.value && s.file.value[k].refresh.Some? ==> s.file.value[k].refresh.value in s.seen)
  }

  ghost predicate IsRun(states: seq<State>, steps: seq<Step>) {
    && |states| == |steps| + 1
    && Init(states[0])
    && forall i :: 0 <= i < |steps| ==> Next(states[i], steps[i], states[i + 1])
  }

  // ---------------------------------------------------------------------------
  // The life of one refresh token
  // ---------------------------------------------------------------------------

  /** The answer leaves the presented refresh token in force: the grant was not sent, or it was
      accepted without a new refresh token, or with the same one. */
  predicate Rearms(answer: Refreshed, user: string, refresh: string) {
    answer.Unsent? || (Accepted(answer, user) && (answer.refresh.None? || answer.refresh.value == refresh))
  }

  datatype Phase = Armed | InFlight | Rearming | Dead | Violated

  predicate Concerns(e: Event, refresh: string) {
    (e.Present? || e.Answer? || e.Stored? || e.Abandon?) && e.refresh == refresh
  }

  /** What may happen to a refresh token: presented only while armed, and armed again only by a
      rearming answer that reached the file. */
  function PhaseAfter(ph: Phase, e: Event, refresh: string): Phase {
    if !Concerns(e, refresh) then ph
    else match e
      case Present(_, _, _) => if ph.Armed? then InFlight else Violated
      case Answer(_, key, _, answer) =>
        if !ph.InFlight? then Violated else if Rearms(answer, key.user, refresh) then Rearming else Dead
      case Stored(_, ok) =>
        if ph.Rearming? then (if ok then Armed else Dead) else if ph.Dead? then Dead else Violated
      case Abandon(_) => if ph.InFlight? || ph.Rearming? || ph.Dead? then Dead else Violated
      case _ => ph
  }

  function PhaseOf(log: seq<Event>, refresh: string): Phase {
    if log == [] then Armed
    else PhaseAfter(PhaseOf(log[..|log| - 1], refresh), log[|log| - 1], refresh)
  }

  lemma PhaseAppend(log: seq<Event>, e: Event, refresh: string)
    ensures PhaseOf(log + [e], refresh) == PhaseAfter(PhaseOf(log, refresh), e, refresh)
  {
    assert (log + [e])[..|log|] == log;
  }

  // ---------------------------------------------------------------------------
  // Invariant
  // ---------------------------------------------------------------------------

  ghost predicate Owned(m: Entries) {
    forall k :: k in m ==> m[k].userId == k.user
  }

  ghost predicate Injective(m: Entries) {
    forall k, k' :: k in m && k' in m && m[k].refresh.Some? && m[k].refresh == m[k'].refresh ==> k == k'
  }

  ghost predicate Live(m: Entries, refresh: string) {
    exists k :: k in m && m[k].refresh == Some(refresh)
  }

  /** Every refresh token in `m` may be presented, `spared` apart. */
  ghost predicate Presentable(m: Entries, seen: set<string>, log: seq<Event>, spared: Option<string>) {
    forall k :: k in m && m[k].refresh.Some? ==>
      && m[k].refresh.value in seen
      && (m[k].refresh == spared || PhaseOf(log, m[k].refresh.value).Armed?)
  }

  ghost predicate Sound(m: Entries, seen: set<string>, log: seq<Event>, spared: Option<string>) {
    Owned(m) && Injective(m) && Presentable(m, seen, log, spared)
  }

  /** The entry an operation has taken the refresh token out of. */
  ghost predicate TookFrom(m: Entries, key: Key, expired: string, refresh: string, seen: set<string>) {
    && key in m && m[key].token == expired && m[key].refresh.None?
    && !Live(m, refresh) && refresh in seen
  }

  ghost predicate OpInv(s: State, p: Pid)
    requires p in s.procs
  {
    var cache, op := s.procs[p].cache, s.procs[p].op;
    match op
    case Idle => true
    case Waiting(_) => true
    case Locked(_) => true
    case Reloaded(_) => s.file.Some? ==> cache == s.file
    case Changed => cache.Some? && Sound(cache.value, s.seen, s.log, None)
    case TakenOut(key, expired, refresh, _) =>
      && cache.Some? && Sound(cache.value, s.seen, s.log, None)
      && TookFrom(cache.value, key, expired, refresh, s.seen) && PhaseOf(s.log, refresh).Armed?
    case Removed(key, expired, refresh, _) =>
      && cache.Some? && s.file == cache
      && TookFrom(cache.value, key, expired, refresh, s.seen) && PhaseOf(s.log, refresh).Armed?
    case Presented(key, expired, refresh, _) =>
      && cache.Some? && s.file == cache
      && TookFrom(cache.value, key, expired, refresh, s.seen) && PhaseOf(s.log, refresh).InFlight?
    case Replied(key, expired, refresh, answer) =>
      && cache.Some? && s.file.Some? && key in cache.value
      && (Accepted(answer, key.user) ==> cache.value[key].token == answer.token)
      && (if Rearms(answer, key.user, refresh)
          then PhaseOf(s.log, refresh).Rearming? && Sound(cache.value, s.seen, s.log, Some(refresh))
          else PhaseOf(s.log, refresh).Dead? && Sound(cache.value, s.seen, s.log, None))
  }

  ghost predicate Inv(s: State) {
    && (s.file.Some? ==> Sound(s.file.value, s.seen, s.log, None))
    // Before the file first loads nothing has been presented, and a cached map may become the file.
    && (s.file.None? ==>
          && (forall r :: PhaseOf(s.log, r).Armed?)
          && forall p :: p in s.procs && s.procs[p].cache.Some? ==> Sound(s.procs[p].cache.value, s.seen, s.log, None))
    && (s.lock.Some? ==> s.lock.value in s.procs)
    && (forall p :: p in s.procs ==> (HoldsLock(s.procs[p].op) <==> s.lock == Some(p)))
    && (forall p :: p in s.procs ==> OpInv(s, p))
    && (forall r :: !PhaseOf(s.log, r).Armed? ==> r in s.seen)
    && (forall r :: !PhaseOf(s.log, r).Violated?)
  }

  lemma InitInv(s: State)
    requires Init(s)
    ensures Inv(s)
  {
  }

  // ---------------------------------------------------------------------------
  // Maps
  // ---------------------------------------------------------------------------

  /** An event about a refresh token that is not in `m` leaves `m` as presentable as it was. */
  lemma SoundLog(m: Entries, seen: set<string>, log: seq<Event>, e: Event)
    requires Sound(m, seen, log, None)
    requires forall r :: Concerns(e, r) ==> !PhaseOf(log, r).Armed? || !Live(m, r)
    ensures Sound(m, seen, log + [e], None)
  {
    forall k | k in m && m[k].refresh.Some?
      ensures PhaseOf(log + [e], m[k].refresh.value).Armed?
    {
      PhaseAppend(log, e, m[k].refresh.value);
      assert Live(m, m[k].refresh.value);
    }
  }

  /** A login brings at most one refresh token, which was never seen, and the removals bring none. */
  lemma ChangeSound(s: State, c: Change, m: Entries)
    requires Sound(m, s.seen, s.log, None) && FreshChange(s, c)
    requires forall r :: !PhaseOf(s.log, r).Armed? ==> r in s.seen
    ensures Sound(ChangeMap(c, m), s.seen + SeenIn(c), s.log, None)
  {
    var m' := ChangeMap(c, m);
    forall k | k in m' && m'[k].refresh.Some?
      ensures (k in m && m'[k].refresh == m[k].refresh) || (c.Login? && m'[k].refresh.value in SeenIn(c)
          && k == Key(Trimmed(c.endpoint), c.token.userId))
    {
    }
    forall k, k' | k in m' && k' in m' && m'[k].refresh.Some? && m'[k].refresh == m'[k'].refresh
      ensures k == k'
    {
    }
  }

  // ---------------------------------------------------------------------------
  // Preservation
  // ---------------------------------------------------------------------------

  /** The operations of the other processes hold no lock, so a step of `p` leaves their state good. */
  lemma OthersKeep(s: State, s': State, p: Pid)
    requires Inv(s) && p in s.procs && p in s'.procs && s'.procs == s.procs[p := s'.procs[p]]
    requires s.seen <= s'.seen
    requires s'.file.None? ==> s.file.None? && s'.log == s.log
    requires s.lock == Some(p) || (s'.file == s.file && s'.log == s.log)
    requires s'.lock == if HoldsLock(s'.procs[p].op) then Some(p) else if HoldsLock(s.procs[p].op) then None else s.lock
    requires HoldsLock(s'.procs[p].op) && !HoldsLock(s.procs[p].op) ==> s.lock.None?
    ensures forall q :: q in s'.procs && q != p ==> OpInv(s', q)
    ensures forall q :: q in s'.procs ==> (HoldsLock(s'.procs[q].op) <==> s'.lock == Some(q))
    ensures s'.file.None? ==>
              forall q :: q in s'.procs && q != p && s'.procs[q].cache.Some? ==>
                  Sound(s'.procs[q].cache.value, s'.seen, s'.log, None)
  {
    forall q | q in s'.procs && q != p ensures OpInv(s', q) {
      assert OpInv(s, q);
      assert s.lock == Some(p) ==> !HoldsLock(s.procs[q].op);
    }
  }

  /** Steps that touch neither the file nor the log: locking, reloading, giving up. */
  lemma QuietInv(s: State, step: Step, s': State)
    requires Inv(s) && Next(s, step, s')
    requires step.Begin? || step.Fill? || step.Lock? || step.Reload?
    ensures Inv(s')
  {
    assert OpInv(s, step.p);
    OthersKeep(s, s', step.p);
  }

  lemma SpawnInv(s: State, p: Pid, s': State)
    requires Inv(s) && Next(s, Spawn(p), s')
    ensures Inv(s')
  {
    forall q | q in s'.procs ensures OpInv(s', q) { if q != p { assert OpInv(s, q); } }
  }

  lemma DoChangeInv(s: State, p: Pid, s': State)
    requires Inv(s) && Next(s, DoChange(p), s')
    ensures Inv(s')
  {
    assert OpInv(s, p);
    var cache := s.procs[p].cache;
    var c := s.procs[p].op.call.change;
    var after := ChangeMap(c, OrEmpty(cache));
    assert Sound(OrEmpty(cache), s.seen, s.log, None);
    ChangeSound(s, c, OrEmpty(cache));
    if c.Login? {
      LoginInv(s, p, s', after);
    } else {
      OthersKeep(s, s', p);
    }
  }

  lemma LoginInv(s: State, p: Pid, s': State, after: Entries)
    requires Inv(s) && p in s.procs && s.lock == Some(p) && s'.lock == s.lock && s'.file == s.file
    requires s'.procs == s.procs[p := Process(Some(after), Changed)]
    requires s.seen <= s'.seen && Sound(after, s'.seen, s.log, None)
    requires |s'.log| == |s.log| + 1 && s'.log == s.log + [s'.log[|s.log|]] && s'.log[|s.log|].LoggedIn?
    ensures Inv(s')
  {
    var e := s'.log[|s.log|];
    SilentEvent(s, e);
    SoundLog(after, s'.seen, s.log, e);
    LoggedOthers(s, s', p, e);
  }

  /** An event that concerns no refresh token changes no phase. */
  lemma SilentEvent(s: State, e: Event)
    requires e.LoggedIn? || e.Accept? || e.Returned?
    ensures forall r :: PhaseOf(s.log + [e], r) == PhaseOf(s.log, r)
  {
    forall r ensures PhaseOf(s.log + [e], r) == PhaseOf(s.log, r) { PhaseAppend(s.log, e, r); }
  }

  /** `OthersKeep` for a lock holder that also logs an event about no refresh token. */
  lemma LoggedOthers(s: State, s': State, p: Pid, e: Event)
    requires Inv(s) && p in s.procs && p in s'.procs && s'.procs == s.procs[p := s'.procs[p]]
    requires s.seen <= s'.seen && s'.log == s.log + [e] && (e.LoggedIn? || e.Accept?)
    requires s'.file == s.file && s.lock == Some(p) && s'.lock == Some(p) && HoldsLock(s'.procs[p].op)
    ensures forall q :: q in s'.procs && q != p ==> OpInv(s', q)
    ensures forall q :: q in s'.procs ==> (HoldsLock(s'.procs[q].op) <==> s'.lock == Some(q))
    ensures s'.file.Some? ==> Sound(s'.file.value, s'.seen, s'.log, None)
    ensures s'.file.None? ==>
              forall q :: q in s'.procs && q != p && s'.procs[q].cache.Some? ==>
                  Sound(s'.procs[q].cache.value, s'.seen, s'.log, None)
  {
    SilentEvent(s, e);
    forall q | q in s'.procs && q != p ensures OpInv(s', q) {
      assert OpInv(s, q);
      assert !HoldsLock(s.procs[q].op);
    }
  }

  lemma StoreChangeInv(s: State, step: Step, s': State)
    requires Inv(s) && Next(s, step, s') && (step.StoreChange? || step.DoReset?)
    ensures Inv(s')
  {
    assert OpInv(s, step.p);
    OthersKeep(s, s', step.p);
  }

  lemma TakeInv(s: State, p: Pid, s': State)
    requires Inv(s) && Next(s, Take(p), s')
    ensures Inv(s')
  {
    assert OpInv(s, p);
    var m, key := s.procs[p].cache.value, s.procs[p].op.call.key;
    assert Sound(m, s.seen, s.log, None);
    var m' := m[key := Taken(m[key])];
    assert Sound(m', s.seen, s.log, None);
    assert !Live(m', m[key].refresh.value);
    OthersKeep(s, s', p);
  }

  /** Putting a refresh token back that stands nowhere else. */
  lemma PutBackSound(m: Entries, key: Key, refresh: string, deadline: nat, seen: set<string>, log: seq<Event>)
    requires Sound(m, seen, log, None) && key in m && !Live(m, refresh) && refresh in seen
        && PhaseOf(log, refresh).Armed?
    ensures Sound(m[key := m[key].(refresh := Some(refresh), refreshExpires := deadline)], seen, log, None)
  {
  }

  lemma StoreRemovalInv(s: State, p: Pid, ok: bool, s': State)
    requires Inv(s) && Next(s, StoreRemoval(p, ok), s')
    ensures Inv(s')
  {
    assert OpInv(s, p);
    var m, op := s.procs[p].cache.value, s.procs[p].op;
    PutBackSound(m, op.key, op.refresh, op.deadline, s.seen, s.log);
    OthersKeep(s, s', p);
  }

  /** Everything but the phases and `p` itself, when the lock holder logs an event about a refresh
      token that stands in no stored map. */
  lemma TokenEventKeeps(s: State, s': State, p: Pid, e: Event)
    requires Inv(s) && p in s.procs && p in s'.procs && s'.procs == s.procs[p := s'.procs[p]]
    requires s.seen <= s'.seen && s'.log == s.log + [e] && s.lock == Some(p)
    requires s.file.Some? && s'.file.Some?
    requires s'.lock == if HoldsLock(s'.procs[p].op) then Some(p) else None
    ensures forall q :: q in s'.procs && q != p ==> OpInv(s', q)
    ensures forall q :: q in s'.procs ==> (HoldsLock(s'.procs[q].op) <==> s'.lock == Some(q))
  {
    forall q | q in s'.procs && q != p ensures OpInv(s', q) {
      assert OpInv(s, q);
      assert !HoldsLock(s.procs[q].op);
    }
  }

  /** The phases after an event about `refresh` that the automaton allows. */
  lemma PhasesAfter(s: State, e: Event, refresh: string, seen': set<string>)
    requires Inv(s) && Concerns(e, refresh) && s.seen <= seen' && refresh in seen'
    requires !PhaseAfter(PhaseOf(s.log, refresh), e, refresh).Violated?
    ensures forall r :: r != refresh ==> PhaseOf(s.log + [e], r) == PhaseOf(s.log, r)
    ensures PhaseOf(s.log + [e], refresh) == PhaseAfter(PhaseOf(s.log, refresh), e, refresh)
    ensures forall r :: !PhaseOf(s.log + [e], r).Armed? ==> r in seen'
    ensures forall r :: !PhaseOf(s.log + [e], r).Violated?
  {
    forall r ensures PhaseOf(s.log + [e], r) == PhaseAfter(PhaseOf(s.log, r), e, r) { PhaseAppend(s.log, e, r); }
  }

  lemma PresentInv(s: State, p: Pid, s': State)
    requires Inv(s) && Next(s, DoPresent(p), s')
    ensures Inv(s')
  {
    assert OpInv(s, p);
    var op := s.procs[p].op;
    var e := Present(op.refresh, op.key, op.expired);
    assert s' == Logged(Moved(s, p, s.procs[p].cache, Presented(op.key, op.expired, op.refresh, op.deadline)), e);
    PhasesAfter(s, e, op.refresh, s.seen);
    SoundLog(s.file.value, s.seen, s.log, e);
    TokenEventKeeps(s, s', p, e);
    assert OpInv(s', p);
  }

  /** The map an answer leaves: the presented refresh token is back in it only if it is rearmed. */
  lemma AnswerSound(s: State, m: Entries, key: Key, expired: string, refresh: string, deadline: nat, answer: Refreshed)
    requires Sound(m, s.seen, s.log, None) && TookFrom(m, key, expired, refresh, s.seen)
    requires FreshAnswer(s, refresh, key.user, answer)
    requires forall r :: !PhaseOf(s.log, r).Armed? ==> r in s.seen
    ensures var m' := m[key := Answered(m[key], refresh, deadline, answer)];
            Sound(m', s.seen + AnswerSeen(key.user, answer), s.log,
                  if Rearms(answer, key.user, refresh) then Some(refresh) else None)
    ensures var m' := m[key := Answered(m[key], refresh, deadline, answer)];
            !Rearms(answer, key.user, refresh) ==> !Live(m', refresh)
  {
    assert m[key].userId == key.user;
  }

  lemma SoundSparing(m: Entries, seen: set<string>, log: seq<Event>, e: Event, refresh: string)
    requires Sound(m, seen, log, Some(refresh)) && Concerns(e, refresh)
    ensures Sound(m, seen, log + [e], Some(refresh))
  {
    forall k | k in m && m[k].refresh.Some?
      ensures m[k].refresh == Some(refresh) || PhaseOf(log + [e], m[k].refresh.value).Armed?
    {
      PhaseAppend(log, e, m[k].refresh.value);
    }
  }

  lemma AnswerInv(s: State, p: Pid, answer: Refreshed, s': State)
    requires Inv(s) && Next(s, DoAnswer(p, answer), s')
    ensures Inv(s')
  {
    assert OpInv(s, p);
    var m, op := s.procs[p].cache.value, s.procs[p].op;
    var e := Answer(op.refresh, op.key, op.expired, answer);
    PhasesAfter(s, e, op.refresh, s'.seen);
    SoundLog(s.file.value, s.seen, s.log, e);
    AnswerSound(s, m, op.key, op.expired, op.refresh, op.deadline, answer);
    var m' := s'.procs[p].cache.value;
    if Rearms(answer, op.key.user, op.refresh) {
      SoundSparing(m', s'.seen, s.log, e, op.refresh);
    } else {
      SoundLog(m', s'.seen, s.log, e);
    }
    assert m[op.key].userId == op.key.user;
    TokenEventKeeps(s, s', p, e);
  }

  /** Cancellation, a crash, a failed seal: the operation ends, and a refresh token that was out is
      lost. The entry never vanishes. */
  lemma CutInv(s: State, p: Pid, cache: Option<Entries>, s': State)
    requires Inv(s) && p in s.procs && s' == Cut(s, p, cache)
    requires cache == s.procs[p].cache || cache.None? || s.file.Some?
    ensures Inv(s')
  {
    assert OpInv(s, p);
    var op := s.procs[p].op;
    if Outstanding(op) {
      var e := Abandon(op.refresh);
      assert op.refresh in s.seen;
      PhasesAfter(s, e, op.refresh, s'.seen);
      SoundLog(s.file.value, s.seen, s.log, e);
      TokenEventKeeps(s, s', p, e);
    } else {
      OthersKeep(s, s', p);
    }
  }

  lemma StoreAnswerInv(s: State, p: Pid, ok: bool, s': State)
    requires Inv(s) && Next(s, StoreAnswer(p, ok), s')
    ensures Inv(s')
  {
    var op := s.procs[p].op;
    StoredInv(s, p, ok);
    if ok && Accepted(op.answer, op.key.user) {
      SilentInv(AfterStore(s, p, ok), Accept(op.key, op.expired, op.answer.token));
    }
  }

  ghost function AfterStore(s: State, p: Pid, ok: bool): State
    requires p in s.procs && s.procs[p].op.Replied?
  {
    var cache := s.procs[p].cache;
    Logged(Ended(s, p, cache).(file := if ok then cache else s.file), Stored(s.procs[p].op.refresh, ok))
  }

  lemma StoredInv(s: State, p: Pid, ok: bool)
    requires Inv(s) && p in s.procs && s.procs[p].op.Replied?
    ensures Inv(AfterStore(s, p, ok))
  {
    assert OpInv(s, p);
    var m, op := s.procs[p].cache.value, s.procs[p].op;
    var e, mid := Stored(op.refresh, ok), AfterStore(s, p, ok);
    assert op.refresh in s.seen;
    PhasesAfter(s, e, op.refresh, s.seen);
    if ok {
      forall k | k in m && m[k].refresh.Some? ensures PhaseOf(mid.log, m[k].refresh.value).Armed? {
      }
    } else {
      SoundLog(s.file.value, s.seen, s.log, e);
    }
    TokenEventKeeps(s, mid, p, e);
  }

  lemma RefuseInv(s: State, p: Pid, s': State)
    requires Inv(s) && Next(s, Refuse(p), s')
    ensures Inv(s')
  {
    assert OpInv(s, p);
    var mid := Ended(s, p, s.procs[p].cache);
    OthersKeep(s, mid, p);
    SilentInv(mid, s'.log[|s.log|]);
  }

  lemma SilentInv(s: State, e: Event)
    requires Inv(s) && (e.Accept? || e.Returned?)
    ensures Inv(Logged(s, e))
  {
    SilentEvent(s, e);
    forall q | q in s.procs ensures OpInv(Logged(s, e), q) { assert OpInv(s, q); }
  }

  lemma StepInv(s: State, step: Step, s': State)
    requires Inv(s) && Next(s, step, s')
    ensures Inv(s')
  {
    match step
    case Spawn(p) => SpawnInv(s, p, s');
    case Begin(_, _) => QuietInv(s, step, s');
    case Fill(_) => QuietInv(s, step, s');
    case Lock(_) => QuietInv(s, step, s');
    case Reload(_) => QuietInv(s, step, s');
    case Refuse(p) => RefuseInv(s, p, s');
    case DoChange(p) => DoChangeInv(s, p, s');
    case StoreChange(_, _) => StoreChangeInv(s, step, s');
    case DoReset(_, _) => StoreChangeInv(s, step, s');
    case Take(p) => TakeInv(s, p, s');
    case StoreRemoval(p, ok) => StoreRemovalInv(s, p, ok, s');
    case DoPresent(p) => PresentInv(s, p, s');
    case DoAnswer(p, answer) => AnswerInv(s, p, answer, s');
    case SealFails(p, _, _) => assert OpInv(s, p); CutInv(s, p, s'.procs[p].cache, s');
    case Vanish(p) => CutInv(s, p, s.procs[p].cache, s');
    case StoreAnswer(p, ok) => StoreAnswerInv(s, p, ok, s');
    case Cancel(p) => CutInv(s, p, s.procs[p].cache, s');
    case Crash(p) => CutInv(s, p, None, s');
  }

  lemma {:induction false} RunInv(states: seq<State>, steps: seq<Step>, n: nat)
    requires IsRun(states, steps) && n <= |steps|
    ensures Inv(states[n])
  {
    if n == 0 {
      InitInv(states[0]);
    } else {
      RunInv(states, steps, n - 1);
      StepInv(states[n - 1], steps[n - 1], states[n]);
    }
  }

  // ---------------------------------------------------------------------------
  // No refresh token is presented twice
  // ---------------------------------------------------------------------------

  lemma {:induction false} PhasePrefix(log: seq<Event>, n: nat, r: string)
    requires n <= |log| && !PhaseOf(log, r).Violated?
    ensures !PhaseOf(log[..n], r).Violated?
    decreases |log|
  {
    if n == |log| {
      assert log[..n] == log;
    } else {
      var before := log[..|log| - 1];
      PhasePrefix(before, n, r);
      assert before[..n] == log[..n];
    }
  }

  /** One event of a log that the automaton allows throughout. */
  lemma PhaseAt(log: seq<Event>, n: nat, r: string)
    requires n < |log| && !PhaseOf(log, r).Violated?
    ensures PhaseOf(log[..n + 1], r) == PhaseAfter(PhaseOf(log[..n], r), log[n], r)
    ensures !PhaseOf(log[..n + 1], r).Violated? && !PhaseOf(log[..n], r).Violated?
  {
    assert log[..n + 1] == log[..n] + [log[n]];
    PhaseAppend(log[..n], log[n], r);
    PhasePrefix(log, n, r);
    PhasePrefix(log, n + 1, r);
  }

  ghost predicate RearmedAt(log: seq<Event>, k: nat, r: string) {
    k < |log| && log[k].Answer? && log[k].refresh == r && Rearms(log[k].answer, log[k].key.user, r)
  }

  lemma {:induction false} RearmingSince(log: seq<Event>, i: nat, j: nat, r: string) returns (k: nat)
    requires i <= j <= |log| && !PhaseOf(log, r).Violated?
    requires PhaseOf(log[..i], r).InFlight? && PhaseOf(log[..j], r).Rearming?
    ensures i <= k < j && RearmedAt(log, k, r)
    decreases j
  {
    PhaseAt(log, j - 1, r);
    if PhaseOf(log[..j - 1], r).Rearming? { k := RearmingSince(log, i, j - 1, r); } else { k := j - 1; }
  }

  lemma {:induction false} ArmedSince(log: seq<Event>, i: nat, j: nat, r: string) returns (k: nat, l: nat)
    requires i <= j <= |log| && !PhaseOf(log, r).Violated?
    requires PhaseOf(log[..i], r).InFlight? && PhaseOf(log[..j], r).Armed?
    ensures i <= k < l < j && RearmedAt(log, k, r) && log[l] == Stored(r, true)
    decreases j
  {
    PhaseAt(log, j - 1, r);
    if PhaseOf(log[..j - 1], r).Armed? {
      k, l := ArmedSince(log, i, j - 1, r);
    } else {
      l := j - 1;
      k := RearmingSince(log, i, l, r);
    }
  }

  lemma {:induction false} DeadSince(log: seq<Event>, i: nat, j: nat, r: string)
    requires i <= j <= |log| && !PhaseOf(log, r).Violated? && PhaseOf(log[..i], r).Dead?
    ensures PhaseOf(log[..j], r).Dead?
    decreases j
  {
    if i < j {
      DeadSince(log, i, j - 1, r);
      PhaseAt(log, j - 1, r);
    }
  }

  /** Between two presentations of one refresh token there is always an answer that left it in
      force, the grant not sent or no new refresh token given, and after it a successful write of
      that answer. */
  lemma PresentedTwiceOnlyRearmed(states: seq<State>, steps: seq<Step>, n: nat, i: nat, j: nat)
    requires IsRun(states, steps) && n <= |steps|
    requires i < j < |states[n].log| && states[n].log[i].Present? && states[n].log[j].Present?
    requires states[n].log[i].refresh == states[n].log[j].refresh
    ensures var log, r := states[n].log, states[n].log[i].refresh;
            exists k, l :: i < k < l < j && RearmedAt(log, k, r) && log[l] == Stored(r, true)
  {
    RunInv(states, steps, n);
    var log, r := states[n].log, states[n].log[i].refresh;
    PhaseAt(log, i, r);
    PhaseAt(log, j, r);
    var k, l := ArmedSince(log, i + 1, j, r);
  }

  /** The refresh token is gone for good: the answer refused it, failed, replaced it or named
      someone else, the answer was not written, or the operation ended before it was. */
  predicate Spends(e: Event) {
    || (e.Answer? && !Rearms(e.answer, e.key.user, e.refresh))
    || (e.Stored? && !e.ok)
    || e.Abandon?
  }

  lemma SpentNeverPresentedAgain(states: seq<State>, steps: seq<Step>, n: nat, i: nat, j: nat)
    requires IsRun(states, steps) && n <= |steps|
    requires i < j < |states[n].log| && Spends(states[n].log[i]) && states[n].log[j].Present?
    ensures states[n].log[j].refresh != states[n].log[i].refresh
  {
    RunInv(states, steps, n);
    var log, r := states[n].log, states[n].log[i].refresh;
    PhaseAt(log, i, r);
    DeadSince(log, i + 1, j, r);
    PhaseAt(log, j, r);
  }

  /** While a refresh token is out or spent, no reload can bring it back: it is not in the file. */
  lemma OutIsNotInFile(states: seq<State>, steps: seq<Step>, n: nat, r: string)
    requires IsRun(states, steps) && n <= |steps|
    requires !PhaseOf(states[n].log, r).Armed?
    ensures states[n].file.Some? && !Live(states[n].file.value, r)
  {
    RunInv(states, steps, n);
  }

  /** While a grant is out its entry stays in the cached map, so "Token store entry vanished while
      the store was locked" is never returned. */
  lemma EntryNeverVanishes(states: seq<State>, steps: seq<Step>, n: nat, p: Pid)
    requires IsRun(states, steps) && n <= |steps|
    requires p in states[n].procs && states[n].procs[p].op.Presented?
    ensures states[n].procs[p].cache.Some? && states[n].procs[p].op.key in states[n].procs[p].cache.value
    ensures forall s' :: !Next(states[n], Vanish(p), s')
  {
    RunInv(states, steps, n);
    assert OpInv(states[n], p);
  }

  // ---------------------------------------------------------------------------
  // One grant per expired token
  // ---------------------------------------------------------------------------

  /** An accepted grant for `key` has replaced `token` in the file. */
  predicate Retired(log: seq<Event>, key: Key, token: string) {
    log != [] &&
    var last := log[|log| - 1];
    Retired(log[..|log| - 1], key, token) || (last.Accept? && last.key == key && last.expired == token)
  }

  /** The token an event brings into a map at a key. */
  predicate Brings(e: Event, key: Key, token: string) {
    || (e.LoggedIn? && e.key == key && e.token == token)
    || (e.Answer? && Accepted(e.answer, e.key.user) && e.key == key && e.answer.token == token)
  }

  /** No one stores a token again once it was replaced, and an issuer answers with another token
      than the expired one. */
  ghost predicate NoReuse(log: seq<Event>) {
    log == [] ||
    (var before, last := log[..|log| - 1], log[|log| - 1];
     && NoReuse(before)
     && (forall key, token :: Brings(last, key, token) ==> !Retired(before, key, token))
     && (last.Answer? && Accepted(last.answer, last.key.user) ==> last.answer.token != last.expired))
  }

  /** No event presents for, or accepts an answer for, a token already replaced. */
  predicate SingleFlight(log: seq<Event>) {
    log == [] ||
    (var before, last := log[..|log| - 1], log[|log| - 1];
     && SingleFlight(before)
     && ((last.Present? || last.Accept?) ==> !Retired(before, last.key, last.expired)))
  }

  ghost predicate Unretired(m: Entries, log: seq<Event>) {
    forall k :: k in m ==> !Retired(log, k, m[k].token)
  }

  ghost predicate FlightOp(log: seq<Event>, proc: Process) {
    && (HoldsLock(proc.op) && !proc.op.Locked? && proc.cache.Some? ==> Unretired(proc.cache.value, log))
    && (proc.op.Replied? && Accepted(proc.op.answer, proc.op.key.user) ==>
          proc.op.answer.token != proc.op.expired && !Retired(log, proc.op.key, proc.op.expired))
  }

  ghost predicate FlightInv(s: State) {
    && SingleFlight(s.log)
    && (s.file.Some? ==> Unretired(s.file.value, s.log))
    && (s.file.None? ==> forall k, t :: !Retired(s.log, k, t))
    && (forall p :: p in s.procs ==> FlightOp(s.log, s.procs[p]))
  }

  lemma RetiredAppend(log: seq<Event>, e: Event)
    ensures forall k, t ::
              Retired(log + [e], k, t) <==> Retired(log, k, t) || (e.Accept? && e.key == k && e.expired == t)
    ensures NoReuse(log + [e]) ==> NoReuse(log)
    ensures NoReuse(log + [e]) ==> forall k, t :: Brings(e, k, t) ==> !Retired(log, k, t)
    ensures NoReuse(log + [e]) && e.Answer? && Accepted(e.answer, e.key.user) ==> e.answer.token != e.expired
    ensures SingleFlight(log + [e]) <==>
            SingleFlight(log) && ((e.Present? || e.Accept?) ==> !Retired(log, e.key, e.expired))
  {
    assert (log + [e])[..|log|] == log;
  }

  lemma NoReusePrefix(s: State, step: Step, s': State)
    requires Next(s, step, s') && NoReuse(s'.log)
    ensures NoReuse(s.log)
  {
    if step.StoreAnswer? {
      var op := s.procs[step.p].op;
      RetiredAppend(s.log, Stored(op.refresh, step.ok));
      RetiredAppend(s.log + [Stored(op.refresh, step.ok)], Accept(op.key, op.expired, if op.answer.Token?
          then op.answer.token else ""));
    } else if s'.log != s.log {
      assert s'.log == s.log + [s'.log[|s.log|]];
      RetiredAppend(s.log, s'.log[|s.log|]);
    }
  }

  /** The step is all `p`'s own: what is left is the file and `p` itself. */
  lemma FlightFrame(s: State, s': State, p: Pid)
    requires Inv(s) && FlightInv(s) && p in s'.procs && s'.procs == s.procs[p := s'.procs[p]]
    requires SingleFlight(s'.log) && FlightOp(s'.log, s'.procs[p])
    requires s'.file.Some? ==> Unretired(s'.file.value, s'.log)
    requires s'.file.None? ==> forall k, t :: !Retired(s'.log, k, t)
    requires s.lock == Some(p) || s'.log == s.log
    ensures FlightInv(s')
  {
    forall q | q in s'.procs && q != p ensures FlightOp(s'.log, s'.procs[q]) {
      assert FlightOp(s.log, s.procs[q]);
      assert s.lock == Some(p) ==> !HoldsLock(s.procs[q].op);
    }
  }

  /** Steps that log nothing and write nothing. */
  lemma QuietFlight(s: State, step: Step, s': State)
    requires Inv(s) && FlightInv(s) && Next(s, step, s') && s'.log == s.log && s'.file == s.file
    requires !step.DoChange?
    ensures FlightInv(s')
  {
    if !step.Spawn? { assert OpInv(s, step.p) && FlightOp(s.log, s.procs[step.p]); }
    if HoldsLock(s'.procs[step.p].op) { BusyFlight(s, step, s'); }
    FlightFrame(s, s', step.p);
  }

  lemma BusyFlight(s: State, step: Step, s': State)
    requires Inv(s) && FlightInv(s) && Next(s, step, s') && s'.log == s.log && s'.file == s.file
    requires !step.Spawn? && !step.DoChange? && HoldsLock(s'.procs[step.p].op)
    ensures FlightOp(s.log, s'.procs[step.p])
  {
    assert OpInv(s, step.p) && FlightOp(s.log, s.procs[step.p]);
  }

  /** A removal takes entries away and changes none. */
  lemma RemovalFlight(s: State, p: Pid, s': State)
    requires Inv(s) && FlightInv(s) && Next(s, DoChange(p), s') && s'.log == s.log
    ensures FlightInv(s')
  {
    assert OpInv(s, p) && FlightOp(s.log, s.procs[p]);
    var cache, c := s.procs[p].cache, s.procs[p].op.call.change;
    if cache.Some? { RemovalKeeps(c, cache.value); }
    FlightFrame(s, s', p);
  }

  lemma RemovalKeeps(c: Change, m: Entries)
    requires !c.Login?
    ensures forall k :: k in ChangeMap(c, m) ==> k in m && ChangeMap(c, m)[k] == m[k]
  {
  }

  /** Steps that log nothing and write the file. */
  lemma WriteFlight(s: State, step: Step, s': State)
    requires Inv(s) && FlightInv(s) && Next(s, step, s') && s'.log == s.log
    requires step.StoreChange? || step.DoReset? || step.StoreRemoval?
    ensures FlightInv(s')
  {
    assert OpInv(s, step.p) && FlightOp(s.log, s.procs[step.p]);
    FlightFrame(s, s', step.p);
  }

  lemma LoginFlight(s: State, p: Pid, s': State)
    requires Inv(s) && FlightInv(s) && Next(s, DoChange(p), s') && NoReuse(s'.log) && s'.log != s.log
    ensures FlightInv(s')
  {
    assert OpInv(s, p) && FlightOp(s.log, s.procs[p]);
    var c := s.procs[p].op.call.change;
    var e := LoggedIn(Key(Trimmed(c.endpoint), c.token.userId), c.token.token);
    RetiredAppend(s.log, e);
    LoginUnretired(OrEmpty(s.procs[p].cache), c, s.log);
    FlightFrame(s, s', p);
  }

  lemma LoginUnretired(m: Entries, c: Change, log: seq<Event>)
    requires Unretired(m, log) && c.Login?
    requires NoReuse(log + [LoggedIn(Key(Trimmed(c.endpoint), c.token.userId), c.token.token)])
    ensures Unretired(ChangeMap(c, m), log)
  {
    var e := LoggedIn(Key(Trimmed(c.endpoint), c.token.userId), c.token.token);
    RetiredAppend(log, e);
    assert Brings(e, e.key, e.token);
  }

  lemma AnswerFlight(s: State, p: Pid, answer: Refreshed, s': State)
    requires Inv(s) && FlightInv(s) && Next(s, DoAnswer(p, answer), s') && NoReuse(s'.log)
    ensures FlightInv(s')
  {
    assert OpInv(s, p) && FlightOp(s.log, s.procs[p]);
    var m, op := s.procs[p].cache.value, s.procs[p].op;
    var e := Answer(op.refresh, op.key, op.expired, answer);
    assert m[op.key].userId == op.key.user;
    RetiredAppend(s.log, e);
    if Accepted(answer, op.key.user) { assert Brings(e, op.key, answer.token); }
    assert FlightOp(s'.log, s'.procs[p]);
    FlightFrame(s, s', p);
  }

  lemma RefuseFlight(s: State, p: Pid, s': State)
    requires Inv(s) && FlightInv(s) && Next(s, Refuse(p), s')
    ensures FlightInv(s')
  {
    var op, cache := s.procs[p].op, s.procs[p].cache;
    var e := Returned(op.call.key, op.call.expired, Given(cache, op.call.key, op.call.expired));
    assert s' == Logged(Ended(s, p, cache), e);
    RetiredAppend(s.log, e);
    FlightFrame(s, s', p);
  }

  /** A presentation or an abandonment. */
  lemma TokenFlight(s: State, step: Step, s': State)
    requires Inv(s) && FlightInv(s) && Next(s, step, s') && s'.log != s.log
    requires step.DoPresent? || step.SealFails? || step.Vanish? || step.Cancel? || step.Crash?
    ensures FlightInv(s')
  {
    assert OpInv(s, step.p) && FlightOp(s.log, s.procs[step.p]);
    var e := s'.log[|s.log|];
    assert s'.log == s.log + [e];
    RetiredAppend(s.log, e);
    assert FlightOp(s'.log, s'.procs[step.p]);
    FlightFrame(s, s', step.p);
  }

  lemma StoreAnswerFlight(s: State, p: Pid, ok: bool, s': State)
    requires Inv(s) && FlightInv(s) && Next(s, StoreAnswer(p, ok), s')
    ensures FlightInv(s')
  {
    assert OpInv(s, p) && FlightOp(s.log, s.procs[p]);
    var op := s.procs[p].op;
    var e := Stored(op.refresh, ok);
    RetiredAppend(s.log, e);
    if ok && Accepted(op.answer, op.key.user) {
      RetiredAppend(s.log + [e], Accept(op.key, op.expired, op.answer.token));
    }
    FlightFrame(s, s', p);
  }

  lemma StepFlight(s: State, step: Step, s': State)
    requires Inv(s) && FlightInv(s) && Next(s, step, s') && NoReuse(s'.log)
    ensures FlightInv(s')
  {
    if step.StoreAnswer? { StoreAnswerFlight(s, step.p, step.ok, s'); }
    else if step.Refuse? { RefuseFlight(s, step.p, s'); }
    else if step.DoAnswer? { AnswerFlight(s, step.p, step.answer, s'); }
    else if step.DoChange? {
      if s'.log == s.log { RemovalFlight(s, step.p, s'); } else { LoginFlight(s, step.p, s'); }
    }
    else if step.StoreChange? || step.DoReset? || step.StoreRemoval? { WriteFlight(s, step, s'); }
    else if s'.log == s.log { QuietFlight(s, step, s'); }
    else { TokenFlight(s, step, s'); }
  }

  lemma {:induction false} RunFlight(states: seq<State>, steps: seq<Step>, n: nat)
    requires IsRun(states, steps) && n <= |steps| && NoReuse(states[n].log)
    ensures FlightInv(states[n])
  {
    if n > 0 {
      NoReusePrefix(states[n - 1], steps[n - 1], states[n]);
      RunFlight(states, steps, n - 1);
      RunInv(states, steps, n - 1);
      StepFlight(states[n - 1], steps[n - 1], states[n]);
    }
  }

  lemma {:induction false} RetiredSince(log: seq<Event>, i: nat)
    requires i < |log| && log[i].Accept?
    ensures Retired(log, log[i].key, log[i].expired)
  {
    if i < |log| - 1 { RetiredSince(log[..|log| - 1], i); }
  }

  lemma {:induction false} SingleFlightAt(log: seq<Event>, i: nat, j: nat)
    requires SingleFlight(log) && i < j < |log| && log[i].Accept? && (log[j].Present? || log[j].Accept?)
    ensures (log[j].key, log[j].expired) != (log[i].key, log[i].expired)
  {
    var before := log[..|log| - 1];
    if j < |log| - 1 { SingleFlightAt(before, i, j); } else { RetiredSince(before, i); }
  }

  /** At most one grant is accepted and stored for an endpoint, a user and an expired token, and
      once it is, nothing is presented for that token again. */
  lemma OneGrantPerExpiredToken(states: seq<State>, steps: seq<Step>, n: nat, i: nat, j: nat)
    requires IsRun(states, steps) && n <= |steps| && NoReuse(states[n].log)
    requires i < j < |states[n].log| && states[n].log[i].Accept?
    requires states[n].log[j].Present? || states[n].log[j].Accept?
    ensures (states[n].log[j].key, states[n].log[j].expired) != (states[n].log[i].key, states[n].log[i].expired)
  {
    RunFlight(states, steps, n);
    SingleFlightAt(states[n].log, i, j);
  }

  /** A later caller that holds the expired token presents nothing: it can only be refused, and what
      it is given is the token in the file, another one, or that there is none exactly when the file
      has no entry for it. */
  lemma LaterCallerGetsTheStoredToken(states: seq<State>, steps: seq<Step>, n: nat, p: Pid)
    requires IsRun(states, steps) && n <= |steps| && NoReuse(states[n].log)
    requires p in states[n].procs && states[n].procs[p].op.Reloaded? && states[n].procs[p].op.call.Refresh?
    requires Retired(states[n].log, states[n].procs[p].op.call.key, states[n].procs[p].op.call.expired)
    ensures var s := states[n];
            var call := s.procs[p].op.call;
            && s.file.Some? && (call.key in s.file.value ==> s.file.value[call.key].token != call.expired)
            && (forall s' :: !Next(s, Take(p), s'))
            && (exists s' :: Next(s, Refuse(p), s'))
            && forall s' :: Next(s, Refuse(p), s') ==>
                 s'.log == s.log + [Returned(call.key, call.expired,
                                             if call.key in s.file.value then Ok(s.file.value[call.key].token)
                                             else Err(TokenNotFound))]
  {
    RunInv(states, steps, n);
    RunFlight(states, steps, n);
    var s := states[n];
    assert OpInv(s, p);
    var op, cache := s.procs[p].op, s.procs[p].cache;
    assert Next(s, Refuse(p), Logged(Ended(s, p, cache),
                                     Returned(op.call.key, op.call.expired, Given(cache, op.call.key,
                                         op.call.expired))));
  }
}
