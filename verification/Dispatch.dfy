/** FUSE request dispatch: every request of a session as a small machine of its own, and the session
    as all of them together with the workers that read them, the lookups the provider has counted
    and the references the kernel holds. The provider is any that keeps the contract of the
    `Filesystem` trait. */
module Dispatch {
  import opened Wrappers

  type Node = nat
  type Unique = nat
  type WorkerId = nat

  datatype WriteKind =
    | Create | Mknod | Mkdir | Symlink | Unlink | Rmdir | Rename | Write | Setattr | Fallocate | Fsync

  datatype Request =
    | Init
    | Destroy
    | Lookup
    | Forget(node: Node, nlookup: nat)
    | BatchForget(entries: seq<(Node, nat)>)
    | Getattr
    | Statfs
    | Opendir
    | Open
    | Readdir
    | Readdirplus
    | Releasedir
    | Release
    | Read
    | Interrupt(target: Unique)
    | Readlink
    | Link
    | Flush
    | Fsyncdir
    | Modify(kind: WriteKind)
    | Unsupported
    | Unknown
    /** The header parses and the body does not; `forget` for FORGET and BATCH_FORGET. */
    | Undecodable(badName: bool, forget: bool)

  /** Whose errno a reply carries. */
  datatype ErrorOrigin = ByProvider | Eintr | Eagain | Eio | Enosys | Enametoolong | DefaultErrno

  /** `carried` are the nodes the kernel takes a reference to with the reply. */
  datatype Reply = Success(carried: seq<Node>) | Error(origin: ErrorOrigin)

  datatype SendOutcome = Sent | Aborted | Broken

  datatype RecordName = Dot | DotDot | Other

  datatype Record = Record(node: Node, name: RecordName)

  /** What a provider future gives: success, with the entry's node where there is one; an errno,
      `partial` if the change was made all the same; or the need for a fetch. */
  datatype ProviderResult = Ok(node: Node) | Errno(partial: bool) | WouldFetch

  datatype Phase =
    /** Read by its worker, not dispatched yet. */
    | Received
    /** The local form, raced against INTERRUPT in the worker's slot. */
    | Racing
    /** A form on the worker that is not raced. */
    | Running
    /** The slot is released, the task not registered yet. */
    | Handoff
    /** On its own task, the fetching form or the fetch raced against INTERRUPT. */
    | Deferred
    /** The completion of a deferred write, not raced. */
    | Completing
    | Sending(reply: Reply)
    /** Answered from its task, still registered. */
    | Replied
    | Done

  datatype RequestState = RequestState(
    request: Request,
    worker: WorkerId,
    onTask: bool,
    phase: Phase,
    /** The READDIRPLUS or READDIR records written so far. */
    page: seq<Record>,
    /** An INTERRUPT has reached the request's slot or its task. */
    interrupted: bool,
    /** An INTERRUPT that found its target, and so is not answered. */
    foundTarget: bool,
    sends: nat,
    answer: Option<Reply>,
    /** How often the request's change was made. */
    applied: nat)

  // ---------------------------------------------------------------------------
  // Kinds of request
  // ---------------------------------------------------------------------------

  predicate Raced(r: Request) {
    r.Lookup? || r.Getattr? || r.Readdir? || r.Readdirplus? || r.Read?
  }

  predicate Defers(r: Request) {
    r.Lookup? || r.Readdir? || r.Readdirplus? || r.Read? || r.Modify?
  }

  /** Answered by a provider call on the worker that is not raced. */
  predicate RunsUnraced(r: Request) {
    r.Statfs? || r.Opendir? || r.Open? || r.Readlink? || r.Link? || r.Flush? || r.Fsyncdir? || r.Modify?
  }

  predicate CarriesEntry(r: Request) {
    r.Lookup? || r.Link? || (r.Modify? && (r.kind.Create? || r.kind.Mknod? || r.kind.Mkdir? || r.kind.Symlink?))
  }

  predicate Changes(r: Request) {
    r.Link? || r.Modify?
  }

  /** The requests the kernel expects no reply to. */
  predicate Unanswered(r: Request) {
    r.Forget? || r.BatchForget? || (r.Undecodable? && r.forget)
  }

  predicate Counted(record: Record) {
    record.node != 0 && record.name.Other?
  }

  /** `referenced_nodeids`: the nodes the kernel takes from a page of READDIRPLUS records. */
  function Referenced(page: seq<Record>): seq<Node> {
    if page == [] then []
    else (if Counted(page[0]) then [page[0].node] else []) + Referenced(page[1..])
  }

  /** A record hands its node over unless it is `.` or `..` or has no node. */
  lemma {:induction false} ReferencedAppend(page: seq<Record>, record: Record)
    ensures Referenced(page + [record]) ==
            match record.name
            case Dot => Referenced(page)
            case DotDot => Referenced(page)
            case Other => if record.node == 0 then Referenced(page) else Referenced(page) + [record.node]
  {
    if page == [] {
      assert (page + [record])[1..] == [];
    } else {
      ReferencedAppend(page[1..], record);
      assert (page + [record])[1..] == page[1..] + [record];
    }
  }

  /** The records of a page that name a node, other than `.` and `..`. */
  ghost function NamedAt(page: seq<Record>, node: Node): set<nat> {
    set i: nat | i < |page| && page[i].node == node && page[i].name == Other
  }

  lemma NamedAppend(page: seq<Record>, record: Record, node: Node)
    ensures |NamedAt(page + [record], node)| ==
            |NamedAt(page, node)| + if record.node == node && record.name == Other then 1 else 0
  {
    var n := |page|;
    var all := page + [record];
    assert forall i: nat :: i < n ==> all[i] == page[i];
    if record.node == node && record.name == Other {
      assert NamedAt(all, node) == NamedAt(page, node) + {n};
    } else {
      assert NamedAt(all, node) == NamedAt(page, node);
    }
  }

  lemma OneMoreNode(nodes: seq<Node>, node: Node, other: Node)
    ensures multiset(nodes + [node])[other] == multiset(nodes)[other] + if node == other then 1 else 0
  {
  }

  /** A page hands over each node once for every record that names it, and node 0 never. */
  lemma {:induction false} ReferencedCounts(page: seq<Record>, node: Node)
    ensures multiset(Referenced(page))[node] == if node == 0 then 0 else |NamedAt(page, node)|
    decreases |page|
  {
    if page == [] {
      assert NamedAt(page, node) == {};
    } else {
      var before, last := page[..|page| - 1], page[|page| - 1];
      assert page == before + [last];
      ReferencedCounts(before, node);
      ReferencedAppend(before, last);
      NamedAppend(before, last, node);
      OneMoreNode(Referenced(before), last.node, node);
    }
  }

  function Copies(node: Node, n: nat): multiset<Node> {
    multiset{}[node := n]
  }

  function BatchNodes(entries: seq<(Node, nat)>): multiset<Node> {
    if entries == [] then multiset{} else Copies(entries[0].0, entries[0].1) + BatchNodes(entries[1..])
  }

  /** A FORGET gives up as many references to its node as it says, a BATCH_FORGET those of all its
      entries. */
  lemma {:induction false} ForgetsCount(node: Node, nlookup: nat, entries: seq<(Node, nat)>, other: Node)
    ensures Forgets(Forget(node, nlookup))[other] == if other == node then nlookup else 0
    ensures Forgets(BatchForget([])) == multiset{}
    ensures Forgets(BatchForget([(node, nlookup)] + entries))[other] ==
            Forgets(BatchForget(entries))[other] + if other == node then nlookup else 0
  {
    assert ([(node, nlookup)] + entries)[1..] == entries;
  }

  /** The references the kernel gives up with a request. */
  function Forgets(r: Request): multiset<Node> {
    match r
    case Forget(node, nlookup) => Copies(node, nlookup)
    case BatchForget(entries) => BatchNodes(entries)
    case _ => multiset{}
  }

  // ---------------------------------------------------------------------------
  // One request
  // ---------------------------------------------------------------------------

  datatype Event =
    /** Dispatched; for an INTERRUPT, whether a slot or a task had its target. */
    | Dispatched(found: bool)
    | Row(record: Record)
    | Finished(result: ProviderResult)
    | InterruptWins
    | Registered
    | Delivered(outcome: SendOutcome)
    | Removed

  /** What an event does to the lookups: counted by the provider, given back or forgotten by it,
      taken by the kernel. */
  datatype Effect = Effect(counted: multiset<Node>, released: multiset<Node>, taken: multiset<Node>)

  const NOTHING: Effect := Effect(multiset{}, multiset{}, multiset{})

  /** What a provider may answer, by the trait's contract: `WouldFetch` only from a local form, with
      nothing written and nothing counted, or from `read`. */
  predicate MayFinish(r: RequestState, result: ProviderResult) {
    match r.phase
    case Racing => result.WouldFetch? ==> Defers(r.request) && r.page == []
    case Running => result.WouldFetch? ==> r.request.Modify?
    case Deferred => result.WouldFetch? ==> r.request.Read?
    case Completing => !result.WouldFetch? && (r.request == Modify(Fsync) ==> result.Ok?)
    case _ => false
  }

  predicate Enabled(r: RequestState, e: Event) {
    match e
    case Dispatched(found) => r.phase.Received? && (found ==> r.request.Interrupt?)
    case Row(_) => (r.phase.Racing? || r.phase.Deferred?) && (r.request.Readdir? || r.request.Readdirplus?)
    case Finished(result) => MayFinish(r, result)
    case InterruptWins => (r.phase.Racing? || r.phase.Deferred?) && r.interrupted
    case Registered => r.phase.Handoff?
    case Delivered(_) => r.phase.Sending?
    case Removed => r.phase.Replied?
  }

  /** The lookups a page has counted. */
  function PageNodes(r: RequestState): multiset<Node> {
    if r.request.Readdirplus? then multiset(Referenced(r.page)) else multiset{}
  }

  /** The nodes of a successful answer, each counted once by the provider. */
  function Carried(r: RequestState, node: Node): seq<Node> {
    if CarriesEntry(r.request) then [node] else if r.request.Readdirplus? then Referenced(r.page) else []
  }

  /** The lookup a success itself counts; those of a page were counted with its records. */
  function EntryNodes(r: RequestState, node: Node): multiset<Node> {
    if CarriesEntry(r.request) then multiset{node} else multiset{}
  }

  /** Answers with an error: the lookups of the page written so far are given back first. */
  function Fails(r: RequestState, origin: ErrorOrigin): (RequestState, Effect) {
    (r.(phase := Sending(Error(origin)), page := []), NOTHING.(released := PageNodes(r)))
  }

  function Succeeds(r: RequestState, node: Node): (RequestState, Effect) {
    (r.(phase := Sending(Success(Carried(r, node))), page := []), NOTHING.(counted := EntryNodes(r, node)))
  }

  function Dispatching(r: RequestState, found: bool): (RequestState, Effect) {
    var q := r.request;
    if Unanswered(q) then (r.(phase := Done), NOTHING.(released := Forgets(q)))
    else if found then (r.(phase := Done, foundTarget := true), NOTHING)
    else if Raced(q) then (r.(phase := Racing), NOTHING)
    else if RunsUnraced(q) then (r.(phase := Running), NOTHING)
    else if q.Init? then Fails(r, Eio)
    else if q.Interrupt? then Fails(r, Eagain)
    else if q.Unsupported? then Fails(r, DefaultErrno)
    else if q.Unknown? then Fails(r, Enosys)
    else if q.Undecodable? then Fails(r, if q.badName then Enametoolong else Eio)
    // DESTROY, RELEASE and RELEASEDIR always succeed.
    else Succeeds(r, 0)
  }

  /** A change is made by the form that answers: the local form, or the completion. */
  function Applies(r: RequestState, result: ProviderResult): nat {
    if Changes(r.request) && !r.phase.Deferred? && (result.Ok? || (result.Errno? && result.partial)) then 1 else 0
  }

  function Finishing(r: RequestState, result: ProviderResult): (RequestState, Effect) {
    var r1 := r.(applied := r.applied + Applies(r, result));
    match result
    case Ok(node) =>
      // The fetch of a deferred write: its completion follows.
      if r.phase.Deferred? && r.request.Modify? then (r1.(phase := Completing), NOTHING) else Succeeds(r1, node)
    case Errno(_) => Fails(r1, ByProvider)
    case WouldFetch =>
      // A fetching READ cannot defer again.
      if r.phase.Deferred? then Fails(r1, Eio) else (r1.(phase := Handoff), NOTHING)
  }

  function Delivering(r: RequestState, outcome: SendOutcome): (RequestState, Effect)
    requires r.phase.Sending?
  {
    var carried := if r.phase.reply.Success? then multiset(r.phase.reply.carried) else multiset{};
    (r.(phase := if r.onTask then Replied else Done, sends := r.sends + 1, answer := Some(r.phase.reply)),
     match outcome
     case Sent => NOTHING.(taken := carried)
     case Aborted => NOTHING.(released := carried)
     case Broken => NOTHING)
  }

  function After(r: RequestState, e: Event): (RequestState, Effect)
    requires Enabled(r, e)
  {
    match e
    case Dispatched(found) => Dispatching(r, found)
    case Row(record) =>
      (r.(page := r.page + [record]),
       if r.request.Readdirplus? && Counted(record) then NOTHING.(counted := multiset{record.node}) else NOTHING)
    case Finished(result) => Finishing(r, result)
    case InterruptWins => Fails(r, Eintr)
    case Registered => (r.(phase := Deferred, onTask := true, interrupted := false), NOTHING)
    case Delivered(outcome) => Delivering(r, outcome)
    case Removed => (r.(phase := Done), NOTHING)
  }

  /** Which local forms may need a fetch, and go to a task of their own when they do. */
  lemma LocalFormsDefer(r: RequestState)
    requires Good(r) && (r.phase.Racing? || r.phase.Running?) && r.page == []
    ensures Enabled(r, Finished(WouldFetch)) <==>
            || r.request == Lookup || r.request == Readdir || r.request == Readdirplus || r.request == Read
            || r.request.Modify?
    ensures Enabled(r, Finished(WouldFetch)) ==> After(r, Finished(WouldFetch)).0.phase == Handoff
  {
  }

  /** The form that answers a changing request makes its change: when it succeeds, and when its error
      says it was made all the same. A fetch makes none. */
  lemma ChangeIsMadeByTheAnswer(r: RequestState, result: ProviderResult)
    requires Good(r) && Enabled(r, Finished(result)) && (r.request == Link || r.request.Modify?)
    ensures After(r, Finished(result)).0.applied - r.applied ==
            if r.phase.Deferred? then 0
            else match result
              case Ok(_) => 1
              case Errno(partial) => if partial then 1 else 0
              case WouldFetch => 0
  {
  }

  // ---------------------------------------------------------------------------
  // What every event of one request keeps
  // ---------------------------------------------------------------------------

  /** Lookups counted for a request that neither the kernel nor the provider has settled yet. */
  function Pending(r: RequestState): multiset<Node> {
    match r.phase
    case Received => Forgets(r.request)
    case Racing => PageNodes(r)
    case Deferred => PageNodes(r)
    case Sending(reply) => if reply.Success? then multiset(reply.carried) else multiset{}
    case _ => multiset{}
  }

  /** The request was answered, and once. */
  ghost predicate AnsweredOnce(r: RequestState) {
    r.sends == 1 && r.answer.Some?
  }

  ghost predicate NotAnswered(r: RequestState) {
    r.sends == 0 && r.answer.None?
  }

  /** A write-family request other than FSYNC, whose flush is its fetch. */
  predicate WritesOnce(r: Request) {
    r.Link? || (r.Modify? && !r.kind.Fsync?)
  }

  /** What each kind of request can be answered with. */
  ghost predicate MayAnswer(q: Request, reply: Reply) {
    match q
    case Init => reply == Error(Eio)
    case Destroy => reply == Success([])
    case Release => reply == Success([])
    case Releasedir => reply == Success([])
    case Interrupt(_) => reply == Error(Eagain)
    case Unsupported => reply == Error(DefaultErrno)
    case Unknown => reply == Error(Enosys)
    case Undecodable(badName, _) => reply == Error(if badName then Enametoolong else Eio)
    case Forget(_, _) => false
    case BatchForget(_) => false
    case Lookup => Carries(reply, 1) || reply == Error(Eintr)
    case Getattr => Carries(reply, 0) || reply == Error(Eintr)
    case Readdir => Carries(reply, 0) || reply == Error(Eintr)
    case Readdirplus => reply.Success? || reply == Error(ByProvider) || reply == Error(Eintr)
    case Read => Carries(reply, 0) || reply == Error(Eintr) || reply == Error(Eio)
    case Statfs => Carries(reply, 0)
    case Opendir => Carries(reply, 0)
    case Open => Carries(reply, 0)
    case Readlink => Carries(reply, 0)
    case Flush => Carries(reply, 0)
    case Fsyncdir => Carries(reply, 0)
    case Link => Carries(reply, 1)
    case Modify(kind) =>
      || Carries(reply, if kind.Create? || kind.Mknod? || kind.Mkdir? || kind.Symlink? then 1 else 0)
      || reply == Error(Eintr)
  }

  /** A success that hands over `n` lookups, or the provider's error. */
  ghost predicate Carries(reply: Reply, n: nat) {
    (reply.Success? && |reply.carried| == n) || reply == Error(ByProvider)
  }

  ghost predicate ReplyMatches(r: RequestState, reply: Reply) {
    && MayAnswer(r.request, reply)
    && (WritesOnce(r.request) ==>
          && (reply.Success? ==> r.applied == 1)
          && (reply == Error(Eintr) ==> r.applied == 0)
          && r.applied <= 1)
  }

  /** Where the dispatcher takes each kind of request. */
  lemma DispatchCourse(r: RequestState, found: bool)
    requires Good(r) && Enabled(r, Dispatched(found))
    ensures var phase := After(r, Dispatched(found)).0.phase;
            match r.request
            case Lookup => phase == Racing
            case Getattr => phase == Racing
            case Readdir => phase == Racing
            case Readdirplus => phase == Racing
            case Read => phase == Racing
            case Statfs => phase == Running
            case Opendir => phase == Running
            case Open => phase == Running
            case Readlink => phase == Running
            case Link => phase == Running
            case Flush => phase == Running
            case Fsyncdir => phase == Running
            case Modify(_) => phase == Running
            case Forget(_, _) => phase == Done
            case BatchForget(_) => phase == Done
            case Undecodable(_, forget) => if forget then phase == Done else phase.Sending?
            case Interrupt(_) => if found then phase == Done else phase == Sending(Error(Eagain))
            case _ => phase.Sending?
  {
  }

  ghost predicate Good(r: RequestState) {
    && (r.foundTarget ==> r.request.Interrupt? && r.phase.Done?)
    && (r.onTask ==> Defers(r.request))
    && (r.page != [] ==> (r.phase.Racing? || r.phase.Deferred?) && (r.request.Readdir? || r.request.Readdirplus?))
    && match r.phase
       case Received => NotAnswered(r) && r.applied == 0 && !r.onTask
       case Racing => NotAnswered(r) && r.applied == 0 && !r.onTask && Raced(r.request)
       case Running => NotAnswered(r) && r.applied == 0 && !r.onTask && RunsUnraced(r.request)
       case Handoff => NotAnswered(r) && r.applied == 0 && !r.onTask && Defers(r.request)
       case Deferred => NotAnswered(r) && r.applied == 0 && r.onTask
       case Completing => NotAnswered(r) && r.applied == 0 && r.onTask && r.request.Modify?
       case Sending(reply) => NotAnswered(r) && ReplyMatches(r, reply) && !Unanswered(r.request)
       case Replied => AnsweredOnce(r) && ReplyMatches(r, r.answer.value) && r.onTask
       case Done =>
         if Unanswered(r.request) || r.foundTarget then NotAnswered(r)
         else AnsweredOnce(r) && ReplyMatches(r, r.answer.value)
  }

  lemma DispatchedGood(r: RequestState, found: bool)
    requires Good(r) && Enabled(r, Dispatched(found))
    ensures Good(After(r, Dispatched(found)).0)
  {
  }

  lemma FinishedOffWorkerGood(r: RequestState, result: ProviderResult)
    requires Good(r) && Enabled(r, Finished(result)) && r.phase.Deferred?
    ensures Good(After(r, Finished(result)).0)
  {
  }

  lemma FinishedRacingGood(r: RequestState, result: ProviderResult)
    requires Good(r) && Enabled(r, Finished(result)) && r.phase.Racing?
    ensures Good(After(r, Finished(result)).0)
  {
  }

  lemma FinishedRunningGood(r: RequestState, result: ProviderResult)
    requires Good(r) && Enabled(r, Finished(result)) && r.phase.Running?
    ensures Good(After(r, Finished(result)).0)
  {
  }

  lemma FinishedCompletingGood(r: RequestState, result: ProviderResult)
    requires Good(r) && Enabled(r, Finished(result)) && r.phase.Completing?
    ensures Good(After(r, Finished(result)).0)
  {
  }

  lemma FinishedGood(r: RequestState, result: ProviderResult)
    requires Good(r) && Enabled(r, Finished(result))
    ensures Good(After(r, Finished(result)).0)
  {
    if r.phase.Deferred? { FinishedOffWorkerGood(r, result); }
    else if r.phase.Racing? { FinishedRacingGood(r, result); }
    else if r.phase.Running? { FinishedRunningGood(r, result); }
    else { FinishedCompletingGood(r, result); }
  }

  lemma AfterGood(r: RequestState, e: Event)
    requires Good(r) && Enabled(r, e)
    ensures Good(After(r, e).0)
  {
    match e
    case Dispatched(found) => DispatchedGood(r, found);
    case Finished(result) => FinishedGood(r, result);
    case Row(_) =>
    case InterruptWins =>
    case Registered =>
    case Delivered(_) =>
    case Removed =>
  }

  /** Lookups balance: what a request owes before an event, and what the event counts, is what it
      owes afterwards, has given back or forgotten, or has handed to the kernel. */
  ghost predicate Balances(r: RequestState, after: (RequestState, Effect)) {
    Pending(r) + after.1.counted == Pending(after.0) + after.1.released + after.1.taken
  }

  lemma DispatchedBalances(r: RequestState, found: bool)
    requires Good(r) && Enabled(r, Dispatched(found))
    ensures Balances(r, After(r, Dispatched(found)))
  {
    if !Unanswered(r.request) { StartedBalances(r, found); }
  }

  lemma StartedBalances(r: RequestState, found: bool)
    requires Good(r) && Enabled(r, Dispatched(found)) && !Unanswered(r.request)
    ensures Balances(r, After(r, Dispatched(found)))
  {
    assert r.page == [] && Referenced([]) == [] && Forgets(r.request) == multiset{};
  }

  /** While a provider call is under way, a request owes the lookups of its page. */
  lemma PendingIsPage(r: RequestState)
    requires Good(r) && (r.phase.Racing? || r.phase.Running? || r.phase.Deferred? || r.phase.Completing?)
    ensures Pending(r) == PageNodes(r)
  {
  }

  lemma FailsBalances(r: RequestState, r1: RequestState, origin: ErrorOrigin)
    requires Pending(r) == PageNodes(r) == PageNodes(r1)
    ensures Balances(r, Fails(r1, origin))
  {
    var after := Fails(r1, origin);
    assert Pending(after.0) == multiset{};
    assert after.1.counted == multiset{} && after.1.taken == multiset{} && after.1.released == PageNodes(r1);
  }

  lemma SucceedsBalances(r: RequestState, r1: RequestState, node: Node)
    requires Pending(r) == PageNodes(r) == PageNodes(r1)
    ensures Balances(r, Succeeds(r1, node))
  {
    var after := Succeeds(r1, node);
    assert Pending(after.0) == multiset(Carried(r1, node));
    assert after.1.released == multiset{} && after.1.taken == multiset{} && after.1.counted == EntryNodes(r1, node);
    if CarriesEntry(r1.request) {
      assert PageNodes(r1) == multiset{};
      assert multiset([node]) == multiset{node};
    } else {
      assert EntryNodes(r1, node) == multiset{};
      assert multiset(Carried(r1, node)) == PageNodes(r1);
    }
  }

  lemma QuietBalances(r: RequestState, r': RequestState)
    requires Pending(r) == Pending(r')
    ensures Balances(r, (r', NOTHING))
  {
  }

  lemma EmptyPage(r: RequestState)
    requires Good(r) && (r.page == [] || r.request.Modify?)
    ensures PageNodes(r) == multiset{}
  {
  }

  lemma FinishedBalances(r: RequestState, result: ProviderResult)
    requires Good(r) && Enabled(r, Finished(result))
    ensures Balances(r, After(r, Finished(result)))
  {
    PendingIsPage(r);
    var r1 := r.(applied := r.applied + Applies(r, result));
    var after := After(r, Finished(result));
    if result.Errno? || (result.WouldFetch? && r.phase.Deferred?) {
      var origin := if result.Errno? then ByProvider else Eio;
      assert after == Fails(r1, origin);
      FailsBalances(r, r1, origin);
    } else if result.Ok? && !(r.phase.Deferred? && r.request.Modify?) {
      assert after == Succeeds(r1, result.node);
      SucceedsBalances(r, r1, result.node);
    } else {
      EmptyPage(r);
      assert after.1 == NOTHING && Pending(after.0) == multiset{};
      QuietBalances(r, after.0);
    }
  }

  lemma RowBalances(r: RequestState, record: Record)
    requires Good(r) && Enabled(r, Row(record))
    ensures Balances(r, After(r, Row(record)))
  {
    RowStep(r, record);
  }

  lemma RowStep(r: RequestState, record: Record)
    requires r.phase.Racing? || r.phase.Deferred?
    requires Enabled(r, Row(record))
    ensures Balances(r, After(r, Row(record)))
  {
    var after := After(r, Row(record));
    RowPage(r.page, record);
    if r.request.Readdirplus? && Counted(record) {
      CountedBalances(r, after, record.node);
    } else {
      QuietBalances(r, after.0);
    }
  }

  lemma CountedBalances(r: RequestState, after: (RequestState, Effect), node: Node)
    requires Pending(after.0) == Pending(r) + multiset{node} && after.1 == NOTHING.(counted := multiset{node})
    ensures Balances(r, after)
  {
  }

  lemma RowPage(page: seq<Record>, record: Record)
    ensures multiset(Referenced(page + [record])) ==
            multiset(Referenced(page)) + if Counted(record) then multiset{record.node} else multiset{}
  {
    ReferencedAppend(page, record);
    Grown(Referenced(page), record.node);
  }

  lemma Grown(nodes: seq<Node>, node: Node)
    ensures multiset(nodes + [node]) == multiset(nodes) + multiset{node}
  {
  }

  lemma DeliveredBalances(r: RequestState, outcome: SendOutcome)
    requires r.phase.Sending? && outcome != Broken
    ensures Balances(r, After(r, Delivered(outcome)))
  {
    var after := After(r, Delivered(outcome));
    assert Pending(after.0) == multiset{} && after.1.counted == multiset{};
    if outcome.Sent? {
      assert after.1.taken == Pending(r) && after.1.released == multiset{};
    } else {
      assert after.1.released == Pending(r) && after.1.taken == multiset{};
    }
  }

  lemma AfterBalances(r: RequestState, e: Event)
    requires Good(r) && Enabled(r, e) && e != Delivered(Broken)
    ensures Balances(r, After(r, e))
  {
    match e
    case Dispatched(found) => DispatchedBalances(r, found);
    case Row(record) => RowBalances(r, record);
    case Finished(result) => FinishedBalances(r, result);
    case InterruptWins => PendingIsPage(r); FailsBalances(r, r, Eintr);
    case Registered => assert Pending(r) == multiset{} == Pending(After(r, e).0);
    case Delivered(outcome) => DeliveredBalances(r, outcome);
    case Removed =>
  }
}
