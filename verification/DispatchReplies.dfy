/** The parts of the dispatcher that send and give back, in the source's own form, against the
    effects the request machine gives them. */
module DispatchReplies {
  import opened Wrappers
  import opened Dispatch
  import Session

  /** Requests deferred onto a task, with the permit `notify_one` stores for each: the map that the
      session's steps give. */
  class DeferredInterrupts {
    var permits: map<Unique, bool>
    var registered: nat

    constructor ()
      ensures permits == map[] && registered == 0
    {
      permits := map[];
      registered := 0;
    }

    method Register(u: Unique)
      modifies this
      ensures permits == old(permits)[u := false] && registered == old(registered) + 1
      ensures forall s :: Follows(old(permits), s, Session.Own(u, Registered)) ==>
                permits == Session.Permits(Session.Apply(s, Session.Own(u, Registered)))
    {
      registered := registered + 1;
      permits := permits[u := false];
      forall s | Follows(old(permits), s, Session.Own(u, Registered))
        ensures permits == Session.Permits(Session.Apply(s, Session.Own(u, Registered)))
      {
        Session.PermitsFollow(s, Session.Own(u, Registered));
      }
    }

    method Remove(u: Unique)
      modifies this`permits
      ensures permits == old(permits) - {u}
      ensures forall s :: Follows(old(permits), s, Session.Own(u, Removed)) ==>
                permits == Session.Permits(Session.Apply(s, Session.Own(u, Removed)))
    {
      permits := permits - {u};
      forall s | Follows(old(permits), s, Session.Own(u, Removed))
        ensures permits == Session.Permits(Session.Apply(s, Session.Own(u, Removed)))
      {
        Session.PermitsFollow(s, Session.Own(u, Removed));
      }
    }

    /** Wakes the task registered for `u`, if there is one, whether or not it waits yet. Asked by an
        INTERRUPT that found no slot, it decides whether that INTERRUPT has found its target. */
    method Wake(u: Unique) returns (found: bool)
      modifies this`permits
      ensures found <==> u in old(permits)
      ensures permits == if found then old(permits)[u := true] else old(permits)
      ensures forall s, i :: Asks(old(permits), s, i, u) ==>
                && Session.CanStep(s, Session.Own(i, Dispatched(found)))
                && permits == Session.Permits(Session.Apply(s, Session.Own(i, Dispatched(found))))
    {
      found := u in permits;
      if found { permits := permits[u := true]; }
      forall s, i | Asks(old(permits), s, i, u)
        ensures Session.CanStep(s, Session.Own(i, Dispatched(found)))
        ensures permits == Session.Permits(Session.Apply(s, Session.Own(i, Dispatched(found))))
      {
        Session.FoundInSlotOrMap(s, s.requests[i]);
        Session.PermitsFollow(s, Session.Own(i, Dispatched(found)));
      }
    }
  }

  /** `permits` are those of a reachable state, which can take the step. */
  ghost predicate Follows(permits: map<Unique, bool>, s: Session.State, step: Session.Step) {
    Session.Inv(s) && permits == Session.Permits(s) && Session.CanStep(s, step)
  }

  /** Request `i` is an INTERRUPT of `u` about to be dispatched, and no slot holds `u`. */
  ghost predicate Asks(permits: map<Unique, bool>, s: Session.State, i: Unique, u: Unique) {
    && Session.Inv(s) && permits == Session.Permits(s) && !Session.InSlot(s, u)
    && i in s.requests && s.requests[i].phase.Received? && s.requests[i].request == Interrupt(u)
  }

  lemma {:induction false} ReferencedSplit(page: seq<Record>, at: nat)
    requires at < |page|
    ensures Referenced(page[..at + 1]) == Referenced(page[..at]) + (if Counted(page[at]) then [page[at].node] else [])
  {
    assert page[..at + 1] == page[..at] + [page[at]];
    ReferencedAppend(page[..at], page[at]);
  }

  lemma Less(counted: multiset<Node>, given: seq<Node>, node: Node)
    ensures counted - multiset(given) - multiset{node} == counted - multiset(given + [node])
  {
    assert multiset(given + [node]) == multiset(given) + multiset{node};
  }

  /** What the race of a listing gave: the page complete, the provider's error, or an INTERRUPT. */
  datatype Race = Listed | ListingError | Interrupted

  function RaceEvent(race: Race): Event {
    match race
    case Listed => Finished(ProviderResult.Ok(0))
    case ListingError => Finished(Errno(false))
    case Interrupted => InterruptWins
  }

  /** The nodes a complete page hands to the kernel. */
  function PageCarries(listed: seq<Record>, plus: bool): seq<Node> {
    if plus then Referenced(listed) else []
  }

  function ListingReply(listed: seq<Record>, plus: bool, race: Race): Reply {
    match race
    case Listed => Success(PageCarries(listed, plus))
    case ListingError => Error(ByProvider)
    case Interrupted => Error(Eintr)
  }

  /** The page's lookups go back unless the kernel takes them. */
  predicate GivesBack(race: Race, outcome: SendOutcome) {
    race.Listed? ==> outcome.Aborted?
  }

  /** The race's end in the request machine. */
  lemma RaceEnds(r: RequestState, plus: bool, race: Race)
    requires Lists(r, plus) && Enabled(r, RaceEvent(race))
    ensures var (sending, effect) := After(r, RaceEvent(race));
            && sending.phase == Sending(ListingReply(r.page, plus, race))
            && effect.released == (if race.Listed? then multiset{} else multiset(PageCarries(r.page, plus)))
            && effect.taken == multiset{}
  {
  }

  /** The reply's delivery in the request machine. */
  lemma ReplyDelivered(r: RequestState, outcome: SendOutcome)
    requires r.phase.Sending?
    ensures var (over, effect) := After(r, Delivered(outcome));
            var carried := if r.phase.reply.Success? then multiset(r.phase.reply.carried) else multiset{};
            && over.answer == Some(r.phase.reply)
            && effect.released == (if outcome.Aborted? then carried else multiset{})
            && effect.taken == (if outcome.Sent? then carried else multiset{})
  {
  }

  /** A listing in its race, on its worker or on its task. */
  ghost predicate Lists(r: RequestState, plus: bool) {
    Good(r) && (r.phase.Racing? || r.phase.Deferred?) && r.request == if plus then Readdirplus else Readdir
  }

  /** A listing from the end of its race to its delivery: the reply, the lookups given back and those
      taken. */
  ghost function Ending(r: RequestState, race: Race, outcome: SendOutcome): (RequestState, multiset<Node>,
      multiset<Node>)
    requires Enabled(r, RaceEvent(race)) && After(r, RaceEvent(race)).0.phase.Sending?
  {
    var (sending, first) := After(r, RaceEvent(race));
    var (over, second) := After(sending, Delivered(outcome));
    (over, first.released + second.released, first.taken + second.taken)
  }

  lemma ListingEnds(r: RequestState, plus: bool, race: Race, outcome: SendOutcome)
    requires Lists(r, plus) && Enabled(r, RaceEvent(race))
    ensures After(r, RaceEvent(race)).0.phase.Sending?
    ensures var (over, released, taken) := Ending(r, race, outcome);
            var carries := multiset(PageCarries(r.page, plus));
            && over.answer == Some(ListingReply(r.page, plus, race))
            && released == (if GivesBack(race, outcome) then carries else multiset{})
            && taken == (if race.Listed? && outcome.Sent? then carries else multiset{})
  {
    RaceEnds(r, plus, race);
    ReplyDelivered(After(r, RaceEvent(race)).0, outcome);
  }

  class Desk {
    /** Lookups the provider has counted. */
    var counted: multiset<Node>
    /** References the kernel has taken. */
    var kernel: multiset<Node>
    var replies: seq<Reply>

    constructor (counted: multiset<Node>, kernel: multiset<Node>)
      ensures this.counted == counted && this.kernel == kernel && replies == []
    {
      this.counted := counted;
      this.kernel := kernel;
      replies := [];
    }

    /** The provider's `reply_failed` for one entry. */
    method ReplyFailed(node: Node)
      modifies this`counted
      ensures counted == old(counted) - multiset{node}
    {
      counted := counted - multiset{node};
    }

    /** `give_back_records`: one lookup of a node for each record that names it, `.` and `..` apart. */
    method GiveBackRecords(listed: seq<Record>)
      modifies this`counted
      ensures counted == old(counted) - multiset(Referenced(listed))
      ensures forall node :: counted[node] ==
                if node == 0 || old(counted)[node] < |NamedAt(listed, node)|
                then (if node == 0 then old(counted)[node] else 0)
                else old(counted)[node] - |NamedAt(listed, node)|
    {
      for i := 0 to |listed|
        invariant counted == old(counted) - multiset(Referenced(listed[..i]))
      {
        ReferencedSplit(listed, i);
        if Counted(listed[i]) {
          Less(old(counted), Referenced(listed[..i]), listed[i].node);
          ReplyFailed(listed[i].node);
        }
      }
      assert listed[..|listed|] == listed;
      forall node { ReferencedCounts(listed, node); }
    }

    /** The send itself: a reply that arrives hands over what it carries. */
    method Transmit(reply: Reply, outcome: SendOutcome)
      modifies this`kernel, this`replies
      ensures replies == old(replies) + [reply]
      ensures kernel == old(kernel) + if outcome.Sent? && reply.Success? then multiset(reply.carried) else multiset{}
    {
      replies := replies + [reply];
      if outcome.Sent? && reply.Success? { kernel := kernel + multiset(reply.carried); }
    }

    /** `finish_reply` for a reply that carries an entry, or nothing. */
    method FinishReply(reply: Reply, entry: Option<Node>, outcome: SendOutcome)
      requires reply.Success? ==> reply.carried == if entry.Some? then [entry.value] else []
      requires reply.Error? ==> entry.None?
      modifies this
      ensures replies == old(replies) + [reply]
      ensures var carried := if reply.Success? then multiset(reply.carried) else multiset{};
              && kernel == old(kernel) + (if outcome.Sent? then carried else multiset{})
              && counted == old(counted) - (if outcome.Aborted? then carried else multiset{})
    {
      Transmit(reply, outcome);
      if outcome.Aborted? && entry.Some? {
        assert multiset([entry.value]) == multiset{entry.value};
        ReplyFailed(entry.value);
      }
    }

    /** `finish_directory_plus`. */
    method FinishDirectoryPlus(listed: seq<Record>, outcome: SendOutcome)
      modifies this
      ensures replies == old(replies) + [Success(Referenced(listed))]
      ensures kernel == old(kernel) + (if outcome.Sent? then multiset(Referenced(listed)) else multiset{})
      ensures counted == old(counted) - (if outcome.Aborted? then multiset(Referenced(listed)) else multiset{})
    {
      Transmit(Success(Referenced(listed)), outcome);
      if outcome.Aborted? { GiveBackRecords(listed); }
    }

    /** `reply_listing`. */
    method ReplyListing(listed: seq<Record>, plus: bool, race: Race, outcome: SendOutcome)
      modifies this
      ensures replies == old(replies) + [ListingReply(listed, plus, race)]
      ensures var carries := multiset(PageCarries(listed, plus));
              && counted == old(counted) - (if GivesBack(race, outcome) then carries else multiset{})
              && kernel == old(kernel) + (if race.Listed? && outcome.Sent? then carries else multiset{})
      // What the request machine makes of the same race and the same outcome.
      ensures forall r :: Lists(r, plus) && r.page == listed && Enabled(r, RaceEvent(race)) ==>
                && After(r, RaceEvent(race)).0.phase.Sending?
                && var (over, released, taken) := Ending(r, race, outcome);
                   && over.answer.Some? && replies == old(replies) + [over.answer.value]
                   && counted == old(counted) - released && kernel == old(kernel) + taken
    {
      forall r | Lists(r, plus) && Enabled(r, RaceEvent(race)) { ListingEnds(r, plus, race, outcome); }
      match race {
        case Listed =>
          if plus {
            FinishDirectoryPlus(listed, outcome);
          } else {
            FinishReply(Success([]), None, outcome);
          }
        case ListingError =>
          if plus { GiveBackRecords(listed); }
          FinishReply(Error(ByProvider), None, outcome);
        case Interrupted =>
          if plus { GiveBackRecords(listed); }
          FinishReply(Error(Eintr), None, outcome);
      }
    }
  }
}
