/** The retry waiter shared by remote operations. Jitter is left out: it moves an interval, never
    the number of them. */
module RetryWaiter {
  import opened Wrappers

  datatype Retry = Retry(current: nat, maximum: nat, counter: nat, limit: nat)

  /** `next_interval`: the base interval, doubling up to the maximum, and `None` once `limit`
      intervals have been taken. */
  function NextInterval(r: Retry): (next: (Option<nat>, Retry))
    ensures next.0.Some? <==> r.counter < r.limit
    ensures next.0.Some? ==> next.1.counter == r.counter + 1
    ensures next.0.None? ==> next.1 == r
    ensures next.1.limit == r.limit && next.1.maximum == r.maximum
  {
    if r.counter >= r.limit then (None, r)
    else (Some(r.current), r.(current := if r.current * 2 <= r.maximum then r.current * 2 else r.maximum,
                              counter := r.counter + 1))
  }

  /** The waiter once `n` intervals have been asked for. */
  function Taken(r: Retry, n: nat): Retry {
    if n == 0 then r else NextInterval(Taken(r, n - 1)).1
  }

  function Doubled(interval: nat, times: nat): nat {
    if times == 0 then interval else 2 * Doubled(interval, times - 1)
  }

  function Capped(interval: nat, maximum: nat): nat {
    if interval <= maximum then interval else maximum
  }

  /** The `n`th interval after the first is the first doubled `n` times, at most the maximum; there
      are `limit` of them and no more. */
  lemma {:induction false} NthInterval(r: Retry, n: nat)
    requires r.counter == 0
    ensures n < r.limit ==>
              NextInterval(Taken(r, n)).0 == Some(if n == 0 then r.current
                  else Capped(Doubled(r.current, n), r.maximum))
    ensures n >= r.limit ==> NextInterval(Taken(r, n)).0 == None
    ensures n <= r.limit ==> Taken(r, n).counter == n
    ensures n >= r.limit ==> Taken(r, n).counter == r.limit
    ensures Taken(r, n).limit == r.limit && Taken(r, n).maximum == r.maximum
  {
    if n > 0 { NthInterval(r, n - 1); }
  }
}

/** Batched reads with resends, from lore-aws: chunks of at most 100 keys sent concurrently, each
    with its own bounded retry, joined in any order, all or nothing. */
module BatchGet {
  import opened Collections
  import opened RetryWaiter
  import opened Wrappers

  const BATCH_GET_ITEM_MAX_COUNT: nat := 100

  type Key = nat
  type Value = nat

  /** An item carries the key it is stored under. */
  datatype Item = Item(key: Key, value: Value)

  type Table = map<Key, Value>

  /** What joining a request's task gives. */
  datatype Reply =
    | Answer(items: seq<Item>, unprocessed: seq<Key>)
    | SendFailed
    | JoinFailed

  /** The service answers the `n`th join, for a request of `keys`. */
  type Service = (nat, seq<Key>) -> Reply

  datatype BatchError = SdkError | JoinError | UnprocessedKeys(remaining: nat)

  /** One request in flight, with the retry that its unprocessed keys would use. */
  datatype Task = Task(keys: seq<Key>, backoff: Retry)

  // ---------------------------------------------------------------------------
  // What a read of some keys must return
  // ---------------------------------------------------------------------------

  /** How often `item` belongs in the answer for `keys`: once for each time its key was asked for,
      if the table holds it. */
  ghost function Expected(table: Table, keys: multiset<Key>, item: Item): nat {
    if item.key in table && table[item.key] == item.value then keys[item.key] else 0
  }

  ghost predicate ExactlyStored(table: Table, keys: multiset<Key>, items: seq<Item>) {
    forall item :: multiset(items)[item] == Expected(table, keys, item)
  }

  /** The service may leave any of a request's keys unprocessed, and answers for the others exactly
      what is stored. */
  ghost predicate Honest(table: Table, service: Service) {
    forall n, keys :: service(n, keys).Answer? ==>
      && multiset(service(n, keys).unprocessed) <= multiset(keys)
      && ExactlyStored(table, multiset(keys) - multiset(service(n, keys).unprocessed), service(n, keys).items)
  }

  lemma MoreItems(table: Table, done: multiset<Key>, output: seq<Item>, more: multiset<Key>, items: seq<Item>)
    requires ExactlyStored(table, done, output) && ExactlyStored(table, more, items)
    ensures ExactlyStored(table, done + more, output + items)
  {
    forall item ensures multiset(output + items)[item] == Expected(table, done + more, item) {
      assert multiset(output)[item] == Expected(table, done, item);
      assert multiset(items)[item] == Expected(table, more, item);
    }
  }

  // ---------------------------------------------------------------------------
  // The tasks in flight
  // ---------------------------------------------------------------------------

  ghost function Pending(tasks: seq<Task>): multiset<Key> {
    if tasks == [] then multiset{} else multiset(tasks[0].keys) + Pending(tasks[1..])
  }

  /** The resends the tasks in flight may still make. */
  ghost function Resends(tasks: seq<Task>, limit: nat): int {
    if tasks == [] then 0 else limit - tasks[0].backoff.counter + Resends(tasks[1..], limit)
  }

  lemma {:induction false} TakeKeys(tasks: seq<Task>, at: nat)
    requires at < |tasks|
    ensures Pending(tasks) == multiset(tasks[at].keys) + Pending(Without(tasks, at))
  {
    if at == 0 {
      assert Without(tasks, at) == tasks[1..];
    } else {
      TakeKeys(tasks[1..], at - 1);
      assert Without(tasks, at)[1..] == Without(tasks[1..], at - 1);
      Exchange(multiset(tasks[0].keys), multiset(tasks[at].keys), Pending(Without(tasks[1..], at - 1)));
    }
  }

  lemma {:induction false} TakeResends(tasks: seq<Task>, at: nat, limit: nat)
    requires at < |tasks|
    ensures Resends(tasks, limit) == limit - tasks[at].backoff.counter + Resends(Without(tasks, at), limit)
  {
    if at == 0 {
      assert Without(tasks, at) == tasks[1..];
    } else {
      TakeResends(tasks[1..], at - 1, limit);
      assert Without(tasks, at)[1..] == Without(tasks[1..], at - 1);
    }
  }

  lemma {:induction false} AddOne(tasks: seq<Task>, task: Task, limit: nat)
    ensures Pending(tasks + [task]) == Pending(tasks) + multiset(task.keys)
    ensures Resends(tasks + [task], limit) == Resends(tasks, limit) + limit - task.backoff.counter
  {
    if tasks == [] {
      assert (tasks + [task])[1..] == [];
    } else {
      AddOne(tasks[1..], task, limit);
      assert (tasks + [task])[1..] == tasks[1..] + [task];
    }
  }

  /** A request of at most 100 keys with a retry that is not overspent. */
  ghost predicate Sendable(task: Task, limit: nat) {
    && 0 < |task.keys| <= BATCH_GET_ITEM_MAX_COUNT
    && task.backoff.limit == limit && task.backoff.counter <= limit
  }

  lemma {:induction false} ResendsNonNegative(tasks: seq<Task>, limit: nat)
    requires forall t :: t in tasks ==> Sendable(t, limit)
    ensures Resends(tasks, limit) >= 0
  {
    if tasks != [] {
      assert Sendable(tasks[0], limit);
      ResendsNonNegative(tasks[1..], limit);
    }
  }

  lemma WithoutMembers(tasks: seq<Task>, at: nat)
    requires at < |tasks|
    ensures forall t :: t in Without(tasks, at) ==> t in tasks
  {
  }

  function Requests(tasks: seq<Task>): (r: seq<seq<Key>>)
    ensures |r| == |tasks| && forall i :: 0 <= i < |r| ==> r[i] == tasks[i].keys
  {
    seq(|tasks|, i requires 0 <= i < |tasks| => tasks[i].keys)
  }

  function DivCeil(n: nat, d: nat): nat
    requires d > 0
  {
    (n + d - 1) / d
  }

  // ---------------------------------------------------------------------------
  // The read
  // ---------------------------------------------------------------------------

  /** The chunks of a list of keys: its last hundred, then those of the rest. */
  function Chunks(keys: seq<Key>): seq<seq<Key>> {
    if keys == [] then []
    else
      var at := if |keys| > BATCH_GET_ITEM_MAX_COUNT then |keys| - BATCH_GET_ITEM_MAX_COUNT else 0;
      [keys[at..]] + Chunks(keys[..at])
  }

  /** The first loop of `batch_get_chunks`: splits the last keys off, a chunk at a time. */
  method Split(keys: seq<Key>, backoff: Retry) returns (tasks: seq<Task>)
    requires backoff.counter == 0
    ensures Pending(tasks) == multiset(keys) && Requests(tasks) == Chunks(keys)
    ensures forall t :: t in tasks ==> Sendable(t, backoff.limit) && t.backoff.counter == 0
    ensures |tasks| == DivCeil(|keys|, BATCH_GET_ITEM_MAX_COUNT)
    ensures Resends(tasks, backoff.limit) == |tasks| * backoff.limit
  {
    tasks := [];
    var rest := keys;
    while rest != []
      invariant Pending(tasks) + multiset(rest) == multiset(keys)
      invariant Requests(tasks) + Chunks(rest) == Chunks(keys)
      invariant forall t :: t in tasks ==> Sendable(t, backoff.limit) && t.backoff.counter == 0
      invariant |tasks| + DivCeil(|rest|, BATCH_GET_ITEM_MAX_COUNT) == DivCeil(|keys|, BATCH_GET_ITEM_MAX_COUNT)
      invariant Resends(tasks, backoff.limit) == |tasks| * backoff.limit
      decreases |rest|
    {
      var at := if |rest| > BATCH_GET_ITEM_MAX_COUNT then |rest| - BATCH_GET_ITEM_MAX_COUNT else 0;
      var chunk := rest[at..];
      SplitChunk(tasks, rest, at, backoff);
      RequestsAppend(tasks, Task(chunk, backoff), Chunks(rest[..at]));
      tasks := tasks + [Task(chunk, backoff)];
      rest := rest[..at];
    }
  }

  lemma RequestsAppend(tasks: seq<Task>, task: Task, more: seq<seq<Key>>)
    ensures Requests(tasks + [task]) + more == Requests(tasks) + ([task.keys] + more)
  {
  }

  lemma SplitChunk(tasks: seq<Task>, rest: seq<Key>, at: nat, backoff: Retry)
    requires at <= |rest| && backoff.counter == 0
    ensures var more := tasks + [Task(rest[at..], backoff)];
            && Pending(more) + multiset(rest[..at]) == Pending(tasks) + multiset(rest)
            && (Resends(tasks, backoff.limit) == |tasks| * backoff.limit ==>
                Resends(more, backoff.limit) == |more| * backoff.limit)
  {
    assert rest == rest[..at] + rest[at..];
    AddOne(tasks, Task(rest[at..], backoff), backoff.limit);
    assert (|tasks| + 1) * backoff.limit == |tasks| * backoff.limit + backoff.limit;
  }

  /** `done` are the keys answered so far; the others are in flight. */
  ghost predicate Accounted(table: Table, keys: multiset<Key>, tasks: seq<Task>, output: seq<Item>,
      done: multiset<Key>) {
    done + Pending(tasks) == keys && ExactlyStored(table, done, output)
  }

  /** A task in flight is a request that was sent, after as many as its retry has counted. */
  ghost predicate WasSent(task: Task, limit: nat, requests: seq<seq<Key>>) {
    Sendable(task, limit) && task.keys in requests && |requests| > task.backoff.counter
  }

  ghost predicate Sent(limit: nat, bound: nat, tasks: seq<Task>, requests: seq<seq<Key>>) {
    && |requests| + Resends(tasks, limit) <= bound
    && (forall t :: t in tasks ==> WasSent(t, limit, requests))
    && (forall keys :: keys in requests ==> 0 < |keys| <= BATCH_GET_ITEM_MAX_COUNT)
  }

  /** The keys of one request, part answered and part left, against those of all requests. */
  lemma PartAnswered(done: multiset<Key>, others: multiset<Key>, request: multiset<Key>, left: multiset<Key>,
      all: multiset<Key>)
    requires done + (request + others) == all && left <= request
    ensures done + (request - left) + (others + left) == all
  {
    assert request == (request - left) + left;
  }

  lemma JoinAccounts(table: Table, keys: multiset<Key>, tasks: seq<Task>, output: seq<Item>, done: multiset<Key>,
                     at: nat, items: seq<Item>, left: seq<Key>, next: Retry)
    requires at < |tasks| && Accounted(table, keys, tasks, output, done)
    requires multiset(left) <= multiset(tasks[at].keys)
    requires ExactlyStored(table, multiset(tasks[at].keys) - multiset(left), items)
    ensures var answered := done + (multiset(tasks[at].keys) - multiset(left));
            && Accounted(table, keys, Without(tasks, at) + [Task(left, next)], output + items, answered)
            && (left == [] ==> Accounted(table, keys, Without(tasks, at), output + items, answered))
  {
    TakeKeys(tasks, at);
    AddOne(Without(tasks, at), Task(left, next), 0);
    PartAnswered(done, Pending(Without(tasks, at)), multiset(tasks[at].keys), multiset(left), keys);
    MoreItems(table, done, output, multiset(tasks[at].keys) - multiset(left), items);
  }

  lemma JoinEnds(limit: nat, bound: nat, tasks: seq<Task>, requests: seq<seq<Key>>, at: nat)
    requires at < |tasks| && Sent(limit, bound, tasks, requests)
    ensures Sent(limit, bound, Without(tasks, at), requests)
    ensures 0 <= Resends(Without(tasks, at), limit) <= Resends(tasks, limit) - limit + tasks[at].backoff.counter
    ensures tasks[at].backoff.counter <= limit
  {
    assert WasSent(tasks[at], limit, requests);
    WithoutMembers(tasks, at);
    TakeResends(tasks, at, limit);
    ResendsNonNegative(Without(tasks, at), limit);
  }

  /** Sending a task again, for some of its keys, uses one of its resends. */
  lemma SendMore(limit: nat, bound: nat, tasks: seq<Task>, requests: seq<seq<Key>>, task: Task)
    requires Sent(limit, bound, tasks, requests) && Sendable(task, limit) && |requests| >= task.backoff.counter
    requires |requests| + 1 + Resends(tasks, limit) + limit - task.backoff.counter <= bound
    ensures Sent(limit, bound, tasks + [task], requests + [task.keys])
    ensures Resends(tasks + [task], limit) == Resends(tasks, limit) + limit - task.backoff.counter
  {
    AddOne(tasks, task, limit);
    forall t | t in tasks + [task] ensures WasSent(t, limit, requests + [task.keys]) {
      if t in tasks { assert WasSent(t, limit, requests); }
    }
  }

  lemma Smaller(part: seq<Key>, whole: seq<Key>)
    requires multiset(part) <= multiset(whole)
    ensures |part| <= |whole|
  {
    var rest := multiset(whole) - multiset(part);
    assert multiset(whole) == multiset(part) + rest;
    assert |multiset(whole)| == |multiset(part)| + |rest|;
  }

  lemma JoinResends(limit: nat, bound: nat, tasks: seq<Task>, requests: seq<seq<Key>>, at: nat, left: seq<Key>)
    requires at < |tasks| && Sent(limit, bound, tasks, requests)
    requires left != [] && multiset(left) <= multiset(tasks[at].keys) && NextInterval(tasks[at].backoff).0.Some?
    ensures var resent := Without(tasks, at) + [Task(left, NextInterval(tasks[at].backoff).1)];
            && Sent(limit, bound, resent, requests + [left])
            && 0 <= Resends(resent, limit) < Resends(tasks, limit)
  {
    assert WasSent(tasks[at], limit, requests);
    Smaller(left, tasks[at].keys);
    JoinEnds(limit, bound, tasks, requests, at);
    TakeResends(tasks, at, limit);
    SendMore(limit, bound, Without(tasks, at), requests, Task(left, NextInterval(tasks[at].backoff).1));
  }

  // ---------------------------------------------------------------------------
  // Chains of resends
  // ---------------------------------------------------------------------------

  /** The keys the service left unprocessed at the `n`th join. */
  ghost function LeftAt(service: Service, joined: seq<seq<Key>>, n: nat): seq<Key>
    requires n < |joined|
  {
    if service(n, joined[n]).Answer? then service(n, joined[n]).unprocessed else []
  }

  /** Joins of one chunk, in order: each request after the first is what the one before left, and each
      leaves some keys. */
  ghost predicate Linked(service: Service, joined: seq<seq<Key>>, ns: seq<nat>) {
    && (forall i :: 0 <= i < |ns| ==> ns[i] < |joined| && LeftAt(service, joined, ns[i]) != [])
    && forall i :: 0 < i < |ns| ==> ns[i - 1] < ns[i] && joined[ns[i]] == LeftAt(service, joined, ns[i - 1])
  }

  /** The request that follows a chain: a chunk of the keys, or what the last join left. */
  ghost predicate Follows(service: Service, joined: seq<seq<Key>>, chunks: seq<seq<Key>>, ns: seq<nat>,
                          keys: seq<Key>) {
    && Linked(service, joined, ns)
    && (ns == [] ==> keys in chunks)
    && (ns != [] ==> joined[ns[0]] in chunks && keys == LeftAt(service, joined, ns[|ns| - 1]))
  }

  /** A chunk was sent once and resent as often as the limit allows, and `remaining` keys are left. */
  ghost predicate UsedUp(service: Service, joined: seq<seq<Key>>, chunks: seq<seq<Key>>, limit: nat, remaining: nat) {
    exists ns, keys ::
      |ns| == 1 + limit && Follows(service, joined, chunks, ns, keys) && |keys| == remaining > 0
  }

  lemma FollowsLater(service: Service, joined: seq<seq<Key>>, chunks: seq<seq<Key>>, ns: seq<nat>, keys: seq<Key>,
                     next: seq<Key>)
    requires Follows(service, joined, chunks, ns, keys)
    ensures Follows(service, joined + [next], chunks, ns, keys)
  {
    forall i | 0 <= i < |ns|
      ensures LeftAt(service, joined + [next], ns[i]) == LeftAt(service, joined, ns[i])
      ensures (joined + [next])[ns[i]] == joined[ns[i]]
    {
    }
  }

  lemma FollowsOn(service: Service, joined: seq<seq<Key>>, chunks: seq<seq<Key>>, ns: seq<nat>, keys: seq<Key>)
    requires Follows(service, joined, chunks, ns, keys)
    requires service(|joined|, keys).Answer? && service(|joined|, keys).unprocessed != []
    ensures Follows(service, joined + [keys], chunks, ns + [|joined|], service(|joined|, keys).unprocessed)
  {
    FollowsLater(service, joined, chunks, ns, keys, keys);
    assert LeftAt(service, joined + [keys], |joined|) == service(|joined|, keys).unprocessed;
  }

  /** Every task in flight follows a chain as long as its retry has counted. */
  ghost predicate Trailed(service: Service, joined: seq<seq<Key>>, chunks: seq<seq<Key>>, tasks: seq<Task>,
                          trails: seq<seq<nat>>) {
    && |tasks| == |trails|
    && forall i :: 0 <= i < |tasks| ==>
         |trails[i]| == tasks[i].backoff.counter && Follows(service, joined, chunks, trails[i], tasks[i].keys)
  }

  lemma TrailedEnds(service: Service, joined: seq<seq<Key>>, chunks: seq<seq<Key>>, tasks: seq<Task>,
                    trails: seq<seq<nat>>, at: nat)
    requires Trailed(service, joined, chunks, tasks, trails) && at < |tasks|
    ensures Trailed(service, joined + [tasks[at].keys], chunks, Without(tasks, at), Without(trails, at))
  {
    var rest, left := Without(tasks, at), Without(trails, at);
    forall i | 0 <= i < |rest|
      ensures |left[i]| == rest[i].backoff.counter
      ensures Follows(service, joined + [tasks[at].keys], chunks, left[i], rest[i].keys)
    {
      var j := if i < at then i else i + 1;
      assert rest[i] == tasks[j] && left[i] == trails[j];
      FollowsLater(service, joined, chunks, trails[j], tasks[j].keys, tasks[at].keys);
    }
  }

  lemma TrailedResends(service: Service, joined: seq<seq<Key>>, chunks: seq<seq<Key>>, tasks: seq<Task>,
                       trails: seq<seq<nat>>, at: nat, next: Retry)
    requires Trailed(service, joined, chunks, tasks, trails) && at < |tasks|
    requires next.counter == tasks[at].backoff.counter + 1
    requires service(|joined|, tasks[at].keys).Answer? && service(|joined|, tasks[at].keys).unprocessed != []
    ensures Trailed(service, joined + [tasks[at].keys], chunks,
                    Without(tasks, at) + [Task(service(|joined|, tasks[at].keys).unprocessed, next)],
                    Without(trails, at) + [trails[at] + [|joined|]])
  {
    TrailedEnds(service, joined, chunks, tasks, trails, at);
    FollowsOn(service, joined, chunks, trails[at], tasks[at].keys);
  }

  lemma TrailedGivesUp(service: Service, joined: seq<seq<Key>>, chunks: seq<seq<Key>>, tasks: seq<Task>,
                       trails: seq<seq<nat>>, at: nat, limit: nat)
    requires Trailed(service, joined, chunks, tasks, trails) && at < |tasks| && tasks[at].backoff.counter == limit
    requires service(|joined|, tasks[at].keys).Answer? && service(|joined|, tasks[at].keys).unprocessed != []
    ensures UsedUp(service, joined + [tasks[at].keys], chunks, limit, |service(|joined|, tasks[at].keys).unprocessed|)
  {
    FollowsOn(service, joined, chunks, trails[at], tasks[at].keys);
    assert |trails[at] + [|joined|]| == 1 + limit;
  }

  lemma TrailedFirst(service: Service, tasks: seq<Task>)
    requires forall t :: t in tasks ==> t.backoff.counter == 0
    ensures Trailed(service, [], Requests(tasks), tasks, seq(|tasks|, _ => []))
  {
    forall i | 0 <= i < |tasks| ensures Follows(service, [], Requests(tasks), [], tasks[i].keys) {
      assert Requests(tasks)[i] == tasks[i].keys;
    }
  }

  /** The last join gave `reply`. */
  ghost predicate EndedBy(service: Service, joined: seq<seq<Key>>, reply: Reply) {
    joined != [] && service(|joined| - 1, joined[|joined| - 1]) == reply
  }

  /** The first requests, one for each chunk. */
  lemma AllSent(tasks: seq<Task>, limit: nat)
    requires forall t :: t in tasks ==> Sendable(t, limit) && t.backoff.counter == 0
    requires Resends(tasks, limit) == |tasks| * limit
    ensures Sent(limit, |tasks| * (1 + limit), tasks, Requests(tasks)) && Resends(tasks, limit) >= 0
  {
    ResendsNonNegative(tasks, limit);
    forall t | t in tasks ensures WasSent(t, limit, Requests(tasks)) {
      var i :| 0 <= i < |tasks| && tasks[i] == t;
      assert Requests(tasks)[i] == t.keys;
    }
    forall keys | keys in Requests(tasks) ensures 0 < |keys| <= BATCH_GET_ITEM_MAX_COUNT {
      var i :| 0 <= i < |tasks| && Requests(tasks)[i] == keys;
      assert Sendable(tasks[i], limit);
    }
  }

  /** What a read is for: the table, the service's answers, the keys, and the bounds on its requests. */
  datatype Read = Read(table: Table, service: Service, keys: seq<Key>, limit: nat, bound: nat)

  /** How far it has come: what has been joined, the keys answered for, and the chain of each task. */
  datatype Progress = Progress(joined: seq<seq<Key>>, done: multiset<Key>, trails: seq<seq<nat>>)

  ghost predicate Going(read: Read, tasks: seq<Task>, requests: seq<seq<Key>>, output: seq<Item>, p: Progress) {
    && Honest(read.table, read.service)
    && Accounted(read.table, multiset(read.keys), tasks, output, p.done)
    && Sent(read.limit, read.bound, tasks, requests) && Resends(tasks, read.limit) >= 0
    && Trailed(read.service, p.joined, Chunks(read.keys), tasks, p.trails)
  }

  /** The answer to the task at `at`, joined next. */
  ghost predicate Answers(read: Read, tasks: seq<Task>, p: Progress, at: nat, items: seq<Item>, left: seq<Key>) {
    at < |tasks| && read.service(|p.joined|, tasks[at].keys) == Answer(items, left)
  }

  ghost function JoinedOn(tasks: seq<Task>, p: Progress, at: nat, left: seq<Key>): Progress
    requires at < |tasks| == |p.trails|
  {
    Progress(p.joined + [tasks[at].keys],
             p.done + (multiset(tasks[at].keys) - multiset(left)),
             if left == [] then Without(p.trails, at) else Without(p.trails, at) + [p.trails[at] + [|p.joined|]])
  }

  /** A task that is answered in full ends. */
  lemma GoesOnWithout(read: Read, tasks: seq<Task>, requests: seq<seq<Key>>, output: seq<Item>, p: Progress, at: nat,
                      items: seq<Item>)
    requires Going(read, tasks, requests, output, p) && Answers(read, tasks, p, at, items, [])
    ensures Going(read, Without(tasks, at), requests, output + items, JoinedOn(tasks, p, at, []))
    ensures Resends(Without(tasks, at), read.limit) <= Resends(tasks, read.limit)
  {
    JoinAccounts(read.table, multiset(read.keys), tasks, output, p.done, at, items, [], tasks[at].backoff);
    JoinEnds(read.limit, read.bound, tasks, requests, at);
    TrailedEnds(read.service, p.joined, Chunks(read.keys), tasks, p.trails, at);
  }

  /** One that is not is sent again, for what was left. */
  lemma GoesOnWith(read: Read, tasks: seq<Task>, requests: seq<seq<Key>>, output: seq<Item>, p: Progress, at: nat,
                   items: seq<Item>, left: seq<Key>)
    requires Going(read, tasks, requests, output, p) && Answers(read, tasks, p, at, items, left) && left != []
    requires NextInterval(tasks[at].backoff).0.Some?
    ensures var more := Without(tasks, at) + [Task(left, NextInterval(tasks[at].backoff).1)];
            && Going(read, more, requests + [left], output + items, JoinedOn(tasks, p, at, left))
            && Resends(more, read.limit) < Resends(tasks, read.limit)
  {
    var next := NextInterval(tasks[at].backoff).1;
    JoinAccounts(read.table, multiset(read.keys), tasks, output, p.done, at, items, left, next);
    JoinResends(read.limit, read.bound, tasks, requests, at, left);
    TrailedResends(read.service, p.joined, Chunks(read.keys), tasks, p.trails, at, next);
  }

  lemma GivesUp(read: Read, tasks: seq<Task>, requests: seq<seq<Key>>, output: seq<Item>, p: Progress, at: nat,
                items: seq<Item>, left: seq<Key>)
    requires Going(read, tasks, requests, output, p) && Answers(read, tasks, p, at, items, left) && left != []
    requires NextInterval(tasks[at].backoff).0.None?
    ensures UsedUp(read.service, p.joined + [tasks[at].keys], Chunks(read.keys), read.limit, |left|)
  {
    assert WasSent(tasks[at], read.limit, requests);
    TrailedGivesUp(read.service, p.joined, Chunks(read.keys), tasks, p.trails, at, read.limit);
  }

  lemma GoingIsBounded(read: Read, tasks: seq<Task>, requests: seq<seq<Key>>, output: seq<Item>, p: Progress)
    requires Going(read, tasks, requests, output, p)
    ensures |requests| <= read.bound
    ensures forall request :: request in requests ==> 0 < |request| <= BATCH_GET_ITEM_MAX_COUNT
    ensures tasks == [] ==> ExactlyStored(read.table, multiset(read.keys), output)
  {
  }

  lemma Starts(read: Read, tasks: seq<Task>)
    requires Honest(read.table, read.service) && Pending(tasks) == multiset(read.keys)
    requires Requests(tasks) == Chunks(read.keys) && read.bound == |tasks| * (1 + read.limit)
    requires forall t :: t in tasks ==> Sendable(t, read.limit) && t.backoff.counter == 0
    requires Resends(tasks, read.limit) == |tasks| * read.limit
    ensures Going(read, tasks, Requests(tasks), [], Progress([], multiset{}, seq(|tasks|, _ => [])))
  {
    AllSent(tasks, read.limit);
    TrailedFirst(read.service, tasks);
  }

  /** Why a read failed: the last request joined failed, or every resend of one chunk left keys over. */
  ghost predicate FailedFor(read: Read, joined: seq<seq<Key>>, error: BatchError) {
    match error
    case UnprocessedKeys(remaining) => UsedUp(read.service, joined, Chunks(read.keys), read.limit, remaining)
    case SdkError => EndedBy(read.service, joined, SendFailed)
    case JoinError => EndedBy(read.service, joined, JoinFailed)
  }

  /** The joining loop of `batch_get_chunks`. `pick` says which task the next join gives. */
  method JoinAll(first: seq<Task>, service: Service, pick: nat -> nat, ghost read: Read)
    returns (r: Result<seq<Item>, BatchError>, requests: seq<seq<Key>>, ghost joined: seq<seq<Key>>)
    requires Going(read, first, Requests(first), [], Progress([], multiset{}, seq(|first|, _ => [])))
    requires service == read.service
    ensures r.Ok? ==> ExactlyStored(read.table, multiset(read.keys), r.value)
    ensures |requests| <= read.bound
    ensures forall request :: request in requests ==> 0 < |request| <= BATCH_GET_ITEM_MAX_COUNT
    ensures r.Err? ==> FailedFor(read, joined, r.error)
  {
    var tasks, output: seq<Item>, n := first, [], 0;
    requests := Requests(tasks);
    ghost var p := Progress([], multiset{}, seq(|tasks|, _ => []));
    while tasks != []
      invariant Going(read, tasks, requests, output, p) && n == |p.joined|
      decreases Resends(tasks, read.limit) + |tasks|
    {
      GoingIsBounded(read, tasks, requests, output, p);
      var at := pick(n) % |tasks|;
      var task := tasks[at];
      joined := p.joined + [task.keys];
      var reply := service(n, task.keys);
      if !reply.Answer? {
        assert EndedBy(read.service, joined, reply);
        return Err(if reply.JoinFailed? then JoinError else SdkError), requests, joined;
      }
      var unprocessed := reply.unprocessed;
      var (wait, next) := NextInterval(task.backoff);
      if unprocessed == [] {
        GoesOnWithout(read, tasks, requests, output, p, at, reply.items);
        p := JoinedOn(tasks, p, at, unprocessed);
        tasks := Without(tasks, at);
      } else {
        if wait.None? {
          GivesUp(read, tasks, requests, output, p, at, reply.items, unprocessed);
          return Err(UnprocessedKeys(|unprocessed|)), requests, joined;
        }
        GoesOnWith(read, tasks, requests, output, p, at, reply.items, unprocessed);
        p := JoinedOn(tasks, p, at, unprocessed);
        tasks := Without(tasks, at) + [Task(unprocessed, next)];
        requests := requests + [unprocessed];
      }
      output := output + reply.items;
      n := n + 1;
    }
    GoingIsBounded(read, tasks, requests, output, p);
    r := Ok(output);
    joined := p.joined;
  }

  /** `batch_get_chunks`. `requests` is what was sent and `joined` the requests in the order they were
      joined. */
  method BatchGetChunks(keys: seq<Key>, backoff: Retry, service: Service, pick: nat -> nat, ghost table: Table)
    returns (r: Result<seq<Item>, BatchError>, requests: seq<seq<Key>>, ghost joined: seq<seq<Key>>)
    requires Honest(table, service) && backoff.counter == 0
    // All or nothing.
    ensures r.Ok? ==> ExactlyStored(table, multiset(keys), r.value)
    // Bounded.
    ensures |requests| <= DivCeil(|keys|, BATCH_GET_ITEM_MAX_COUNT) * (1 + backoff.limit)
    ensures forall request :: request in requests ==> 0 < |request| <= BATCH_GET_ITEM_MAX_COUNT
    // It fails only for a request that failed, or for keys left over after every resend of one chunk.
    ensures r.Err? ==>
              match r.error
              case UnprocessedKeys(remaining) => UsedUp(service, joined, Chunks(keys), backoff.limit, remaining)
              case SdkError => EndedBy(service, joined, SendFailed)
              case JoinError => EndedBy(service, joined, JoinFailed)
  {
    var tasks := Split(keys, backoff);
    ghost var read := Read(table, service, keys, backoff.limit, |tasks| * (1 + backoff.limit));
    Starts(read, tasks);
    r, requests, joined := JoinAll(tasks, service, pick, read);
  }
}
