/** The thread budget of lore-base: largest-remainder apportionment of a total limit over the
    runtime's pools, with a floor for each pool, and the pools a process is built with. */
module ThreadBudget {
  import opened Wrappers
  import opened Sums

  const MIN_THREADS_PER_POOL: nat := 2
  const POOL_COUNT: nat := 4
  const CORE_BLOCKING_THREADS: nat := 2
  const NET_BLOCKING_THREADS: nat := 1
  const DEFAULT_NET_THREADS: nat := 2

  datatype ThreadCounts = ThreadCounts(worker: nat, blocking: nat, net: nat, io: nat) {
    function Total(): nat {
      worker + blocking + net + io
    }

    /** The pools in apportionment order. */
    function AsSeq(): (s: seq<nat>)
      ensures |s| == POOL_COUNT && Sum(s) == Total()
    {
      SumOfFour(worker, blocking, net, io);
      [worker, blocking, net, io]
    }
  }

  function FromSeq(s: seq<nat>): (c: ThreadCounts)
    requires |s| == POOL_COUNT
    ensures c.AsSeq() == s
  {
    ThreadCounts(s[0], s[1], s[2], s[3])
  }

  function Max(a: int, b: int): int {
    if a >= b then a else b
  }

  function Min(a: int, b: int): int {
    if a <= b then a else b
  }

  // ---------------------------------------------------------------------------
  // Sums
  // ---------------------------------------------------------------------------

  lemma SumOfFour(a: nat, b: nat, c: nat, d: nat)
    ensures Sum([a, b, c, d]) == a + b + c + d
  {
    assert [a, b, c, d][1..] == [b, c, d];
    assert [b, c, d][1..] == [c, d];
    assert [c, d][1..] == [d];
    assert [d][1..] == [];
    assert Sum([c, d]) == c + Sum([d]);
    assert Sum([b, c, d]) == b + Sum([c, d]);
  }

  // ---------------------------------------------------------------------------
  // Shares and remainders
  // ---------------------------------------------------------------------------

  function Share(ideal: nat, limit: nat, total: nat): nat
    requires total > 0
  {
    ideal * limit / total
  }

  function Remainder(ideal: nat, limit: nat, total: nat): nat
    requires total > 0
  {
    ideal * limit % total
  }

  function Shares(ideal: seq<nat>, limit: nat, total: nat): (s: seq<nat>)
    requires total > 0
    ensures |s| == |ideal| && forall i :: 0 <= i < |s| ==> s[i] == Share(ideal[i], limit, total)
  {
    seq(|ideal|, i requires 0 <= i < |ideal| => Share(ideal[i], limit, total))
  }

  function Remainders(ideal: seq<nat>, limit: nat, total: nat): (s: seq<nat>)
    requires total > 0
    ensures |s| == |ideal| && forall i :: 0 <= i < |s| ==> s[i] == Remainder(ideal[i], limit, total)
  {
    seq(|ideal|, i requires 0 <= i < |ideal| => Remainder(ideal[i], limit, total))
  }

  lemma DivMod(a: nat, b: nat)
    requires b > 0
    ensures a == a / b * b + a % b && a % b < b
  {
  }

  /** What the floors of the shares leave out comes back in the remainders. */
  lemma {:induction false} SharesAndRemainders(ideal: seq<nat>, limit: nat, total: nat)
    requires total > 0
    ensures Sum(ideal) * limit == Sum(Shares(ideal, limit, total)) * total + Sum(Remainders(ideal, limit, total))
  {
    if ideal != [] {
      var rest := ideal[1..];
      SharesAndRemainders(rest, limit, total);
      assert Shares(ideal, limit, total)[1..] == Shares(rest, limit, total);
      assert Remainders(ideal, limit, total)[1..] == Remainders(rest, limit, total);
      DivMod(ideal[0] * limit, total);
      Distribute(ideal[0], Sum(rest), limit);
      Distribute(Share(ideal[0], limit, total), Sum(Shares(rest, limit, total)), total);
    }
  }

  lemma ShareBelowIdeal(ideal: nat, limit: nat, total: nat)
    requires limit < total
    ensures ideal > 0 ==> Share(ideal, limit, total) < ideal
    ensures ideal == 0 ==> Share(ideal, limit, total) == 0 && Remainder(ideal, limit, total) == 0
  {
    if ideal > 0 {
      DivMod(ideal * limit, total);
      MulStrict(limit, total, ideal);
      MulOrder(Share(ideal, limit, total), ideal, total);
    }
  }

  lemma MulMono(a: nat, b: nat, c: nat)
    requires a <= b
    ensures a * c <= b * c
  {
  }

  lemma MulStrict(a: nat, b: nat, c: nat)
    requires a < b && c > 0
    ensures c * a < c * b
  {
  }

  lemma MulOrder(a: nat, b: nat, c: nat)
    requires c > 0
    ensures a * c < b * c <==> a < b
  {
    if a < b { MulStrict(a, b, c); } else { MulMono(b, a, c); }
  }

  // ---------------------------------------------------------------------------
  // The pigeonhole: enough nonzero remainders
  // ---------------------------------------------------------------------------

  function Nonzero(s: seq<nat>): nat {
    if s == [] then 0 else (if s[0] > 0 then 1 else 0) + Nonzero(s[1..])
  }

  /** Each remainder is below the total, so a sum of `d` totals takes at least `d` of them. */
  lemma {:induction false} NonzeroAtLeast(s: seq<nat>, total: nat, d: nat)
    requires total > 0 && (forall i :: 0 <= i < |s| ==> s[i] < total) && Sum(s) >= d * total
    ensures Nonzero(s) >= d
  {
    SumBelow(s, total);
    MulOrder(Nonzero(s), d, total);
  }

  lemma {:induction false} SumBelow(s: seq<nat>, total: nat)
    requires total > 0 && forall i :: 0 <= i < |s| ==> s[i] < total
    ensures Sum(s) <= Nonzero(s) * total
  {
    if s != [] {
      SumBelow(s[1..], total);
      Distribute(if s[0] > 0 then 1 else 0, Nonzero(s[1..]), total);
    }
  }

  lemma {:induction false} NonzeroUpdate(s: seq<nat>, i: nat)
    requires i < |s| && s[i] > 0
    ensures Nonzero(s[i := 0]) == Nonzero(s) - 1
  {
    if i > 0 {
      NonzeroUpdate(s[1..], i - 1);
      assert s[i := 0][1..] == s[1..][i - 1 := 0];
    } else {
      assert s[i := 0][1..] == s[1..];
    }
  }

  lemma {:induction false} NonzeroNone(s: seq<nat>)
    requires forall i :: 0 <= i < |s| ==> s[i] == 0
    ensures Nonzero(s) == 0
  {
    if s != [] { NonzeroNone(s[1..]); }
  }

  // ---------------------------------------------------------------------------
  // Apportionment
  // ---------------------------------------------------------------------------

  function Floors(ideal: seq<nat>, limit: nat, total: nat): (s: seq<nat>)
    requires total > 0
    ensures |s| == |ideal|
    ensures forall i :: 0 <= i < |s| ==> s[i] == Max(Share(ideal[i], limit, total), MIN_THREADS_PER_POOL)
  {
    seq(|ideal|, i requires 0 <= i < |ideal| => Max(Share(ideal[i], limit, total), MIN_THREADS_PER_POOL) as nat)
  }

  /** Exact wherever the floors allow it, and the floors themselves where they do not. */
  ghost predicate Exact(n: nat, limit: nat, granted: seq<nat>) {
    && |granted| == n
    && (limit >= n * MIN_THREADS_PER_POOL ==> Sum(granted) == limit)
    && (limit < n * MIN_THREADS_PER_POOL ==> forall i :: 0 <= i < n ==> granted[i] == MIN_THREADS_PER_POOL)
  }

  /** The threads over `floors` went to the largest remainders, one each; of equal ones to the last. */
  ghost predicate ToppedUp(floors: seq<nat>, remainders: seq<nat>, granted: seq<nat>)
    requires |floors| == |remainders| == |granted|
  {
    && (forall i :: 0 <= i < |floors| ==> floors[i] <= granted[i] <= floors[i] + 1)
    && (forall i :: 0 <= i < |floors| && granted[i] > floors[i] ==> remainders[i] > 0)
    && (forall i, j :: 0 <= i < |floors| && 0 <= j < |floors| && granted[i] > floors[i] && granted[j] == floors[j] ==>
          remainders[i] > remainders[j] || (remainders[i] == remainders[j] && j < i))
  }

  /** Threads were taken from the largest pools, down to one level; of equal ones from the last first. */
  ghost predicate Levelled(floors: seq<nat>, granted: seq<nat>)
    requires |floors| == |granted|
  {
    && (forall i :: 0 <= i < |floors| ==> MIN_THREADS_PER_POOL <= granted[i] <= floors[i])
    && (forall i, j :: 0 <= i < |floors| && 0 <= j < |floors| && granted[i] < floors[i] ==>
          granted[j] <= granted[i] || (granted[j] == granted[i] + 1 && j < i))
  }

  /** What the apportionment promises when the limit binds. */
  ghost predicate Apportioned(ideal: seq<nat>, limit: nat, granted: seq<nat>)
    requires Sum(ideal) > limit
  {
    var total := Sum(ideal);
    var floors := Floors(ideal, limit, total);
    && Exact(|ideal|, limit, granted)
    && (forall i :: 0 <= i < |ideal| ==>
          MIN_THREADS_PER_POOL <= granted[i] <= Max(ideal[i], MIN_THREADS_PER_POOL + 1))
    && (Sum(floors) <= limit ==> ToppedUp(floors, Remainders(ideal, limit, total), granted))
    && (Sum(floors) > limit ==> Levelled(floors, granted))
  }

  /** The last of the largest elements above `bound`, as `max_by_key` picks it. */
  function LastLargest(s: seq<nat>, bound: int): (at: Option<nat>)
    ensures at.None? ==> forall j :: 0 <= j < |s| ==> s[j] <= bound
    ensures at.Some? ==> at.value < |s| && s[at.value] > bound && forall j :: 0 <= j < |s| ==> s[j] <= s[at.value]
    ensures at.Some? ==> forall j :: at.value < j < |s| ==> s[j] < s[at.value]
  {
    if s == [] then None
    else
      var n := |s| - 1;
      var before := LastLargest(s[..n], bound);
      assert forall j :: 0 <= j < n ==> s[j] == s[..n][j];
      if s[n] > bound && (before.None? || s[n] >= s[before.value]) then Some(n) else before
  }

  /** The pools left by the first loop. */
  function Reduced(alloc: seq<nat>, limit: nat): seq<nat>
    decreases Sum(alloc)
  {
    var at := LastLargest(alloc, MIN_THREADS_PER_POOL);
    if Sum(alloc) <= limit || at.None? then alloc
    else
      SumUpdate(alloc, at.value, alloc[at.value] - 1);
      Reduced(alloc[at.value := alloc[at.value] - 1], limit)
  }

  /** The pools left by the second loop. */
  function Topped(alloc: seq<nat>, remainders: seq<nat>, limit: nat): seq<nat>
    requires |alloc| == |remainders|
    decreases limit - Sum(alloc)
  {
    var at := LastLargest(remainders, 0);
    if Sum(alloc) >= limit || at.None? then alloc
    else
      SumUpdate(alloc, at.value, alloc[at.value] + 1);
      Topped(alloc[at.value := alloc[at.value] + 1], remainders[at.value := 0], limit)
  }

  /** The pools `apportion_thread_counts` grants, which depend on nothing else. */
  function Apportion(defaults: ThreadCounts, limit: nat): ThreadCounts {
    var total := defaults.Total();
    if total <= limit then defaults
    else
      var ideal := defaults.AsSeq();
      var alloc := Reduced(Floors(ideal, limit, total), limit);
      ReducedLength(Floors(ideal, limit, total), limit);
      ToppedLength(alloc, Remainders(ideal, limit, total), limit);
      FromSeq(Topped(alloc, Remainders(ideal, limit, total), limit))
  }

  lemma {:induction false} ReducedLength(alloc: seq<nat>, limit: nat)
    ensures |Reduced(alloc, limit)| == |alloc|
    decreases Sum(alloc)
  {
    var at := LastLargest(alloc, MIN_THREADS_PER_POOL);
    if Sum(alloc) > limit && at.Some? {
      SumUpdate(alloc, at.value, alloc[at.value] - 1);
      ReducedLength(alloc[at.value := alloc[at.value] - 1], limit);
    }
  }

  lemma {:induction false} ToppedLength(alloc: seq<nat>, remainders: seq<nat>, limit: nat)
    requires |alloc| == |remainders|
    ensures |Topped(alloc, remainders, limit)| == |alloc|
    decreases limit - Sum(alloc)
  {
    var at := LastLargest(remainders, 0);
    if Sum(alloc) < limit && at.Some? {
      SumUpdate(alloc, at.value, alloc[at.value] + 1);
      ToppedLength(alloc[at.value := alloc[at.value] + 1], remainders[at.value := 0], limit);
    }
  }

  /** The first loop takes threads from the largest pools, and stops at the limit or at the floors. */
  lemma LevelledStep(floors: seq<nat>, alloc: seq<nat>, at: nat)
    requires |floors| == |alloc| && Levelled(floors, alloc) && LastLargest(alloc, MIN_THREADS_PER_POOL) == Some(at)
    ensures Levelled(floors, alloc[at := alloc[at] - 1])
  {
  }

  lemma {:induction false} ReducedLevels(floors: seq<nat>, alloc: seq<nat>, limit: nat)
    requires |floors| == |alloc| && Levelled(floors, alloc)
    ensures |Reduced(alloc, limit)| == |alloc| && Levelled(floors, Reduced(alloc, limit))
    ensures Sum(alloc) >= limit ==> Exact(|alloc|, limit, Reduced(alloc, limit))
    decreases Sum(alloc)
  {
    SumAtLeast(alloc, MIN_THREADS_PER_POOL);
    var at := LastLargest(alloc, MIN_THREADS_PER_POOL);
    if Sum(alloc) > limit {
      if at.Some? {
        SumUpdate(alloc, at.value, alloc[at.value] - 1);
        LevelledStep(floors, alloc, at.value);
        ReducedLevels(floors, alloc[at.value := alloc[at.value] - 1], limit);
      } else {
        SumAllEqual(alloc, MIN_THREADS_PER_POOL);
      }
    }
  }

  /** Where the second loop stands: what it has given went to the largest remainders, now zero. */
  ghost predicate Topping(floors: seq<nat>, remainders: seq<nat>, alloc: seq<nat>, left: seq<nat>) {
    && |floors| == |remainders| == |alloc| == |left|
    && ToppedUp(floors, remainders, alloc)
    && forall i :: 0 <= i < |floors| ==> left[i] == if alloc[i] > floors[i] then 0 else remainders[i]
  }

  lemma ToppingStep(floors: seq<nat>, remainders: seq<nat>, alloc: seq<nat>, left: seq<nat>, at: nat)
    requires Topping(floors, remainders, alloc, left) && LastLargest(left, 0) == Some(at)
    ensures Topping(floors, remainders, alloc[at := alloc[at] + 1], left[at := 0])
  {
  }

  /** The second loop gives to the largest remainders, one thread each, and reaches the limit unless
      it runs out of remainders. */
  lemma {:induction false} ToppedFairly(floors: seq<nat>, remainders: seq<nat>, alloc: seq<nat>, left: seq<nat>,
      limit: nat)
    requires Topping(floors, remainders, alloc, left)
    ensures |Topped(alloc, left, limit)| == |floors| && ToppedUp(floors, remainders, Topped(alloc, left, limit))
    ensures Sum(alloc) <= limit <= Sum(alloc) + Nonzero(left) ==> Sum(Topped(alloc, left, limit)) == limit
    decreases limit - Sum(alloc)
  {
    var at := LastLargest(left, 0);
    if Sum(alloc) < limit {
      if at.Some? {
        SumUpdate(alloc, at.value, alloc[at.value] + 1);
        NonzeroUpdate(left, at.value);
        ToppingStep(floors, remainders, alloc, left, at.value);
        ToppedFairly(floors, remainders, alloc[at.value := alloc[at.value] + 1], left[at.value := 0], limit);
      } else {
        NonzeroNone(left);
      }
    }
  }

  /** The `max_by_key` of both loops. */
  method FindLargest(a: array<nat>, bound: int) returns (at: Option<nat>)
    ensures at == LastLargest(a[..], bound)
  {
    at := None;
    for i := 0 to a.Length
      invariant at == LastLargest(a[..i], bound)
    {
      assert a[..i + 1][..i] == a[..i];
      if a[i] > bound && (at.None? || a[i] >= a[at.value]) { at := Some(i); }
    }
    assert a[..a.Length] == a[..];
  }

  /** The first loop: takes threads from the largest pools until the limit is met. */
  method Reduce(alloc: array<nat>, limit: nat, start: nat) returns (sum: nat)
    requires start == Sum(alloc[..])
    modifies alloc
    ensures sum == Sum(alloc[..]) && alloc[..] == Reduced(old(alloc[..]), limit)
  {
    sum := start;
    while sum > limit
      invariant sum == Sum(alloc[..])
      invariant Reduced(alloc[..], limit) == Reduced(old(alloc[..]), limit)
    {
      var at := FindLargest(alloc, MIN_THREADS_PER_POOL);
      if at.None? { break; }
      SumUpdate(alloc[..], at.value, alloc[at.value] - 1);
      ghost var before := alloc[..];
      alloc[at.value] := alloc[at.value] - 1;
      assert alloc[..] == before[at.value := before[at.value] - 1];
      sum := sum - 1;
    }
  }

  /** The second loop: gives threads to the largest remainders until the limit is met. */
  method TopUp(alloc: array<nat>, remainder: array<nat>, limit: nat, start: nat) returns (sum: nat)
    requires alloc != remainder && alloc.Length == remainder.Length
    requires start == Sum(alloc[..])
    modifies alloc, remainder
    ensures sum == Sum(alloc[..]) && alloc[..] == Topped(old(alloc[..]), old(remainder[..]), limit)
  {
    sum := start;
    while sum < limit
      invariant sum == Sum(alloc[..])
      invariant Topped(alloc[..], remainder[..], limit) == Topped(old(alloc[..]), old(remainder[..]), limit)
    {
      var at := FindLargest(remainder, 0);
      if at.None? { break; }
      var i := at.value;
      SumUpdate(alloc[..], i, alloc[i] + 1);
      ghost var before, rest := alloc[..], remainder[..];
      alloc[i] := alloc[i] + 1;
      remainder[i] := 0;
      assert alloc[..] == before[i := before[i] + 1] && remainder[..] == rest[i := 0];
      sum := sum + 1;
    }
  }

  lemma Shortfall(total: nat, limit: nat, shares: nat, remainders: nat)
    requires total * limit == shares * total + remainders && limit >= shares
    ensures remainders == (limit - shares) * total
  {
    Distribute(limit - shares, shares, total);
  }

  /** The floors fall short of the limit by no more threads than there are remainders. */
  lemma EnoughRemainders(ideal: seq<nat>, limit: nat)
    requires Sum(ideal) > limit
    ensures var total := Sum(ideal);
            limit <= Sum(Floors(ideal, limit, total)) + Nonzero(Remainders(ideal, limit, total))
  {
    var total := Sum(ideal);
    var shares, remainders := Shares(ideal, limit, total), Remainders(ideal, limit, total);
    SharesAndRemainders(ideal, limit, total);
    SumMonotone(shares, Floors(ideal, limit, total));
    if limit > Sum(shares) {
      Shortfall(total, limit, Sum(shares), Sum(remainders));
      forall i | 0 <= i < |remainders| ensures remainders[i] < total { DivMod(ideal[i] * limit, total); }
      NonzeroAtLeast(remainders, total, limit - Sum(shares));
    }
  }

  /** A pool topped up once is within its ideal, or one above the minimum. */
  lemma WithinIdeal(ideal: nat, limit: nat, total: nat, granted: nat)
    requires limit < total
    requires granted <= Max(Share(ideal, limit, total), MIN_THREADS_PER_POOL) + 1
    requires Remainder(ideal, limit, total) == 0 ==> granted <= Max(Share(ideal, limit, total), MIN_THREADS_PER_POOL)
    ensures granted <= Max(ideal, MIN_THREADS_PER_POOL + 1)
  {
    ShareBelowIdeal(ideal, limit, total);
  }

  /** The two loops together, on the floors of the shares. */
  lemma LoopsApportion(ideal: seq<nat>, limit: nat)
    requires Sum(ideal) > limit
    ensures var total := Sum(ideal);
            var reduced := Reduced(Floors(ideal, limit, total), limit);
            && |reduced| == |ideal|
            && Apportioned(ideal, limit, Topped(reduced, Remainders(ideal, limit, total), limit))
  {
    var total := Sum(ideal);
    var floors, remainders := Floors(ideal, limit, total), Remainders(ideal, limit, total);
    EnoughRemainders(ideal, limit);
    SumAtLeast(floors, MIN_THREADS_PER_POOL);
    ReducedLevels(floors, floors, limit);
    var reduced := Reduced(floors, limit);
    ToppedFairly(reduced, remainders, reduced, remainders, limit);
    var granted := Topped(reduced, remainders, limit);
    if Sum(floors) > limit { ReducedStays(limit, reduced); }
    forall i | 0 <= i < |ideal| ensures granted[i] <= Max(ideal[i], MIN_THREADS_PER_POOL + 1) {
      WithinIdeal(ideal[i], limit, total, granted[i]);
    }
  }

  lemma ReducedStays(limit: nat, reduced: seq<nat>)
    requires Exact(|reduced|, limit, reduced)
    ensures Sum(reduced) >= limit
  {
    if limit < |reduced| * MIN_THREADS_PER_POOL { SumAllEqual(reduced, MIN_THREADS_PER_POOL); }
  }

  /** `apportion_thread_counts`. */
  method ApportionThreadCounts(defaults: ThreadCounts, limit: nat) returns (granted: ThreadCounts)
    ensures defaults.Total() <= limit ==> granted == defaults
    ensures defaults.Total() > limit ==> Apportioned(defaults.AsSeq(), limit, granted.AsSeq())
    ensures granted == Apportion(defaults, limit)
  {
    var total := defaults.Total();
    if total <= limit { return defaults; }

    var ideal := defaults.AsSeq();
    var alloc, remainder := new nat[POOL_COUNT], new nat[POOL_COUNT];
    for i := 0 to POOL_COUNT
      invariant forall j :: 0 <= j < i ==> alloc[j] == Max(Share(ideal[j], limit, total), MIN_THREADS_PER_POOL)
      invariant forall j :: 0 <= j < i ==> remainder[j] == Remainder(ideal[j], limit, total)
    {
      var scaled := ideal[i] * limit;
      alloc[i] := Max(scaled / total, MIN_THREADS_PER_POOL);
      remainder[i] := scaled % total;
    }
    assert alloc[..] == Floors(ideal, limit, total) && remainder[..] == Remainders(ideal, limit, total);
    var sum := Count(alloc);
    LoopsApportion(ideal, limit);
    sum := Reduce(alloc, limit, sum);
    sum := TopUp(alloc, remainder, limit, sum);
    granted := FromSeq(alloc[..]);
  }

  method Count(alloc: array<nat>) returns (sum: nat)
    ensures sum == Sum(alloc[..])
  {
    sum := 0;
    var i := alloc.Length;
    assert alloc[i..] == [];
    while i > 0
      invariant 0 <= i <= alloc.Length
      invariant sum == Sum(alloc[i..])
    {
      i := i - 1;
      assert alloc[i..][1..] == alloc[i + 1..];
      sum := sum + alloc[i];
    }
    assert alloc[0..] == alloc[..];
  }

  lemma {:induction false} SumStrict(a: seq<nat>, b: seq<nat>)
    requires |a| == |b| && (forall i :: 0 <= i < |a| ==> a[i] <= b[i])
    ensures Sum(a) <= Sum(b) && (Sum(a) == Sum(b) ==> a == b)
  {
    if a != [] {
      SumStrict(a[1..], b[1..]);
      assert a == [a[0]] + a[1..] && b == [b[0]] + b[1..];
    }
  }

  /** Two grants that meet the promises never trade a thread between two pools. */
  lemma {:induction false} NoTrade(ideal: seq<nat>, limit: nat, a: seq<nat>, b: seq<nat>, i: nat, j: nat)
    requires Sum(ideal) > limit && Apportioned(ideal, limit, a) && Apportioned(ideal, limit, b)
    requires i < |ideal| && j < |ideal|
    ensures a[i] < b[i] ==> a[j] <= b[j]
  {
    var floors := Floors(ideal, limit, Sum(ideal));
    if Sum(floors) <= limit {
      assert ToppedUp(floors, Remainders(ideal, limit, Sum(ideal)), a);
    } else {
      assert Levelled(floors, a) && Levelled(floors, b);
    }
  }

  lemma {:induction false} SameSumIsSame(a: seq<nat>, b: seq<nat>)
    requires |a| == |b| && Sum(a) == Sum(b)
    requires forall i, j :: 0 <= i < |a| && 0 <= j < |a| && a[i] < b[i] ==> a[j] <= b[j]
    ensures a == b
  {
    if i :| 0 <= i < |a| && a[i] < b[i] { SumStrict(a, b); } else { SumStrict(b, a); }
  }

  /** The promises of a binding limit leave no choice, ties included. */
  lemma {:induction false} ApportionedIsUnique(ideal: seq<nat>, limit: nat, a: seq<nat>, b: seq<nat>)
    requires Sum(ideal) > limit && Apportioned(ideal, limit, a) && Apportioned(ideal, limit, b)
    ensures a == b
  {
    forall i, j | 0 <= i < |a| && 0 <= j < |a| && a[i] < b[i] ensures a[j] <= b[j] {
      NoTrade(ideal, limit, a, b, i, j);
    }
    if limit >= |ideal| * MIN_THREADS_PER_POOL { SameSumIsSame(a, b); }
  }

  /** A tie: eight processors and eight I/O threads under a limit of fifteen. Worker and io have the
      same share and the same remainder, and the thread left over goes to io. */
  lemma {:induction false} TieGoesToTheLast()
    ensures Apportioned(ThreadCounts(8, 3, 2, 8).AsSeq(), 15, ThreadCounts(5, 2, 2, 6).AsSeq())
  {
    var ideal, granted := [8, 3, 2, 8], [5, 2, 2, 6];
    SumOfFour(8, 3, 2, 8);
    SumOfFour(5, 2, 2, 6);
    SumOfFour(5, 2, 2, 5);
    assert Floors(ideal, 15, 21) == [5, 2, 2, 5];
    assert Remainders(ideal, 15, 21) == [15, 3, 9, 15];
  }

  /** When every scaled share reaches the minimum, each pool gets the floor of its share or one more,
      the largest remainders first. */
  lemma ProportionalWhenNoFloorBinds(ideal: seq<nat>, limit: nat, granted: seq<nat>)
    requires Sum(ideal) > limit && Apportioned(ideal, limit, granted)
    requires forall i :: 0 <= i < |ideal| ==> Share(ideal[i], limit, Sum(ideal)) >= MIN_THREADS_PER_POOL
    ensures var total := Sum(ideal);
            ToppedUp(Shares(ideal, limit, total), Remainders(ideal, limit, total), granted) && Sum(granted) == limit
  {
    var total := Sum(ideal);
    assert Floors(ideal, limit, total) == Shares(ideal, limit, total);
    SharesAndRemainders(ideal, limit, total);
    MulOrder(limit, Sum(Shares(ideal, limit, total)), total);
    SumAtLeast(Floors(ideal, limit, total), MIN_THREADS_PER_POOL);
  }

  // ---------------------------------------------------------------------------
  // The pools of a process
  // ---------------------------------------------------------------------------

  datatype NetConnections = Opened(count: nat) | Served(count: nat)

  function DefaultThreadCounts(cores: nat, io: nat): ThreadCounts {
    ThreadCounts(Max(cores, MIN_THREADS_PER_POOL), CORE_BLOCKING_THREADS + NET_BLOCKING_THREADS,
                 Max(DEFAULT_NET_THREADS, MIN_THREADS_PER_POOL), Max(io, MIN_THREADS_PER_POOL))
  }

  function Clamp(v: nat, low: nat, high: nat): nat
    requires low <= high
  {
    if v < low then low else if v > high then high else v
  }

  function ThreadsForConnections(defaults: ThreadCounts, connections: NetConnections): (c: ThreadCounts)
    ensures c.net >= defaults.net && c.blocking == defaults.blocking && c.io == defaults.io
    // A process that opens the connections takes their threads from the core runtime.
    ensures connections.Opened? ==> c.worker + c.net == Max(defaults.worker - 1, MIN_THREADS_PER_POOL) + defaults.net
    ensures connections.Opened? && defaults.net >= MIN_THREADS_PER_POOL ==> c.worker >= MIN_THREADS_PER_POOL
    // A process that serves them adds their threads.
    ensures connections.Served? ==> c.worker == Max(defaults.worker - 1, MIN_THREADS_PER_POOL)
    // One thread for each connection, between the default and half of the threads shared.
    ensures var shared := Max(defaults.worker - 1, MIN_THREADS_PER_POOL) + defaults.net;
            && (c.net > defaults.net ==> 2 * c.net <= shared && c.net <= connections.count)
            && (c.net < connections.count ==> c.net == defaults.net || 2 * (c.net + 1) > shared)
  {
    // A processor is set aside for the net runtime.
    var worker: nat := Max(defaults.worker - 1, MIN_THREADS_PER_POOL);
    var shared := worker + defaults.net;
    var net := Clamp(connections.count, defaults.net, Max(shared / 2, defaults.net));
    ThreadCounts(if connections.Opened? then shared - net else worker, defaults.blocking, net, defaults.io)
  }

  function RequestedCounts(defaults: ThreadCounts, netRequest: Option<nat>,
      connections: Option<NetConnections>): ThreadCounts {
    if netRequest.Some? then defaults.(net := netRequest.value)
    else if connections.Some? then ThreadsForConnections(defaults, connections.value)
    else defaults
  }

  /** `core_blocking_threads`: all but the net runtime's, and never none. */
  function CoreBlockingThreads(counts: ThreadCounts): (n: nat)
    ensures n >= 1 && (counts.blocking >= 2 ==> n + 1 == counts.blocking) && (counts.blocking < 2 ==> n == 1)
  {
    Max(counts.blocking - NET_BLOCKING_THREADS, 1)
  }

  datatype TokioSettings = TokioSettings(maxBlockingThreads: nat, workerThreads: Option<nat>)

  const DEFAULT_SETTINGS: TokioSettings := TokioSettings(CORE_BLOCKING_THREADS, None)

  /** `apply_thread_limit`; a limit of 0 is none. */
  method ApplyThreadLimit(requested: ThreadCounts, limit: nat) returns (counts: ThreadCounts)
    ensures counts == Granted(requested, limit)
    ensures limit == 0 || requested.Total() <= limit ==> counts == requested
    ensures limit > 0 && requested.Total() > limit ==> Apportioned(requested.AsSeq(), limit, counts.AsSeq())
  {
    if limit > 0 {
      counts := ApportionThreadCounts(requested, limit);
    } else {
      counts := requested;
    }
  }

  function Granted(requested: ThreadCounts, limit: nat): ThreadCounts {
    if limit == 0 then requested else Apportion(requested, limit)
  }

  /** The sizes a configuration asks for, over those the process asks for. */
  function Configured(settings: TokioSettings, requested: ThreadCounts): ThreadCounts {
    requested.(
    worker := if settings.workerThreads.Some? && settings.workerThreads.value > 0
              then settings.workerThreads.value else requested.worker,
    blocking := if settings.maxBlockingThreads > 0
                then settings.maxBlockingThreads + NET_BLOCKING_THREADS else requested.blocking)
  }

  /** `core_thread_counts`. */
  method CoreThreadCounts(settings: TokioSettings, processRequest: ThreadCounts, limit: nat)
      returns (counts: ThreadCounts)
    ensures counts == Granted(Configured(settings, processRequest), limit)
    // Sizes that are configured, and not 0, come before those the process asks for.
    ensures limit == 0 ==>
              && counts.net == processRequest.net && counts.io == processRequest.io
              && (settings.workerThreads.None? || settings.workerThreads.value == 0 ==>
                    counts.worker == processRequest.worker)
              && (settings.workerThreads.Some? && settings.workerThreads.value > 0 ==>
                    counts.worker == settings.workerThreads.value)
              && (settings.maxBlockingThreads == 0 ==> counts.blocking == processRequest.blocking)
              && (settings.maxBlockingThreads > 0 ==> CoreBlockingThreads(counts) == settings.maxBlockingThreads)
    ensures limit > 0 && Configured(settings, processRequest).Total() > limit ==>
              Apportioned(Configured(settings, processRequest).AsSeq(), limit, counts.AsSeq())
  {
    var requested := processRequest;
    if settings.workerThreads.Some? && settings.workerThreads.value > 0 {
      requested := requested.(worker := settings.workerThreads.value);
    }
    if settings.maxBlockingThreads > 0 {
      requested := requested.(blocking := settings.maxBlockingThreads + NET_BLOCKING_THREADS);
    }
    assert requested == Configured(settings, processRequest);
    counts := ApplyThreadLimit(requested, limit);
  }

  /** What a binding limit grants in all: the limit, or the floors where they exceed it. */
  lemma ApportionedTotal(ideal: seq<nat>, limit: nat, granted: seq<nat>)
    requires Sum(ideal) > limit && Apportioned(ideal, limit, granted)
    ensures Sum(granted) == Max(limit, |ideal| * MIN_THREADS_PER_POOL)
  {
    if limit < |ideal| * MIN_THREADS_PER_POOL { SumAllEqual(granted, MIN_THREADS_PER_POOL); }
  }

  /** With default settings, the threads a process is built with add up to its budget: the core
      runtime's workers and blocking threads, the net runtime's workers and blocking thread, and the
      syscall pool. Under a limit that is at most the limit, or the floors where they exceed it. */
  method ProcessThreads(cores: nat, io: nat, netRequest: Option<nat>, connections: Option<NetConnections>, limit: nat)
    returns (core: ThreadCounts, net: ThreadCounts)
    ensures core.worker + CoreBlockingThreads(core) + net.net + NET_BLOCKING_THREADS + core.io == net.Total()
    ensures limit > 0 ==> net.Total() <= Max(limit, POOL_COUNT * MIN_THREADS_PER_POOL)
    // Without a limit: a worker for each processor, the I/O threads asked for, two blocking threads and
    // one of the net runtime's, and net threads as asked for, or for the connections, or by default.
    ensures limit == 0 ==> core == net && net.io == Max(io, 2) && net.blocking == 3
    ensures limit == 0 && (netRequest.Some? || connections.None?) ==>
              && net.worker == Max(cores, 2)
              && net.net == if netRequest.Some? then netRequest.value else Max(DEFAULT_NET_THREADS, 2)
    ensures limit == 0 && netRequest.None? && connections.Some? ==>
              var own := ThreadCounts(Max(cores, 2), 3, Max(DEFAULT_NET_THREADS, 2), Max(io, 2));
              net == ThreadsForConnections(own, connections.value)
  {
    var requested := RequestedCounts(DefaultThreadCounts(cores, io), netRequest, connections);
    core := CoreThreadCounts(DEFAULT_SETTINGS, requested, limit);
    net := ApplyThreadLimit(requested, limit);
    assert Configured(DEFAULT_SETTINGS, requested) == requested;
    if limit > 0 && requested.Total() > limit { GrantedTotal(requested, limit, net); }
  }

  lemma GrantedTotal(requested: ThreadCounts, limit: nat, counts: ThreadCounts)
    requires requested.Total() > limit && Apportioned(requested.AsSeq(), limit, counts.AsSeq())
    ensures counts.Total() == Max(limit, POOL_COUNT * MIN_THREADS_PER_POOL) && counts.blocking >= MIN_THREADS_PER_POOL
  {
    ApportionedTotal(requested.AsSeq(), limit, counts.AsSeq());
    assert counts.AsSeq()[1] >= MIN_THREADS_PER_POOL;
  }
}
