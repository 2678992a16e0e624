/** The calls of one process's token store as runs of the protocol's steps: from the map of the lists a
    call reloads to those of the lists it writes and caches, whatever it is given and whichever of its
    writes, opens and seals fail. What the protocol keeps therefore holds between any such calls. */
module StoreRuns {
  import opened Wrappers
  import opened TokenMap
  import opened TokenStore
  import opened RefreshProtocol

  ghost predicate Follows(states: seq<State>, steps: seq<Step>) {
    |states| == |steps| + 1 && forall i :: 0 <= i < |steps| ==> Next(states[i], steps[i], states[i + 1])
  }

  /** The states and steps of a run, from `s` to `end`. */
  ghost predicate RunsTo(s: State, states: seq<State>, steps: seq<Step>, end: State) {
    Follows(states, steps) && states[0] == s && states[|steps|] == end
  }

  ghost predicate Reaches(s: State, end: State) {
    exists states, steps :: RunsTo(s, states, steps, end)
  }

  lemma OneStep(s: State, step: Step, end: State)
    requires Next(s, step, end)
    ensures Reaches(s, end)
  {
    assert RunsTo(s, [s, end], [step], end);
  }

  lemma ThenOn(s: State, mid: State, end: State)
    requires Reaches(s, mid) && Reaches(mid, end)
    ensures Reaches(s, end)
  {
    var a, sa :| RunsTo(s, a, sa, mid);
    var b, sb :| RunsTo(mid, b, sb, end);
    var states, steps := a + b[1..], sa + sb;
    forall i | 0 <= i < |steps| ensures Next(states[i], steps[i], states[i + 1]) {
      if i >= |sa| { assert states[i] == b[i - |sa|] && states[i + 1] == b[i - |sa| + 1]; }
    }
    assert RunsTo(s, states, steps, end);
  }

  lemma ThenStep(s: State, mid: State, step: Step, end: State)
    requires Reaches(s, mid) && Next(mid, step, end)
    ensures Reaches(s, end)
  {
    OneStep(mid, step, end);
    ThenOn(s, mid, end);
  }

  // ---------------------------------------------------------------------------
  // Calls
  // ---------------------------------------------------------------------------

  /** Process `p` can begin a call that will find the lock free and the file loading. */
  ghost predicate Ready(s: State, p: Pid) {
    p in s.procs && s.procs[p].op.Idle? && s.lock.None? && s.file.Some?
  }

  /** The call is over: the lock released, the file and the cached map as given, no one else changed. */
  ghost predicate Over(s: State, p: Pid, end: State, file: Entries, cache: Entries) {
    end.file == Some(file) && end.lock == None && end.procs == s.procs[p := Process(Some(cache), Idle)]
  }

  ghost function Holding(s: State, p: Pid, call: Call): State {
    s.(procs := s.procs[p := Process(s.file, Op.Reloaded(call))], lock := Some(p))
  }

  /** Every call takes both locks and reloads. */
  lemma Reloads(s: State, p: Pid, call: Call)
    requires Ready(s, p) && !call.Reset?
    ensures Reaches(s, Holding(s, p, call))
  {
    var s1 := Moved(s, p, s.procs[p].cache, Waiting(call));
    var s2 := Moved(s1, p, s.procs[p].cache, Locked(call)).(lock := Some(p));
    OneStep(s, Begin(p, call), s1);
    ThenStep(s, s1, Lock(p), s2);
    ThenStep(s, s2, Step.Reload(p), Holding(s, p, call));
  }

  // ---------------------------------------------------------------------------
  // Refreshing
  // ---------------------------------------------------------------------------

  /** Nothing to refresh: no entry, a token that does not open or was replaced, no refresh token. */
  lemma EndsEarly(s: State, p: Pid, key: Key, expired: string, opens: string -> bool) returns (end: State)
    requires Ready(s, p)
    requires var found := MapFind(s.file.value, key);
             !Refreshable(found, expired, opens) && !Unopened(found, expired, opens)
    ensures Reaches(s, end) && Over(s, p, end, s.file.value, s.file.value)
    ensures Quiet(s, end, key, expired, Unrefreshed(MapFind(s.file.value, key), expired, opens))
  {
    var call, found := Refresh(key, expired), MapFind(s.file.value, key);
    var held := Holding(s, p, call);
    Reloads(s, p, call);
    if found.Some? && !opens(found.value.token) {
      end := Cut(held, p, s.file);
      ThenStep(s, held, Cancel(p), end);
    } else {
      end := Logged(Ended(held, p, s.file), Returned(key, expired, Given(s.file, key, expired)));
      ThenStep(s, held, Refuse(p), end);
    }
    assert s.procs[p := held.procs[p]][p := Process(s.file, Idle)] == s.procs[p := Process(s.file, Idle)];
  }

  /** Nothing was presented, and what the log says was returned is what was. */
  ghost predicate Quiet(s: State, end: State, key: Key, expired: string, result: Result<string, RefreshError>) {
    end.log == s.log || end.log == s.log + [Returned(key, expired, result)]
  }

  ghost function WithoutRefresh(s: State, p: Pid, key: Key, expired: string): State
    requires Ready(s, p) && key in s.file.value && s.file.value[key].refresh.Some?
  {
    var e := s.file.value[key];
    Moved(Holding(s, p, Refresh(key, expired)), p, Some(s.file.value[key := Taken(e)]),
          TakenOut(key, expired, e.refresh.value, e.refreshExpires))
  }

  lemma TakesOut(s: State, p: Pid, key: Key, expired: string)
    requires Ready(s, p) && !Refuses(s.file, key, expired)
    ensures Reaches(s, WithoutRefresh(s, p, key, expired))
  {
    Reloads(s, p, Refresh(key, expired));
    ThenStep(s, Holding(s, p, Refresh(key, expired)), Take(p), WithoutRefresh(s, p, key, expired));
  }

  /** The refresh token does not open, or cannot be written out of the file. */
  lemma FailsToTake(s: State, p: Pid, key: Key, expired: string, opens: bool) returns (end: State)
    requires Ready(s, p) && !Refuses(s.file, key, expired)
    ensures Reaches(s, end) && end.log == s.log
    ensures Over(s, p, end, s.file.value, if opens then s.file.value else s.file.value[key := Taken(s.file.value[key])])
  {
    var m, e := s.file.value, s.file.value[key];
    var out := WithoutRefresh(s, p, key, expired);
    TakesOut(s, p, key, expired);
    if opens {
      assert m[key := Taken(e)][key := Taken(e).(refresh := e.refresh, refreshExpires := e.refreshExpires)] == m;
      end := Ended(out, p, Some(m));
      ThenStep(s, out, StoreRemoval(p, false), end);
    } else {
      end := Cut(out, p, out.procs[p].cache);
      ThenStep(s, out, Cancel(p), end);
    }
    assert end.procs == s.procs[p := Process(end.procs[p].cache, Idle)];
  }

  ghost function AtTheIssuer(s: State, p: Pid, key: Key, expired: string): State
    requires Ready(s, p) && key in s.file.value && s.file.value[key].refresh.Some?
  {
    var e, out := s.file.value[key], Some(s.file.value[key := Taken(s.file.value[key])]);
    Logged(State(out, Some(p), s.procs[p := Process(out, Presented(key, expired, e.refresh.value, e.refreshExpires))],
                 s.seen, s.log),
           Present(e.refresh.value, key, expired))
  }

  lemma Presents(s: State, p: Pid, key: Key, expired: string)
    requires Ready(s, p) && !Refuses(s.file, key, expired)
    ensures Reaches(s, AtTheIssuer(s, p, key, expired))
  {
    var e := s.file.value[key];
    var taken := WithoutRefresh(s, p, key, expired);
    var out := taken.procs[p].cache;
    var removed := Moved(taken, p, out, Removed(key, expired, e.refresh.value, e.refreshExpires)).(file := out);
    TakesOut(s, p, key, expired);
    ThenStep(s, taken, StoreRemoval(p, true), removed);
    var end := AtTheIssuer(s, p, key, expired);
    assert end.procs == removed.procs[p := end.procs[p]];
    ThenStep(s, removed, DoPresent(p), end);
  }

  /** The answer is taken into the map, and written or not. */
  lemma StoresAnswer(s: State, p: Pid, key: Key, expired: string, answer: Refreshed, stores: bool) returns (end: State)
    requires Ready(s, p) && !Refuses(s.file, key, expired)
    requires FreshAnswer(s, s.file.value[key].refresh.value, key.user, answer)
    ensures Reaches(s, end) && AtTheIssuer(s, p, key, expired).log <= end.log
    ensures var m, e := s.file.value, s.file.value[key];
            var after := m[key := Answered(Taken(e), e.refresh.value, e.refreshExpires, answer)];
            Over(s, p, end, if stores then after else m[key := Taken(e)], after)
  {
    var m, e, out := s.file.value, s.file.value[key], AtTheIssuer(s, p, key, expired);
    var answered := Answered(Taken(e), e.refresh.value, e.refreshExpires, answer);
    var after := Some(m[key := answered]);
    assert m[key := Taken(e)][key := answered] == m[key := answered];
    var replied := Logged(Moved(out, p, after, Replied(key, expired, e.refresh.value, answer))
                          .(seen := s.seen + AnswerSeen(key.user, answer)),
                          Answer(e.refresh.value, key, expired, answer));
    var done := Logged(Ended(replied, p, after).(file := if stores then after else replied.file),
                       Stored(e.refresh.value, stores));
    end := if stores && Accepted(answer, key.user) then Logged(done, Accept(key, expired, answer.token)) else done;
    Presents(s, p, key, expired);
    ThenStep(s, out, DoAnswer(p, answer), replied);
    ThenStep(s, replied, StoreAnswer(p, stores), end);
    assert end.procs == s.procs[p := Process(after, Idle)];
  }

  /** A seal of an accepted answer fails. */
  lemma FailsToSeal(s: State, p: Pid, key: Key, expired: string, answer: Refreshed, fault: SealFault)
      returns (end: State)
    requires Ready(s, p) && !Refuses(s.file, key, expired) && !Seals(answer, key.user, fault)
    ensures Reaches(s, end) && AtTheIssuer(s, p, key, expired).log <= end.log
    ensures var m, e := s.file.value, s.file.value[key];
            Over(s, p, end, m[key := Taken(e)], m[key := HalfSealed(Taken(e), answer, fault)])
  {
    var m, e, out := s.file.value, s.file.value[key], AtTheIssuer(s, p, key, expired);
    var left := HalfSealed(Taken(e), answer, fault);
    assert m[key := Taken(e)][key := left] == m[key := left];
    Presents(s, p, key, expired);
    end := Cut(out, p, Some(m[key := left]));
    ThenStep(s, out, SealFails(p, answer, fault), end);
    assert end.procs == s.procs[p := Process(Some(m[key := left]), Idle)];
  }

  /** A refresh on the map: where it ends, for every outcome of its opens, writes and seals. */
  lemma RefreshEnds(s: State, p: Pid, key: Key, expired: string, opens: string -> bool, removes: bool,
                    answer: Refreshed, fault: SealFault, stores: bool) returns (end: State)
    requires Ready(s, p)
    requires Refreshable(MapFind(s.file.value, key), expired, opens) ==>
               FreshAnswer(s, s.file.value[key].refresh.value, key.user, answer)
    ensures Reaches(s, end)
    ensures var m, found := s.file.value, MapFind(s.file.value, key);
            if removes && Refreshable(found, expired, opens) then
              var e := found.value;
              var after := Answered(Taken(e), e.refresh.value, e.refreshExpires, answer);
              && Over(s, p, end, m[key := if Seals(answer, key.user, fault) && stores then after else Taken(e)],
                      m[key := if Seals(answer, key.user, fault) then after else HalfSealed(Taken(e), answer, fault)])
              && s.log + [Present(e.refresh.value, key, expired)] <= end.log
            else
              && Over(s, p, end, m, if Unopened(found, expired, opens) then m[key := Taken(found.value)] else m)
              && Quiet(s, end, key, expired, Unrefreshed(found, expired, opens))
  {
    var found := MapFind(s.file.value, key);
    if Unopened(found, expired, opens) {
      end := FailsToTake(s, p, key, expired, false);
    } else if !Refreshable(found, expired, opens) {
      end := EndsEarly(s, p, key, expired, opens);
    } else if !removes {
      end := FailsToTake(s, p, key, expired, true);
    } else if Seals(answer, key.user, fault) {
      end := StoresAnswer(s, p, key, expired, answer, stores);
    } else {
      end := FailsToSeal(s, p, key, expired, answer, fault);
    }
  }

  /** The lists `RefreshUserToken` writes and caches, as its contract gives them. */
  ghost predicate RefreshLeaves(rs: Remotes, url: string, user: string, expired: string, opens: string -> bool,
      removes: bool,
                                answer: Refreshed, fault: SealFault, stores: bool, file: Remotes, cache: Remotes) {
    var found := Find(rs, url, user);
    if removes && Refreshable(found, expired, opens) then
      var e := found.value;
      var after := Answered(Taken(e), e.refresh.value, e.refreshExpires, answer);
      && file == Set(rs, url, if Seals(answer, user, fault) && stores then after else Taken(e))
      && cache == Set(rs, url, if Seals(answer, user, fault) then after else HalfSealed(Taken(e), answer, fault))
    else
      && file == rs
      && cache == if Unopened(found, expired, opens) then Set(rs, url, Taken(found.value)) else rs
  }

  /** Every call of `refresh_user_token` is a run of the protocol: from the map of the lists it reloads to
      those of the lists it writes and caches, with a presentation in the log exactly when it makes one. */
  lemma RefreshCallIsARun(s: State, p: Pid, rs: Remotes, endpoint: string, user: string, expired: string,
                          opens: string -> bool, removes: bool, answer: Refreshed, fault: SealFault, stores: bool,
                          file: Remotes, cache: Remotes) returns (end: State)
    requires Ready(s, p) && WellFormed(rs) && s.file == Some(Abs(rs))
    requires Refreshable(Find(rs, Trimmed(endpoint), user), expired, opens) ==>
               FreshAnswer(s, Find(rs, Trimmed(endpoint), user).value.refresh.value, user, answer)
    requires RefreshLeaves(rs, Trimmed(endpoint), user, expired, opens, removes, answer, fault, stores, file, cache)
    ensures Reaches(s, end) && WellFormed(file) && WellFormed(cache) && Over(s, p, end, Abs(file), Abs(cache))
    ensures var found := Find(rs, Trimmed(endpoint), user);
            if removes && Refreshable(found, expired, opens)
            then s.log + [Present(found.value.refresh.value, Key(Trimmed(endpoint), user), expired)] <= end.log
            else Quiet(s, end, Key(Trimmed(endpoint), user), expired, Unrefreshed(found, expired, opens))
  {
    var key, found := Key(Trimmed(endpoint), user), Find(rs, Trimmed(endpoint), user);
    FindRefines(rs, key);
    if found.Some? {
      SetRefines(rs, key.endpoint, Taken(found.value));
      if found.value.refresh.Some? {
        SetRefines(rs, key.endpoint,
                   Answered(Taken(found.value), found.value.refresh.value, found.value.refreshExpires, answer));
      }
      SetRefines(rs, key.endpoint, HalfSealed(Taken(found.value), answer, fault));
    }
    end := RefreshEnds(s, p, key, expired, opens, removes, answer, fault, stores);
  }

  // ---------------------------------------------------------------------------
  // Storing and removing
  // ---------------------------------------------------------------------------

  /** The lists a change leaves in the cached map. */
  function ListChange(c: Change, rs: Remotes): Remotes {
    match c
    case Login(endpoint, token, policy) => Put(rs, Trimmed(endpoint), token, policy)
    case RemoveUser(authUrl, user) => Strip(rs, Under(Trimmed(authUrl)), user)
    case RemoveAll(authUrl) => Retain(rs, Elsewhere(Under(Trimmed(authUrl))))
    case RemoveWhere(key, removes) => StripFirst(rs, key.endpoint, Spared(key.user, removes))
  }

  /** Whether it writes the file, as the store's methods decide. */
  predicate ListWrites(c: Change, rs: Remotes) {
    match c
    case Login(_, _, _) => true
    case RemoveUser(authUrl, user) => StripsAny(rs, Under(Trimmed(authUrl)), user)
    case RemoveAll(authUrl) => exists i :: 0 <= i < |rs| && IsEntryForAuthUrl(rs[i].remote, Trimmed(authUrl))
    case RemoveWhere(key, removes) =>
      var tokens := TokensOf(rs, key.endpoint);
      exists i :: 0 <= i < |tokens| && tokens[i].userId == key.user && removes(tokens[i].token)
  }

  lemma ChangeRefines(c: Change, rs: Remotes)
    requires WellFormed(rs)
    ensures WellFormed(ListChange(c, rs)) && Abs(ListChange(c, rs)) == ChangeMap(c, Abs(rs))
  {
    match c
    case Login(endpoint, token, policy) => PutRefines(rs, Trimmed(endpoint), token, policy);
    case RemoveUser(authUrl, user) => StripRefines(rs, Under(Trimmed(authUrl)), user);
    case RemoveAll(authUrl) => StripAllRefines(rs, Under(Trimmed(authUrl)));
    case RemoveWhere(key, removes) => RemoveWhereRefines(rs, key.endpoint, key.user, removes);
  }

  lemma {:induction false} FindAt(rs: Remotes, i: nat, user: string)
    requires WellFormed(rs) && i < |rs|
    ensures rs[i].tokens != [] && DistinctUsers(rs[i].tokens)
    ensures Find(rs, rs[i].remote, user) == FindUser(rs[i].tokens, user)
  {
    if i > 0 {
      FindAt(rs[1..], i - 1, user);
      EndpointAt(rs[1..], i - 1);
    }
  }

  lemma {:induction false} EndpointAt(rs: Remotes, i: nat)
    requires i < |rs|
    ensures rs[i].remote in EndpointsOf(rs)
  {
    if i > 0 { EndpointAt(rs[1..], i - 1); }
  }

  lemma {:induction false} FoundSomewhere(rs: Remotes, endpoint: string, user: string) returns (i: nat)
    requires Find(rs, endpoint, user).Some?
    ensures i < |rs| && rs[i].remote == endpoint && user in UsersOf(rs[i].tokens)
    ensures TokensOf(rs, endpoint) == rs[i].tokens
  {
    if rs[0].remote == endpoint {
      i := 0;
      FindUserRow("", rs[0].tokens, Key("", user));
    } else {
      i := FoundSomewhere(rs[1..], endpoint, user);
      i := i + 1;
    }
  }

  lemma {:induction false} FindUserAt(ts: seq<IdentityToken>, i: nat)
    requires DistinctUsers(ts) && i < |ts|
    ensures FindUser(ts, ts[i].userId) == Some(ts[i]) && ts[i].userId in UsersOf(ts)
  {
    if i > 0 { FindUserAt(ts[1..], i - 1); }
  }

  lemma {:induction false} FindUserIndex(ts: seq<IdentityToken>, user: string) returns (i: nat)
    requires FindUser(ts, user).Some?
    ensures i < |ts| && ts[i] == FindUser(ts, user).value && ts[i].userId == user
  {
    if ts[0].userId == user {
      i := 0;
    } else {
      i := FindUserIndex(ts[1..], user);
      i := i + 1;
    }
  }

  lemma {:induction false} StripWrites(rs: Remotes, within: string -> bool, user: string)
    requires WellFormed(rs)
    ensures StripsAny(rs, within, user) <==> exists k :: k in Abs(rs) && k !in MapStrip(Abs(rs), within, user)
  {
    if StripsAny(rs, within, user) {
      var i :| 0 <= i < |rs| && within(rs[i].remote) && user in UsersOf(rs[i].tokens);
      var k := Key(rs[i].remote, user);
      FindAt(rs, i, user);
      FindUserRow("", rs[i].tokens, Key("", user));
      FindRefines(rs, k);
      assert k in Abs(rs) && k !in MapStrip(Abs(rs), within, user);
    }
    if k :| k in Abs(rs) && k !in MapStrip(Abs(rs), within, user) {
      FindRefines(rs, k);
      var i := FoundSomewhere(rs, k.endpoint, k.user);
    }
  }

  lemma RemoteIsInMap(rs: Remotes, i: nat) returns (k: Key)
    requires WellFormed(rs) && i < |rs|
    ensures k in Abs(rs) && k.endpoint == rs[i].remote
  {
    FindAt(rs, i, "");
    k := Key(rs[i].remote, rs[i].tokens[0].userId);
    FindAt(rs, i, k.user);
    FindUserAt(rs[i].tokens, 0);
    FindRefines(rs, k);
  }

  lemma {:induction false} StripAllWrites(rs: Remotes, within: string -> bool)
    requires WellFormed(rs)
    ensures (exists i :: 0 <= i < |rs| && within(rs[i].remote))
            <==> exists k :: k in Abs(rs) && k !in MapStripAll(Abs(rs), within)
  {
    if i :| 0 <= i < |rs| && within(rs[i].remote) {
      var k := RemoteIsInMap(rs, i);
      assert k in Abs(rs) && k !in MapStripAll(Abs(rs), within);
    }
    if k :| k in Abs(rs) && k !in MapStripAll(Abs(rs), within) {
      FindRefines(rs, k);
      var i := FoundSomewhere(rs, k.endpoint, k.user);
      assert within(rs[i].remote);
    }
  }

  lemma {:induction false} RemoveWhereWrites(rs: Remotes, key: Key, removes: string -> bool)
    requires WellFormed(rs)
    ensures ListWrites(RemoveWhere(key, removes), rs)
            <==> exists k :: k in Abs(rs) && k !in MapRemoveWhere(Abs(rs), key, removes)
  {
    var tokens := TokensOf(rs, key.endpoint);
    TokensAre(rs, key.endpoint, key.user);
    FindRefines(rs, key);
    if i :| 0 <= i < |tokens| && tokens[i].userId == key.user && removes(tokens[i].token) {
      FindUserAt(tokens, i);
      assert key in Abs(rs) && key !in MapRemoveWhere(Abs(rs), key, removes);
    }
    if k :| k in Abs(rs) && k !in MapRemoveWhere(Abs(rs), key, removes) {
      var i := FindUserIndex(tokens, key.user);
    }
  }

  lemma {:induction false} TokensAre(rs: Remotes, endpoint: string, user: string)
    requires WellFormed(rs)
    ensures DistinctUsers(TokensOf(rs, endpoint)) && Find(rs, endpoint, user) == FindUser(TokensOf(rs, endpoint), user)
  {
    if rs != [] && rs[0].remote != endpoint { TokensAre(rs[1..], endpoint, user); }
  }

  /** The store writes the file exactly when the protocol says it does. */
  lemma WritesRefines(c: Change, rs: Remotes)
    requires WellFormed(rs)
    ensures ListWrites(c, rs) <==> Writes(c, Some(Abs(rs)))
  {
    match c
    case Login(_, _, _) =>
    case RemoveUser(authUrl, user) => StripWrites(rs, Under(Trimmed(authUrl)), user);
    case RemoveAll(authUrl) => StripAllWrites(rs, Under(Trimmed(authUrl)));
    case RemoveWhere(key, removes) => RemoveWhereWrites(rs, key, removes);
  }

  lemma ChangeEnds(s: State, p: Pid, c: Change, ok: bool) returns (end: State)
    requires Ready(s, p) && FreshChange(s, c)
    ensures Reaches(s, end)
    ensures Over(s, p, end, if Writes(c, s.file) && ok then ChangeMap(c, s.file.value) else s.file.value,
                 ChangeMap(c, s.file.value))
  {
    var held, after := Holding(s, p, Write(c)), Some(ChangeMap(c, s.file.value));
    Reloads(s, p, Write(c));
    if Writes(c, s.file) {
      var changed := Noted(Moved(held, p, after, Changed).(seen := held.seen + SeenIn(c)), c);
      ThenStep(s, held, DoChange(p), changed);
      end := Ended(changed, p, after).(file := if ok then after else changed.file);
      ThenStep(s, changed, StoreChange(p, ok), end);
    } else {
      end := Ended(held, p, after);
      ThenStep(s, held, DoChange(p), end);
    }
    assert end.procs == s.procs[p := Process(after, Idle)];
  }

  /** Every call of `store_identity_token` and of the three removals is a run of the protocol, from the
      map of the lists it reloads to those of the lists it writes and caches. */
  lemma ChangeCallIsARun(s: State, p: Pid, rs: Remotes, c: Change, ok: bool) returns (end: State)
    requires Ready(s, p) && FreshChange(s, c) && WellFormed(rs) && s.file == Some(Abs(rs))
    ensures Reaches(s, end) && WellFormed(ListChange(c, rs))
    ensures Over(s, p, end, Abs(if ListWrites(c, rs) && ok then ListChange(c, rs) else rs), Abs(ListChange(c, rs)))
  {
    ChangeRefines(c, rs);
    WritesRefines(c, rs);
    end := ChangeEnds(s, p, c, ok);
  }
}
