/** The token store as one process sees it: the map it has cached, the file it shares with other
    processes, and the operations that hold both locks from the reload to the last write. Whether a
    file write succeeds, whether a sealed value opens and what the issuer answers are parameters. */
module TokenStore {
  import opened Wrappers
  import opened TokenMap

  datatype StoreError = StoreFailed

  /** What a refresh grant answered with. `names` is the identity the new token's claims give, and
      `domains` the root domains they give with the endpoint's own. */
  datatype Refreshed =
    | Token(token: string, refresh: Option<string>, expires: nat, scope: Option<string>,
            names: Option<string>, domains: seq<string>)
    | Refused
    | Unsent
    | Failed

  datatype RefreshError = TokenNotFound | NotAuthenticated | Disconnected | Internal

  /** Which of the two seals of an accepted answer fails. */
  datatype SealFault = NoFault | TokenFault | RefreshFault

  /** The entry once its refresh token has been taken out. */
  function Taken(e: IdentityToken): IdentityToken {
    e.(refresh := None, refreshExpires := 0)
  }

  /** The answer is a token for `user`. */
  predicate Accepted(answer: Refreshed, user: string) {
    answer.Token? && answer.names == Some(user)
  }

  /** The entry the answer leaves, from `e`, whose refresh token `presented` was taken out. */
  function Answered(e: IdentityToken, presented: string, deadline: nat, answer: Refreshed): IdentityToken {
    if Accepted(answer, e.userId) then
      e.(token := answer.token,
         domains := answer.domains,
         refresh := Some(if answer.refresh.Some? then answer.refresh.value else presented),
         refreshExpires := answer.expires,
         scope := if answer.scope.Some? then answer.scope else e.scope)
    else if answer.Unsent? then e.(refresh := Some(presented), refreshExpires := deadline)
    else e
  }

  function Outcome(answer: Refreshed, user: string): Result<string, RefreshError> {
    match answer
    case Token(token, _, _, _, names, _) => if names == Some(user) then Ok(token) else Err(Internal)
    case Refused => Err(NotAuthenticated)
    case Unsent => Err(Disconnected)
    case Failed => Err(NotAuthenticated)
  }

  function HeldIn(m: Option<Remotes>, endpoint: string, user: string): Option<IdentityToken> {
    if m.Some? then Find(m.value, endpoint, user) else None
  }

  /** Only the refresh token and its deadline are gone. */
  ghost predicate Emptied(before: IdentityToken, after: Option<IdentityToken>) {
    && after.Some? && after.value.refresh == None && after.value.refreshExpires == 0
    && after.value.userId == before.userId && after.value.token == before.token
    && after.value.domains == before.domains && after.value.scope == before.scope
  }

  /** What an answer makes of the entry it was asked for. A token for the user brings its own domains and
      deadline, and replaces the refresh token and the scope where it brings those; an answer that was
      not sent changes nothing; any other leaves the entry without its refresh token. */
  ghost predicate Leaves(before: IdentityToken, after: Option<IdentityToken>, answer: Refreshed, user: string) {
    match answer
    case Token(token, refresh, expires, scope, names, domains) =>
      if names == Some(user) then
        && after.Some? && after.value.userId == before.userId && after.value.token == token
        && after.value.domains == domains && after.value.refreshExpires == expires
        && after.value.refresh == (if refresh.Some? then refresh else before.refresh)
        && after.value.scope == (if scope.Some? then scope else before.scope)
      else Emptied(before, after)
    case Refused => Emptied(before, after)
    case Unsent => after == Some(before)
    case Failed => Emptied(before, after)
  }

  lemma AnsweredLeaves(before: IdentityToken, answer: Refreshed)
    requires before.refresh.Some?
    ensures Leaves(before, Some(Answered(Taken(before), before.refresh.value, before.refreshExpires, answer)), answer,
                   before.userId)
    ensures Emptied(before, Some(Taken(before)))
  {
  }

  /** The entry still holds the expired token, and a refresh token that opens. */
  predicate Refreshable(found: Option<IdentityToken>, expired: string, opens: string -> bool) {
    && found.Some? && opens(found.value.token) && found.value.token == expired
    && found.value.refresh.Some? && opens(found.value.refresh.value)
  }

  /** The entry still holds the expired token, and a refresh token that does not open. */
  predicate Unopened(found: Option<IdentityToken>, expired: string, opens: string -> bool) {
    && found.Some? && opens(found.value.token) && found.value.token == expired
    && found.value.refresh.Some? && !opens(found.value.refresh.value)
  }

  /** The entry a failed seal leaves in the cached map: as it was without the refresh token, or with
      the new token if that was sealed first. */
  function HalfSealed(e: IdentityToken, answer: Refreshed, fault: SealFault): IdentityToken {
    if fault.RefreshFault? && answer.Token? then e.(token := answer.token, domains := answer.domains) else e
  }

  /** What a caller gets when nothing is presented. */
  function Unrefreshed(found: Option<IdentityToken>, expired: string, opens: string -> bool): Result<string,
      RefreshError> {
    if found.None? then Err(TokenNotFound)
    else if !opens(found.value.token) then Err(Internal)
    else if found.value.token != expired then Ok(found.value.token)
    else if found.value.refresh.None? then Err(TokenNotFound)
    else Err(Internal)
  }

  /** Every seal the answer needs succeeds. */
  predicate Seals(answer: Refreshed, user: string, fault: SealFault) {
    fault.NoFault? || !Accepted(answer, user) || (fault.RefreshFault? && answer.refresh.None?)
  }

  // ---------------------------------------------------------------------------
  // List updates at an index
  // ---------------------------------------------------------------------------

  ghost predicate FirstRemote(rs: Remotes, endpoint: string, at: int) {
    && 0 <= at <= |rs|
    && (forall i :: 0 <= i < at ==> rs[i].remote != endpoint)
    && (at < |rs| ==> rs[at].remote == endpoint)
  }

  ghost predicate FirstUser(ts: seq<IdentityToken>, user: string, at: int) {
    && 0 <= at <= |ts|
    && (forall i :: 0 <= i < at ==> ts[i].userId != user)
    && (at < |ts| ==> ts[at].userId == user)
  }

  lemma {:induction false} PutUserAt(ts: seq<IdentityToken>, t: IdentityToken, policy: RefreshPolicy, at: nat)
    requires FirstUser(ts, t.userId, at)
    ensures PutUser(ts, t, policy) == if at == |ts| then ts + [t] else ts[at := Merged(ts[at], t, policy)]
  {
    if at > 0 {
      PutUserAt(ts[1..], t, policy, at - 1);
    }
  }

  lemma {:induction false} PutAt(rs: Remotes, endpoint: string, t: IdentityToken, policy: RefreshPolicy, at: nat)
    requires FirstRemote(rs, endpoint, at)
    ensures Put(rs, endpoint, t, policy) ==
            if at == |rs| then rs + [RemoteIdentity(endpoint, [t])]
            else rs[at := rs[at].(tokens := PutUser(rs[at].tokens, t, policy))]
  {
    if at > 0 {
      PutAt(rs[1..], endpoint, t, policy, at - 1);
    }
  }

  lemma SpliceTail(rs: Remotes, at: nat, middle: Remotes)
    requires 0 < at < |rs|
    ensures rs[..at] + middle + rs[at + 1..] == [rs[0]] + (rs[1..][..at - 1] + middle + rs[1..][at..])
  {
    assert rs[..at] == [rs[0]] + rs[1..][..at - 1];
    assert rs[at + 1..] == rs[1..][at..];
  }

  lemma {:induction false} StripFirstAt(rs: Remotes, endpoint: string, keeps: IdentityToken -> bool, at: nat)
    requires FirstRemote(rs, endpoint, at)
    ensures StripFirst(rs, endpoint, keeps) ==
            if at == |rs| then rs else rs[..at] + StripRemote(rs[at], keeps) + rs[at + 1..]
  {
    if at > 0 {
      StripFirstAt(rs[1..], endpoint, keeps, at - 1);
      if at < |rs| { SpliceTail(rs, at, StripRemote(rs[at], keeps)); }
    } else if rs != [] {
      assert rs[..0] == [];
    }
  }

  lemma {:induction false} RetainLength<T>(ts: seq<T>, keeps: T -> bool)
    ensures |Retain(ts, keeps)| <= |ts|
    ensures |Retain(ts, keeps)| == |ts| <==> forall i :: 0 <= i < |ts| ==> keeps(ts[i])
    ensures |Retain(ts, keeps)| == |ts| ==> Retain(ts, keeps) == ts
  {
    if ts != [] {
      RetainLength(ts[1..], keeps);
      assert (forall i :: 0 <= i < |ts| ==> keeps(ts[i])) <==>
             keeps(ts[0]) && (forall i :: 0 <= i < |ts[1..]| ==> keeps(ts[1..][i])) by {
        if keeps(ts[0]) && (forall i :: 0 <= i < |ts[1..]| ==> keeps(ts[1..][i])) {
          forall i | 0 <= i < |ts| ensures keeps(ts[i]) { if i > 0 { assert keeps(ts[1..][i - 1]); } }
        }
      }
    }
  }

  lemma {:induction false} UsersOfIndex(ts: seq<IdentityToken>, user: string)
    ensures user in UsersOf(ts) <==> exists i :: 0 <= i < |ts| && ts[i].userId == user
  {
    if ts != [] {
      UsersOfIndex(ts[1..], user);
      if user in UsersOf(ts[1..]) {
        var i :| 0 <= i < |ts[1..]| && ts[1..][i].userId == user;
        assert ts[i + 1].userId == user;
      }
      if exists i :: 0 <= i < |ts| && ts[i].userId == user {
        var i :| 0 <= i < |ts| && ts[i].userId == user;
        if i > 0 { assert ts[1..][i - 1].userId == user; }
      }
    }
  }

  lemma {:induction false} StripSplit(rs: Remotes, at: nat, within: string -> bool, user: string)
    requires at <= |rs|
    ensures Strip(rs, within, user) == Strip(rs[..at], within, user) + Strip(rs[at..], within, user)
  {
    if at == 0 {
      assert rs[..0] == [] && rs[0..] == rs;
    } else {
      StripSplit(rs[1..], at - 1, within, user);
      assert rs[..at][1..] == rs[1..][..at - 1];
      assert rs[1..][at - 1..] == rs[at..];
    }
  }

  lemma {:induction false} StripNothing(rs: Remotes, within: string -> bool, user: string)
    requires forall i :: 0 <= i < |rs| ==> !within(rs[i].remote)
    ensures Strip(rs, within, user) == rs
  {
    if rs != [] {
      StripNothing(rs[1..], within, user);
      assert !within(rs[0].remote);
    }
  }

  /** Up to `at` no remote is under the URL. */
  lemma StripTail(rs: Remotes, at: nat, within: string -> bool, user: string)
    requires at <= |rs|
    requires forall i :: 0 <= i < at ==> !within(rs[i].remote)
    ensures Strip(rs, within, user) == rs[..at] + Strip(rs[at..], within, user)
  {
    StripSplit(rs, at, within, user);
    StripNothing(rs[..at], within, user);
  }

  lemma {:induction false} StrippedTail(rs: Remotes, at: nat, base: string, user: string)
    requires at <= |rs|
    requires forall i :: 0 <= i < at ==> rs[i].remote != base
    ensures Stripped(rs, base, user) == Stripped(rs[at..], base, user)
  {
    if at > 0 {
      StrippedTail(rs[1..], at - 1, base, user);
      assert rs[1..][at - 1..] == rs[at..];
      assert rs[0].remote != base;
    }
  }

  /** `at` is the last index before `from` of a remote under the URL. */
  ghost predicate LastBefore(rs: Remotes, at: nat, from: nat, within: string -> bool) {
    && at < from <= |rs|
    && within(rs[at].remote)
    && forall i :: at < i < from ==> !within(rs[i].remote)
  }

  /** One turn of the descending loop, on the list the later turns have left. */
  lemma StripBack(rs: Remotes, at: nat, from: nat, within: string -> bool, user: string, remotes: Remotes)
    requires LastBefore(rs, at, from, within)
    requires remotes == rs[..from] + Strip(rs[from..], within, user)
    ensures remotes[at] == rs[at]
    ensures remotes[..at] + StripRemote(remotes[at], Others(user)) + remotes[at + 1..] ==
            rs[..at] + Strip(rs[at..], within, user)
  {
    StripRest(rs, at, from, within, user);
    var stripped := StripRemote(rs[at], Others(user));
    var rest := rs[at + 1..from] + Strip(rs[from..], within, user);
    assert remotes[..at] == rs[..at] && remotes[at + 1..] == rest;
    assert rs[..at] + stripped + rest == rs[..at] + (stripped + rest);
  }

  lemma StripRest(rs: Remotes, at: nat, from: nat, within: string -> bool, user: string)
    requires LastBefore(rs, at, from, within)
    ensures Strip(rs[at..], within, user) ==
            StripRemote(rs[at], Others(user)) + (rs[at + 1..from] + Strip(rs[from..], within, user))
  {
    var tail := rs[at..][1..];
    assert tail == rs[at + 1..];
    StripTail(tail, from - at - 1, within, user);
    assert tail[..from - at - 1] == rs[at + 1..from];
    assert tail[from - at - 1..] == rs[from..];
  }

  lemma StrippedBack(rs: Remotes, at: nat, from: nat, within: string -> bool, base: string, user: string)
    requires LastBefore(rs, at, from, within) && within(base)
    ensures Stripped(rs[at..], base, user) ==
            Stripped(rs[from..], base, user)
            + (if rs[at].remote == base then Retain(rs[at].tokens, Theirs(user)) else [])
  {
    var tail := rs[at..][1..];
    assert tail == rs[at + 1..];
    StrippedTail(tail, from - at - 1, base, user);
    assert tail[from - at - 1..] == rs[from..];
  }

  ghost predicate StripsFrom(rs: Remotes, from: nat, within: string -> bool, user: string) {
    exists i :: from <= i < |rs| && within(rs[i].remote) && user in UsersOf(rs[i].tokens)
  }

  lemma StripsBack(rs: Remotes, at: nat, from: nat, within: string -> bool, user: string)
    requires LastBefore(rs, at, from, within)
    ensures StripsFrom(rs, at, within, user) <==> StripsFrom(rs, from, within, user) || user in UsersOf(rs[at].tokens)
  {
    if user in UsersOf(rs[at].tokens) { assert StripsFrom(rs, at, within, user); }
  }

  /** `indices` is every index of a remote under the URL, ascending. */
  ghost predicate Matching(rs: Remotes, indices: seq<nat>, within: string -> bool) {
    && (forall i :: 0 <= i < |indices| ==> indices[i] < |rs| && within(rs[indices[i]].remote))
    && (forall i, j :: 0 <= i < j < |indices| ==> indices[i] < indices[j])
    && (forall k :: 0 <= k < |rs| && within(rs[k].remote) ==> k in indices)
  }

  lemma MatchingGap(rs: Remotes, indices: seq<nat>, n: nat, from: nat, within: string -> bool)
    requires Matching(rs, indices, within) && n < |indices|
    requires from == if n + 1 < |indices| then indices[n + 1] else |rs|
    ensures LastBefore(rs, indices[n], from, within)
  {
  }

  // ---------------------------------------------------------------------------
  // The store
  // ---------------------------------------------------------------------------

  class Store {
    var cache: Option<Remotes>
    /** `None` while the file does not load. */
    var file: Option<Remotes>

    constructor (file: Option<Remotes>)
      ensures this.cache == None && this.file == file
    {
      this.cache := None;
      this.file := file;
    }

    /** What a mutation starts from: the file, or the cached map where the file does not load. */
    ghost function Reloaded(): Option<Remotes>
      reads this
    {
      if file.Some? then file else cache
    }

    /** `identity_entry`, in the map a mutation starts from. */
    ghost function Entry(endpoint: string, user: string): Option<IdentityToken>
      reads this
    {
      HeldIn(Reloaded(), endpoint, user)
    }

    /** `reload_token_map`. */
    method Reload()
      modifies this`cache
      ensures cache == old(Reloaded())
      ensures file.Some? ==> cache == file
      ensures file.None? ==> cache == old(cache)
    {
      if file.Some? { cache := file; }
    }

    /** `store_token_map`, which writes the whole file or leaves it alone. */
    method WriteFile(rs: Remotes, writes: bool)
      modifies this`file
      ensures file == if writes then Some(rs) else old(file)
    {
      if writes { file := Some(rs); }
    }

    method Position(rs: Remotes, endpoint: string) returns (at: nat)
      ensures FirstRemote(rs, endpoint, at)
    {
      at := 0;
      while at < |rs| && rs[at].remote != endpoint
        invariant at <= |rs|
        invariant forall i :: 0 <= i < at ==> rs[i].remote != endpoint
      {
        at := at + 1;
      }
    }

    method UserPosition(ts: seq<IdentityToken>, user: string) returns (at: nat)
      ensures FirstUser(ts, user, at)
    {
      at := 0;
      while at < |ts| && ts[at].userId != user
        invariant at <= |ts|
        invariant forall i :: 0 <= i < at ==> ts[i].userId != user
      {
        at := at + 1;
      }
    }

    /** `store_identity_token`. */
    method StoreIdentityToken(endpoint: string, token: IdentityToken, policy: RefreshPolicy, writes: bool)
      returns (r: Result<(), StoreError>)
      modifies this
      ensures var before := if old(Reloaded()).Some? then old(Reloaded()).value else [];
              cache == Some(Put(before, Trimmed(endpoint), token, policy))
      ensures file == if writes then cache else old(file)
      ensures r == if writes then Ok(()) else Err(StoreFailed)
    {
      var endpoint := Trimmed(endpoint);
      Reload();
      if cache.Some? {
        var remotes := cache.value;
        var at := Position(remotes, endpoint);
        PutAt(remotes, endpoint, token, policy, at);
        if at < |remotes| {
          var tokens := remotes[at].tokens;
          var existing := UserPosition(tokens, token.userId);
          PutUserAt(tokens, token, policy, existing);
          if existing < |tokens| {
            var replacement := token;
            if policy == Keep {
              replacement := replacement.(refresh := tokens[existing].refresh,
                                          refreshExpires := tokens[existing].refreshExpires,
                                          scope := tokens[existing].scope);
            }
            tokens := tokens[existing := replacement];
          } else {
            tokens := tokens + [token];
          }
          cache := Some(remotes[at := remotes[at].(tokens := tokens)]);
        } else {
          cache := Some(remotes + [RemoteIdentity(endpoint, [token])]);
        }
      } else {
        cache := Some([RemoteIdentity(endpoint, [token])]);
      }
      WriteFile(cache.value, writes);
      r := if writes then Ok(()) else Err(StoreFailed);
    }

    /** The indices of the remotes under the URL, ascending. */
    method MatchingIndices(rs: Remotes, within: string -> bool) returns (indices: seq<nat>)
      ensures Matching(rs, indices, within)
    {
      indices := [];
      for n := 0 to |rs|
        invariant forall i :: 0 <= i < |indices| ==> indices[i] < n && within(rs[indices[i]].remote)
        invariant forall i, j :: 0 <= i < j < |indices| ==> indices[i] < indices[j]
        invariant forall k :: 0 <= k < n && within(rs[k].remote) ==> k in indices
      {
        if within(rs[n].remote) { indices := indices + [n]; }
      }
    }

    /** One turn of that function's loop: filters the remote at `at`, and drops it if it is empty. */
    method StripAt(rs: Remotes, at: nat, user: string) returns (remotes: Remotes, shrunk: bool)
      requires at < |rs|
      ensures remotes == rs[..at] + StripRemote(rs[at], Others(user)) + rs[at + 1..]
      ensures shrunk <==> user in UsersOf(rs[at].tokens)
    {
      var kept := Retain(rs[at].tokens, Others(user));
      RetainLength(rs[at].tokens, Others(user));
      UsersOfIndex(rs[at].tokens, user);
      shrunk := |kept| < |rs[at].tokens|;
      if kept == [] {
        remotes := rs[..at] + rs[at + 1..];
        assert rs[..at] + StripRemote(rs[at], Others(user)) == rs[..at];
      } else {
        remotes := rs[at := rs[at].(tokens := kept)];
      }
    }

    /** The loop of `remove_user_tokens_for_auth_url` over the matching indices, last first. */
    method StripDescending(rs: Remotes, within: string -> bool, base: string, user: string)
      returns (remotes: Remotes, removed: seq<IdentityToken>, modified: bool)
      requires within(base)
      ensures remotes == Strip(rs, within, user)
      ensures removed == Stripped(rs, base, user)
      ensures modified <==> StripsAny(rs, within, user)
    {
      var indices := MatchingIndices(rs, within);
      remotes, removed, modified := rs, [], false;
      var n := |indices|;
      ghost var from := |rs|;
      assert rs[..from] == rs && rs[from..] == [];
      while n > 0
        invariant 0 <= n <= |indices|
        invariant from == if n < |indices| then indices[n] else |rs|
        invariant remotes == rs[..from] + Strip(rs[from..], within, user)
        invariant removed == Stripped(rs[from..], base, user)
        invariant modified <==> StripsFrom(rs, from, within, user)
      {
        n := n - 1;
        var at := indices[n];
        MatchingGap(rs, indices, n, from, within);
        StripBack(rs, at, from, within, user, remotes);
        StrippedBack(rs, at, from, within, base, user);
        StripsBack(rs, at, from, within, user);
        if remotes[at].remote == base { removed := removed + Retain(remotes[at].tokens, Theirs(user)); }
        var shrunk;
        remotes, shrunk := StripAt(remotes, at, user);
        if shrunk { modified := true; }
        from := at;
      }
      StripTail(rs, from, within, user);
      StrippedTail(rs, from, base, user);
    }

    /** `remove_user_tokens_for_auth_url`. */
    method RemoveUserTokens(authUrl: string, user: string, writes: bool)
      returns (r: Result<seq<IdentityToken>, StoreError>)
      modifies this
      ensures old(Reloaded()).None? ==> cache == None && file == old(file) && r == Ok([])
      ensures old(Reloaded()).Some? ==>
                var before, url := old(Reloaded()).value, Trimmed(authUrl);
                && cache == Some(Strip(before, Under(url), user))
                && file == (if StripsAny(before, Under(url), user) && writes then cache else old(file))
                && r == (if StripsAny(before, Under(url), user) && !writes then Err(StoreFailed)
                    else Ok(Stripped(before, url, user)))
    {
      var url := Trimmed(authUrl);
      Reload();
      if cache.None? { return Ok([]); }
      var remotes, removed, modified := StripDescending(cache.value, Under(url), url, user);
      cache := Some(remotes);
      if modified {
        WriteFile(remotes, writes);
        if !writes { return Err(StoreFailed); }
      }
      r := Ok(removed);
    }

    /** `remove_all_tokens_for_auth_url`. */
    method RemoveAllTokens(authUrl: string, writes: bool) returns (r: Result<seq<IdentityToken>, StoreError>)
      modifies this
      ensures old(Reloaded()).None? ==> cache == None && file == old(file) && r == Ok([])
      ensures old(Reloaded()).Some? ==>
                var before, url := old(Reloaded()).value, Trimmed(authUrl);
                var touched := exists i :: 0 <= i < |before| && IsEntryForAuthUrl(before[i].remote, url);
                && cache == Some(Retain(before, Elsewhere(Under(url))))
                && file == (if touched && writes then cache else old(file))
                && r == (if touched && !writes then Err(StoreFailed) else Ok(TokensOf(before, url)))
    {
      var url := Trimmed(authUrl);
      Reload();
      if cache.None? { return Ok([]); }
      var before := cache.value;
      var kept := Retain(before, Elsewhere(Under(url)));
      RetainLength(before, Elsewhere(Under(url)));
      assert |kept| < |before| <==> exists i :: 0 <= i < |before| && IsEntryForAuthUrl(before[i].remote, url);
      cache := Some(kept);
      if |kept| < |before| {
        WriteFile(kept, writes);
        if !writes { return Err(StoreFailed); }
      }
      r := Ok(TokensOf(before, url));
    }

    /** `remove_user_token_where`, which does not trim its endpoint. */
    method RemoveUserTokenWhere(endpoint: string, user: string, removes: string -> bool, writes: bool)
      returns (r: Result<(), StoreError>)
      modifies this
      ensures old(Reloaded()).None? ==> cache == None && file == old(file) && r == Ok(())
      ensures old(Reloaded()).Some? ==>
                var before := old(Reloaded()).value;
                var tokens := TokensOf(before, endpoint);
                var touched := exists i :: 0 <= i < |tokens| && tokens[i].userId == user && removes(tokens[i].token);
                && cache == Some(StripFirst(before, endpoint, Spared(user, removes)))
                && file == (if touched && writes then cache else old(file))
                && r == (if touched && !writes then Err(StoreFailed) else Ok(()))
    {
      Reload();
      if cache.None? { return Ok(()); }
      var remotes := cache.value;
      var at := Position(remotes, endpoint);
      StripFirstAt(remotes, endpoint, Spared(user, removes), at);
      TokensOfAt(remotes, endpoint, at);
      if at == |remotes| { return Ok(()); }
      var tokens := remotes[at].tokens;
      var kept := Retain(tokens, Spared(user, removes));
      RetainLength(tokens, Spared(user, removes));
      if kept == [] {
        cache := Some(remotes[..at] + remotes[at + 1..]);
        assert remotes[..at] + StripRemote(remotes[at], Spared(user, removes)) == remotes[..at];
      } else {
        cache := Some(remotes[at := remotes[at].(tokens := kept)]);
        assert cache.value == remotes[..at] + [remotes[at].(tokens := kept)] + remotes[at + 1..];
      }
      assert |kept| < |tokens| <==> exists i :: 0 <= i < |tokens| && !Spared(user, removes)(tokens[i]);
      if |kept| < |tokens| {
        WriteFile(cache.value, writes);
        if !writes { return Err(StoreFailed); }
      }
      r := Ok(());
    }

    /** `refresh_user_token`, for one call that is neither cancelled nor cut short by a crash. */
    method RefreshUserToken(endpoint: string, user: string, expired: string, opens: string -> bool,
                            removes: bool, answer: Refreshed, fault: SealFault, stores: bool)
      returns (r: Result<string, RefreshError>, presented: Option<string>)
      modifies this
      // The refresh token of the expired token's entry is presented, if it can be taken out first.
      ensures var found := old(Entry(Trimmed(endpoint), user));
              presented == if removes && Refreshable(found, expired, opens) then found.value.refresh else None
      // Once presented it is in the file again only if a stored answer put it there.
      ensures presented.Some? ==>
                var before, found := old(Reloaded()).value, old(Entry(Trimmed(endpoint), user)).value;
                var after := Answered(Taken(found), presented.value, found.refreshExpires, answer);
                && file == Some(Set(before, Trimmed(endpoint), if Seals(answer, user, fault) && stores then after
                    else Taken(found)))
                && cache == Some(Set(before, Trimmed(endpoint),
                                     if Seals(answer, user, fault) then after
                                         else HalfSealed(Taken(found), answer, fault)))
                && r == (if Seals(answer, user, fault) && stores then Outcome(answer, user) else Err(Internal))
      // The same field by field, for the entry now in the file and the one in the cached map.
      ensures presented.Some? ==>
                var url, before := Trimmed(endpoint), old(Entry(Trimmed(endpoint), user)).value;
                && (if Seals(answer, user, fault) && stores then Leaves(before, HeldIn(file, url, user), answer, user)
                    else Emptied(before, HeldIn(file, url, user)))
                && (Seals(answer, user, fault) ==> Leaves(before, HeldIn(cache, url, user), answer, user))
      ensures presented.Some? && Seals(answer, user, fault) && stores ==>
                match answer
                case Token(token, _, _, _, names, _) => r == if names == Some(user) then Ok(token) else Err(Internal)
                case Refused => r == Err(NotAuthenticated)
                case Unsent => r == Err(Disconnected)
                case Failed => r == Err(NotAuthenticated)
      // Otherwise the file is left alone, and a token replaced already is returned as it is stored.
      ensures presented.None? ==>
                var found := old(Entry(Trimmed(endpoint), user));
                && file == old(file) && r == Unrefreshed(found, expired, opens)
                && (r == Err(TokenNotFound) <==>
                      || found.None?
                      || (found.value.refresh.None? && opens(found.value.token) && found.value.token == expired))
                && (r.Ok? <==> found.Some? && opens(found.value.token) && found.value.token != expired)
                && (r.Ok? ==> r.value == found.value.token)
                // A refresh token that does not open is left out of the cached map all the same.
                && cache == if Unopened(found, expired, opens)
                            then Some(Set(old(Reloaded()).value, Trimmed(endpoint), Taken(found.value)))
                            else old(Reloaded())
    {
      presented := None;
      var url := Trimmed(endpoint);
      Reload();
      if cache.None? { return Err(TokenNotFound), None; }
      var found := Find(cache.value, url, user);
      if found.None? { return Err(TokenNotFound), None; }
      FindOwner(cache.value, url, user);
      var entry := found.value;
      if !opens(entry.token) { return Err(Internal), None; }
      if entry.token != expired { return Ok(entry.token), None; }
      if entry.refresh.None? { return Err(TokenNotFound), None; }
      var refresh, deadline := entry.refresh.value, entry.refreshExpires;
      var without := entry.(refresh := None, refreshExpires := 0);
      ghost var before := cache.value;
      cache := Some(Set(cache.value, url, without));
      FindSet(before, url, without);
      if !opens(refresh) { return Err(Internal), None; }
      WriteFile(cache.value, removes);
      if !removes {
        cache := Some(Set(cache.value, url, entry));
        SetTwice(before, url, without, entry);
        SetSame(before, url, entry);
        return Err(Internal), None;
      }

      presented := Some(refresh);
      AnsweredLeaves(entry, answer);
      var now := Find(cache.value, url, user);
      assert now == Some(without);
      var result: Result<string, RefreshError>;
      var after := now.value;
      match answer {
        case Token(token, newRefresh, expires, scope, names, domains) =>
          if names == Some(user) {
            if fault.TokenFault? {
              return Err(Internal), presented;
            }
            after := after.(token := token, domains := domains);
            if newRefresh.Some? && fault.RefreshFault? {
              SetTwice(before, url, without, after);
              cache := Some(Set(cache.value, url, after));
              return Err(Internal), presented;
            }
            after := after.(refresh := Some(if newRefresh.Some? then newRefresh.value
                else refresh), refreshExpires := expires);
            if scope.Some? { after := after.(scope := scope); }
            result := Ok(token);
          } else {
            result := Err(Internal);
          }
        case Refused => result := Err(NotAuthenticated);
        case Unsent =>
          after := after.(refresh := Some(refresh), refreshExpires := deadline);
          result := Err(Disconnected);
        case Failed => result := Err(NotAuthenticated);
      }
      SetTwice(before, url, without, after);
      FindSet(before, url, after);
      cache := Some(Set(cache.value, url, after));
      WriteFile(cache.value, stores);
      r := if stores then result else Err(Internal);
    }
  }

  lemma {:induction false} TokensOfAt(rs: Remotes, endpoint: string, at: nat)
    requires FirstRemote(rs, endpoint, at)
    ensures TokensOf(rs, endpoint) == if at == |rs| then [] else rs[at].tokens
  {
    if at > 0 { TokensOfAt(rs[1..], endpoint, at - 1); }
  }

  lemma {:induction false} FindOwner(rs: Remotes, endpoint: string, user: string)
    ensures Find(rs, endpoint, user).Some? ==> Find(rs, endpoint, user).value.userId == user
  {
    if rs != [] {
      FindUserRow("", rs[0].tokens, Key("", user));
      FindOwner(rs[1..], endpoint, user);
    }
  }

  lemma {:induction false} FindSetUser(ts: seq<IdentityToken>, e: IdentityToken)
    requires FindUser(ts, e.userId).Some?
    ensures FindUser(SetUser(ts, e), e.userId) == Some(e)
    ensures FindUser(ts, e.userId) == Some(e) ==> SetUser(ts, e) == ts
  {
    if ts[0].userId != e.userId { FindSetUser(ts[1..], e); }
  }

  lemma {:induction false} FindSet(rs: Remotes, endpoint: string, e: IdentityToken)
    requires Find(rs, endpoint, e.userId).Some?
    ensures Find(Set(rs, endpoint, e), endpoint, e.userId) == Some(e)
  {
    if rs[0].remote == endpoint { FindSetUser(rs[0].tokens, e); } else { FindSet(rs[1..], endpoint, e); }
  }

  lemma {:induction false} SetUserTwice(ts: seq<IdentityToken>, a: IdentityToken, b: IdentityToken)
    requires a.userId == b.userId
    ensures SetUser(SetUser(ts, a), b) == SetUser(ts, b)
  {
    if ts != [] && ts[0].userId != a.userId { SetUserTwice(ts[1..], a, b); }
  }

  lemma {:induction false} SetTwice(rs: Remotes, endpoint: string, a: IdentityToken, b: IdentityToken)
    requires a.userId == b.userId
    ensures Set(Set(rs, endpoint, a), endpoint, b) == Set(rs, endpoint, b)
  {
    if rs != [] {
      if rs[0].remote == endpoint { SetUserTwice(rs[0].tokens, a, b); } else { SetTwice(rs[1..], endpoint, a, b); }
    }
  }

  lemma {:induction false} SetSame(rs: Remotes, endpoint: string, e: IdentityToken)
    requires Find(rs, endpoint, e.userId) == Some(e)
    ensures Set(rs, endpoint, e) == rs
  {
    if rs[0].remote == endpoint { FindSetUser(rs[0].tokens, e); } else { SetSame(rs[1..], endpoint, e); }
  }

  // ---------------------------------------------------------------------------
  // Removing what was stored
  // ---------------------------------------------------------------------------

  /** After a store under `endpoint`, `remove_user_token` with the same argument leaves the user
      without an entry exactly when the argument has no trailing slash: the store trims it and the
      removal does not. */
  lemma StoredThenRemoved(rs: Remotes, endpoint: string, token: IdentityToken, policy: RefreshPolicy)
    requires WellFormed(rs)
    ensures var stored := Put(rs, Trimmed(endpoint), token, policy);
            var after := StripFirst(stored, endpoint, Spared(token.userId, _ => true));
            Key(Trimmed(endpoint), token.userId) !in Abs(after) <==> !HasTrailingSlash(endpoint)
  {
    var stored := Put(rs, Trimmed(endpoint), token, policy);
    PutRefines(rs, Trimmed(endpoint), token, policy);
    RemoveWhereRefines(stored, endpoint, token.userId, _ => true);
  }

  /** The trailing slash of an endpoint that was stored and is to be removed. */
  lemma StoredThenKept(token: IdentityToken)
    ensures var stored := Put([], Trimmed("https://auth/"), token, Replace);
            var after := StripFirst(stored, "https://auth/", Spared(token.userId, _ => true));
            Key("https://auth", token.userId) in Abs(after)
  {
    assert "https://auth/"[..12] == "https://auth" && Trimmed("https://auth") == "https://auth";
    StoredThenRemoved([], "https://auth/", token, Replace);
  }

  // ---------------------------------------------------------------------------
  // A refresh token that does not open
  // ---------------------------------------------------------------------------

  /** The cached map loses such a refresh token for good, while the file keeps it. */
  lemma UnopenedIsDropped(rs: Remotes, endpoint: string, user: string, expired: string, opens: string -> bool)
    requires Unopened(Find(rs, endpoint, user), expired, opens)
    ensures var after := Set(rs, endpoint, Taken(Find(rs, endpoint, user).value));
            && after != rs && Find(after, endpoint, user) == Some(Taken(Find(rs, endpoint, user).value))
  {
    FindOwner(rs, endpoint, user);
    FindSet(rs, endpoint, Taken(Find(rs, endpoint, user).value));
  }

  /** A store whose file holds a refresh token that does not open, after a call that was refused. */
  method DropsUnopened() returns (store: Store, r: Result<string, RefreshError>)
    ensures fresh(store) && r == Err(Internal)
    ensures store.file.Some? && store.cache.Some?
    ensures Find(store.file.value, "https://auth", "u").Some? && Find(store.cache.value, "https://auth", "u").Some?
    ensures Find(store.file.value, "https://auth", "u").value.refresh == Some("sealed")
    ensures Find(store.cache.value, "https://auth", "u").value.refresh == None
  {
    var entry := IdentityToken("u", "old", [], Some("sealed"), 0, None);
    var rs := [RemoteIdentity("https://auth", [entry])];
    assert FindUser([entry], "u") == Some(entry);
    assert Find(rs, "https://auth", "u") == Some(entry);
    store := new Store(Some(rs));
    var opens := (sealed: string) => sealed == "old";
    var presented;
    r, presented := store.RefreshUserToken("https://auth", "u", "old", opens, true, Unsent, NoFault, true);
    UnopenedIsDropped(rs, "https://auth", "u", "old", opens);
  }
}
