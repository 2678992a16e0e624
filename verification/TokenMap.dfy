/** The token store of lore-credential: nested lists of remotes and identities, and the finite map
    from endpoint and user to entry that they stand for. Sealing is modelled as the identity. */
module TokenMap {
  import opened Wrappers

  datatype IdentityToken = IdentityToken(
    userId: string,
    token: string,
    domains: seq<string>,
    refresh: Option<string>,
    refreshExpires: nat,
    scope: Option<string>)

  datatype RemoteIdentity = RemoteIdentity(remote: string, tokens: seq<IdentityToken>)

  /** `TokenMap.remotes`. */
  type Remotes = seq<RemoteIdentity>

  /** Whether storing a token keeps the refresh token and scope of the entry it replaces. */
  datatype RefreshPolicy = Keep | Replace

  // ---------------------------------------------------------------------------
  // Endpoints
  // ---------------------------------------------------------------------------

  /** `trim_end_matches('/')`. */
  function Trimmed(endpoint: string): (r: string)
    ensures r <= endpoint
    ensures r != [] ==> r[|r| - 1] != '/'
    ensures forall i :: |r| <= i < |endpoint| ==> endpoint[i] == '/'
  {
    if endpoint != [] && endpoint[|endpoint| - 1] == '/'
    then Trimmed(endpoint[..|endpoint| - 1])
    else endpoint
  }

  predicate HasTrailingSlash(endpoint: string) {
    endpoint != [] && endpoint[|endpoint| - 1] == '/'
  }

  predicate IsHexDigit(c: char) {
    '0' <= c <= '9' || 'a' <= c <= 'f' || 'A' <= c <= 'F'
  }

  /** The base endpoint `authUrl`, or a resource below it: a 32-digit hex id or a `urc-` name. */
  predicate IsEntryForAuthUrl(remote: string, authUrl: string) {
    || remote == authUrl
    || (&& authUrl + "/" <= remote
        && var suffix := remote[|authUrl| + 1..];
           || (|suffix| == 32 && forall i :: 0 <= i < |suffix| ==> IsHexDigit(suffix[i]))
           || "urc-" <= suffix)
  }

  /** The id of a repository. */
  ghost predicate IsRepositoryId(suffix: string) {
    |suffix| == 32 && forall c :: c in suffix ==> c in "0123456789abcdefABCDEF"
  }

  /** What a logout from an auth URL covers: the URL itself, its repositories by id and its `urc-`
      resources, and nothing else. */
  lemma CoversUrlAndResources(remote: string, authUrl: string)
    ensures IsEntryForAuthUrl(remote, authUrl) <==>
            || remote == authUrl
            || exists suffix: string ::
                 remote == authUrl + "/" + suffix && (IsRepositoryId(suffix) || exists name :: suffix == "urc-" + name)
  {
    forall c ensures IsHexDigit(c) <==> c in "0123456789abcdefABCDEF" { HexDigits(c); }
    if authUrl + "/" <= remote {
      var suffix := remote[|authUrl| + 1..];
      assert remote == authUrl + "/" + suffix;
      if "urc-" <= suffix { assert suffix == "urc-" + suffix[4..]; }
    }
    forall suffix: string | remote == authUrl + "/" + suffix ensures suffix == remote[|authUrl| + 1..] {
    }
  }

  lemma HexDigits(c: char)
    ensures IsHexDigit(c) <==> c in "0123456789abcdefABCDEF"
  {
    var digits := "0123456789abcdefABCDEF";
    if '0' <= c <= '9' {
      assert digits[c as int - '0' as int] == c;
    } else if 'a' <= c <= 'f' {
      assert digits[10 + (c as int - 'a' as int)] == c;
    } else if 'A' <= c <= 'F' {
      assert digits[16 + (c as int - 'A' as int)] == c;
    }
  }

  // ---------------------------------------------------------------------------
  // The lists, as the source updates them
  // ---------------------------------------------------------------------------

  function FindUser(ts: seq<IdentityToken>, user: string): Option<IdentityToken> {
    if ts == [] then None
    else if ts[0].userId == user then Some(ts[0])
    else FindUser(ts[1..], user)
  }

  /** `identity_entry`: the first entry for the user in the first remote for the endpoint. */
  function Find(rs: Remotes, endpoint: string, user: string): Option<IdentityToken> {
    if rs == [] then None
    else if rs[0].remote == endpoint then FindUser(rs[0].tokens, user)
    else Find(rs[1..], endpoint, user)
  }

  function Merged(existing: IdentityToken, token: IdentityToken, policy: RefreshPolicy): IdentityToken {
    match policy
    case Replace => token
    case Keep => token.(refresh := existing.refresh, refreshExpires := existing.refreshExpires, scope := existing.scope)
  }

  function PutUser(ts: seq<IdentityToken>, token: IdentityToken, policy: RefreshPolicy): seq<IdentityToken> {
    if ts == [] then [token]
    else if ts[0].userId == token.userId then [Merged(ts[0], token, policy)] + ts[1..]
    else [ts[0]] + PutUser(ts[1..], token, policy)
  }

  function Put(rs: Remotes, endpoint: string, token: IdentityToken, policy: RefreshPolicy): Remotes {
    if rs == [] then [RemoteIdentity(endpoint, [token])]
    else if rs[0].remote == endpoint then [rs[0].(tokens := PutUser(rs[0].tokens, token, policy))] + rs[1..]
    else [rs[0]] + Put(rs[1..], endpoint, token, policy)
  }

  /** `Vec::retain`. */
  function Retain<T>(ts: seq<T>, keeps: T -> bool): seq<T> {
    if ts == [] then []
    else (if keeps(ts[0]) then [ts[0]] else []) + Retain(ts[1..], keeps)
  }

  function Others(user: string): IdentityToken -> bool {
    (t: IdentityToken) => t.userId != user
  }

  function Theirs(user: string): IdentityToken -> bool {
    (t: IdentityToken) => t.userId == user
  }

  function Spared(user: string, removes: string -> bool): IdentityToken -> bool {
    (t: IdentityToken) => t.userId != user || !removes(t.token)
  }

  function Under(authUrl: string): string -> bool {
    (remote: string) => IsEntryForAuthUrl(remote, authUrl)
  }

  function Elsewhere(within: string -> bool): RemoteIdentity -> bool {
    (r: RemoteIdentity) => !within(r.remote)
  }

  /** What is left of one remote once `keeps` has filtered its tokens: nothing, if none is left. */
  function StripRemote(r: RemoteIdentity, keeps: IdentityToken -> bool): Remotes {
    var tokens := Retain(r.tokens, keeps);
    if tokens == [] then [] else [r.(tokens := tokens)]
  }

  /** The order-preserving filter the descending removal loop amounts to. */
  function Strip(rs: Remotes, within: string -> bool, user: string): Remotes {
    if rs == [] then []
    else (if within(rs[0].remote) then StripRemote(rs[0], Others(user)) else [rs[0]])
         + Strip(rs[1..], within, user)
  }

  /** The user's entries of the base remotes, last remote first. */
  function Stripped(rs: Remotes, base: string, user: string): seq<IdentityToken> {
    if rs == [] then []
    else Stripped(rs[1..], base, user)
         + (if rs[0].remote == base then Retain(rs[0].tokens, Theirs(user)) else [])
  }

  predicate StripsAny(rs: Remotes, within: string -> bool, user: string) {
    exists i :: 0 <= i < |rs| && within(rs[i].remote) && user in UsersOf(rs[i].tokens)
  }

  function TokensOf(rs: Remotes, endpoint: string): seq<IdentityToken> {
    if rs == [] then []
    else if rs[0].remote == endpoint then rs[0].tokens
    else TokensOf(rs[1..], endpoint)
  }

  /** Filters the first remote for `endpoint`. */
  function StripFirst(rs: Remotes, endpoint: string, keeps: IdentityToken -> bool): Remotes {
    if rs == [] then []
    else if rs[0].remote == endpoint then StripRemote(rs[0], keeps) + rs[1..]
    else [rs[0]] + StripFirst(rs[1..], endpoint, keeps)
  }

  function SetUser(ts: seq<IdentityToken>, entry: IdentityToken): seq<IdentityToken> {
    if ts == [] then []
    else if ts[0].userId == entry.userId then [entry] + ts[1..]
    else [ts[0]] + SetUser(ts[1..], entry)
  }

  /** The entry `Find` gives, replaced in place by `entry`. */
  function Set(rs: Remotes, endpoint: string, entry: IdentityToken): Remotes {
    if rs == [] then []
    else if rs[0].remote == endpoint then [rs[0].(tokens := SetUser(rs[0].tokens, entry))] + rs[1..]
    else [rs[0]] + Set(rs[1..], endpoint, entry)
  }

  // ---------------------------------------------------------------------------
  // The map the lists stand for
  // ---------------------------------------------------------------------------

  datatype Key = Key(endpoint: string, user: string)

  type Entries = map<Key, IdentityToken>

  function UsersOf(ts: seq<IdentityToken>): set<string> {
    if ts == [] then {} else {ts[0].userId} + UsersOf(ts[1..])
  }

  function EndpointsOf(rs: Remotes): set<string> {
    if rs == [] then {} else {rs[0].remote} + EndpointsOf(rs[1..])
  }

  predicate DistinctUsers(ts: seq<IdentityToken>) {
    ts == [] || (ts[0].userId !in UsersOf(ts[1..]) && DistinctUsers(ts[1..]))
  }

  /** Distinct endpoints, distinct users in each, and no endpoint without a user. */
  predicate WellFormed(rs: Remotes) {
    rs == [] || (&& rs[0].tokens != []
                 && DistinctUsers(rs[0].tokens)
                 && rs[0].remote !in EndpointsOf(rs[1..])
                 && WellFormed(rs[1..]))
  }

  function Row(endpoint: string, ts: seq<IdentityToken>): Entries {
    if ts == [] then map[]
    else Row(endpoint, ts[1..])[Key(endpoint, ts[0].userId) := ts[0]]
  }

  /** The map the lists stand for. */
  function Abs(rs: Remotes): Entries {
    if rs == [] then map[] else Abs(rs[1..]) + Row(rs[0].remote, rs[0].tokens)
  }

  function MapFind(m: Entries, k: Key): Option<IdentityToken> {
    if k in m then Some(m[k]) else None
  }

  function MapPut(m: Entries, endpoint: string, token: IdentityToken, policy: RefreshPolicy): Entries {
    var k := Key(endpoint, token.userId);
    m[k := if k in m then Merged(m[k], token, policy) else token]
  }

  function MapStrip(m: Entries, within: string -> bool, user: string): Entries {
    map k | k in m && !(within(k.endpoint) && k.user == user) :: m[k]
  }

  function MapStripAll(m: Entries, within: string -> bool): Entries {
    map k | k in m && !within(k.endpoint) :: m[k]
  }

  function MapRemoveWhere(m: Entries, k0: Key, removes: string -> bool): Entries {
    map k | k in m && !(k == k0 && removes(m[k].token)) :: m[k]
  }

  // ---------------------------------------------------------------------------
  // One remote's tokens
  // ---------------------------------------------------------------------------

  lemma {:induction false} FindUserRow(endpoint: string, ts: seq<IdentityToken>, k: Key)
    ensures MapFind(Row(endpoint, ts), k) == (if k.endpoint == endpoint then FindUser(ts, k.user) else None)
    ensures FindUser(ts, k.user).Some? <==> k.user in UsersOf(ts)
    ensures FindUser(ts, k.user).Some? ==> FindUser(ts, k.user).value.userId == k.user
  {
    if ts != [] { FindUserRow(endpoint, ts[1..], k); }
  }

  lemma {:induction false} PutUserFind(ts: seq<IdentityToken>, t: IdentityToken, policy: RefreshPolicy, user: string)
    requires DistinctUsers(ts)
    ensures DistinctUsers(PutUser(ts, t, policy)) && UsersOf(PutUser(ts, t, policy)) == UsersOf(ts) + {t.userId}
    ensures FindUser(PutUser(ts, t, policy), user) ==
            if user != t.userId then FindUser(ts, user)
            else if FindUser(ts, user).Some? then Some(Merged(FindUser(ts, user).value, t, policy))
            else Some(t)
  {
    if ts != [] {
      PutUserFind(ts[1..], t, policy, user);
      assert PutUser(ts, t, policy)[1..] == if ts[0].userId == t.userId then ts[1..] else PutUser(ts[1..], t, policy);
    }
  }

  lemma {:induction false} RetainFind(ts: seq<IdentityToken>, keeps: IdentityToken -> bool, user: string)
    requires DistinctUsers(ts)
    ensures DistinctUsers(Retain(ts, keeps)) && UsersOf(Retain(ts, keeps)) <= UsersOf(ts)
    ensures FindUser(Retain(ts, keeps), user) ==
            if FindUser(ts, user).Some? && keeps(FindUser(ts, user).value) then FindUser(ts, user) else None
  {
    if ts != [] {
      RetainFind(ts[1..], keeps, user);
      FindUserRow("", ts[1..], Key("", user));
      if keeps(ts[0]) {
        assert Retain(ts, keeps)[1..] == Retain(ts[1..], keeps);
      } else {
        assert Retain(ts, keeps) == Retain(ts[1..], keeps);
      }
    }
  }

  lemma {:induction false} SetUserFind(ts: seq<IdentityToken>, entry: IdentityToken, user: string)
    requires DistinctUsers(ts) && entry.userId in UsersOf(ts)
    ensures DistinctUsers(SetUser(ts, entry)) && UsersOf(SetUser(ts, entry)) == UsersOf(ts)
    ensures FindUser(SetUser(ts, entry), user) == if user == entry.userId then Some(entry) else FindUser(ts, user)
  {
    if ts[0].userId == entry.userId {
      assert SetUser(ts, entry)[1..] == ts[1..];
    } else {
      SetUserFind(ts[1..], entry, user);
      assert SetUser(ts, entry)[1..] == SetUser(ts[1..], entry);
    }
  }

  // ---------------------------------------------------------------------------
  // The whole lists, one key at a time
  // ---------------------------------------------------------------------------

  /** `identity_entry` is the map's lookup. */
  lemma {:induction false} FindRefines(rs: Remotes, k: Key)
    requires WellFormed(rs)
    ensures MapFind(Abs(rs), k) == Find(rs, k.endpoint, k.user)
    ensures Find(rs, k.endpoint, k.user).Some? ==>
              k.endpoint in EndpointsOf(rs) && Find(rs, k.endpoint, k.user).value.userId == k.user
  {
    if rs != [] {
      FindRefines(rs[1..], k);
      FindUserRow(rs[0].remote, rs[0].tokens, k);
    }
  }

  lemma {:induction false} PutFind(rs: Remotes, endpoint: string, t: IdentityToken, policy: RefreshPolicy, k: Key)
    requires WellFormed(rs)
    ensures WellFormed(Put(rs, endpoint, t, policy))
    ensures EndpointsOf(Put(rs, endpoint, t, policy)) == EndpointsOf(rs) + {endpoint}
    ensures Find(Put(rs, endpoint, t, policy), k.endpoint, k.user) ==
            var before := Find(rs, k.endpoint, k.user);
            if k != Key(endpoint, t.userId) then before
            else if before.Some? then Some(Merged(before.value, t, policy))
            else Some(t)
  {
    if rs == [] {
      assert Put(rs, endpoint, t, policy)[1..] == [];
      PutUserFind([], t, policy, k.user);
      assert PutUser([], t, policy) == [t];
    } else if rs[0].remote == endpoint {
      PutUserFind(rs[0].tokens, t, policy, k.user);
      assert Put(rs, endpoint, t, policy)[1..] == rs[1..];
    } else {
      PutFind(rs[1..], endpoint, t, policy, k);
      assert Put(rs, endpoint, t, policy)[1..] == Put(rs[1..], endpoint, t, policy);
    }
  }

  lemma StripRemoteFind(r: RemoteIdentity, keeps: IdentityToken -> bool, rest: Remotes, k: Key)
    requires DistinctUsers(r.tokens) && WellFormed(rest) && r.remote !in EndpointsOf(rest)
    ensures WellFormed(StripRemote(r, keeps) + rest)
    ensures EndpointsOf(StripRemote(r, keeps) + rest) <= {r.remote} + EndpointsOf(rest)
    ensures Find(StripRemote(r, keeps) + rest, k.endpoint, k.user) ==
            var before := FindUser(r.tokens, k.user);
            if k.endpoint != r.remote then Find(rest, k.endpoint, k.user)
            else if before.Some? && keeps(before.value) then before
            else None
  {
    RetainFind(r.tokens, keeps, k.user);
    FindRefines(rest, k);
    var tokens := Retain(r.tokens, keeps);
    if tokens == [] {
      assert StripRemote(r, keeps) + rest == rest;
    } else {
      assert (StripRemote(r, keeps) + rest)[1..] == rest;
    }
  }

  lemma {:induction false} StripFind(rs: Remotes, within: string -> bool, user: string, k: Key)
    requires WellFormed(rs)
    ensures WellFormed(Strip(rs, within, user)) && EndpointsOf(Strip(rs, within, user)) <= EndpointsOf(rs)
    ensures Find(Strip(rs, within, user), k.endpoint, k.user) ==
            if within(k.endpoint) && k.user == user then None else Find(rs, k.endpoint, k.user)
  {
    if rs != [] {
      StripFind(rs[1..], within, user, k);
      FindUserRow("", rs[0].tokens, k);
      var rest := Strip(rs[1..], within, user);
      if within(rs[0].remote) {
        StripRemoteFind(rs[0], Others(user), rest, k);
      } else {
        assert ([rs[0]] + rest)[1..] == rest;
      }
    }
  }

  lemma {:induction false} StripAllFind(rs: Remotes, within: string -> bool, k: Key)
    requires WellFormed(rs)
    ensures var after := Retain(rs, Elsewhere(within));
            && WellFormed(after) && EndpointsOf(after) <= EndpointsOf(rs)
            && Find(after, k.endpoint, k.user) ==
               if within(k.endpoint) then None else Find(rs, k.endpoint, k.user)
  {
    if rs != [] {
      StripAllFind(rs[1..], within, k);
      FindRefines(rs[1..], k);
      var rest := Retain(rs[1..], Elsewhere(within));
      if within(rs[0].remote) {
        assert Retain(rs, Elsewhere(within)) == rest;
      } else {
        assert ([rs[0]] + rest)[1..] == rest;
      }
    }
  }

  lemma {:induction false} RemoveWhereFind(rs: Remotes, endpoint: string, user: string, removes: string -> bool, k: Key)
    requires WellFormed(rs)
    ensures var after := StripFirst(rs, endpoint, Spared(user, removes));
            var before := Find(rs, k.endpoint, k.user);
            && WellFormed(after) && EndpointsOf(after) <= EndpointsOf(rs)
            && Find(after, k.endpoint, k.user) ==
               if k == Key(endpoint, user) && before.Some? && removes(before.value.token) then None else before
  {
    if rs != [] {
      FindUserRow("", rs[0].tokens, k);
      if rs[0].remote == endpoint {
        StripRemoteFind(rs[0], Spared(user, removes), rs[1..], k);
      } else {
        RemoveWhereFind(rs[1..], endpoint, user, removes, k);
        var rest := StripFirst(rs[1..], endpoint, Spared(user, removes));
        assert ([rs[0]] + rest)[1..] == rest;
      }
    }
  }

  lemma {:induction false} SetFind(rs: Remotes, endpoint: string, entry: IdentityToken, k: Key)
    requires WellFormed(rs) && Find(rs, endpoint, entry.userId).Some?
    ensures WellFormed(Set(rs, endpoint, entry)) && EndpointsOf(Set(rs, endpoint, entry)) == EndpointsOf(rs)
    ensures Find(Set(rs, endpoint, entry), k.endpoint, k.user) ==
            if k == Key(endpoint, entry.userId) then Some(entry) else Find(rs, k.endpoint, k.user)
  {
    if rs[0].remote == endpoint {
      FindUserRow("", rs[0].tokens, Key("", entry.userId));
      SetUserFind(rs[0].tokens, entry, k.user);
      assert Set(rs, endpoint, entry)[1..] == rs[1..];
    } else {
      SetFind(rs[1..], endpoint, entry, k);
      assert Set(rs, endpoint, entry)[1..] == Set(rs[1..], endpoint, entry);
    }
  }

  // ---------------------------------------------------------------------------
  // Refinement
  // ---------------------------------------------------------------------------

  lemma SameLookups(m: Entries, m': Entries)
    requires forall k :: MapFind(m, k) == MapFind(m', k)
    ensures m == m'
  {
    forall k ensures k in m <==> k in m' && (k in m ==> m[k] == m'[k]) { assert MapFind(m, k) == MapFind(m', k); }
  }

  /** Storing is the map update, and keeps the lists well formed. */
  lemma PutRefines(rs: Remotes, endpoint: string, token: IdentityToken, policy: RefreshPolicy)
    requires WellFormed(rs)
    ensures WellFormed(Put(rs, endpoint, token, policy))
    ensures Abs(Put(rs, endpoint, token, policy)) == MapPut(Abs(rs), endpoint, token, policy)
  {
    var after := Put(rs, endpoint, token, policy);
    PutFind(rs, endpoint, token, policy, Key("", ""));
    forall k ensures MapFind(Abs(after), k) == MapFind(MapPut(Abs(rs), endpoint, token, policy), k) {
      PutFind(rs, endpoint, token, policy, k);
      FindRefines(rs, k);
      FindRefines(after, k);
    }
    SameLookups(Abs(after), MapPut(Abs(rs), endpoint, token, policy));
  }

  /** The stored entry: its own token and domains; the refresh token, its deadline and the scope of an
      entry it replaces where those are to be kept, and its own where not. */
  lemma StoredEntry(rs: Remotes, endpoint: string, token: IdentityToken, policy: RefreshPolicy)
    requires WellFormed(rs)
    ensures var before := Find(rs, endpoint, token.userId);
            var after := Find(Put(rs, endpoint, token, policy), endpoint, token.userId);
            && after.Some? && after.value.userId == token.userId
            && after.value.token == token.token && after.value.domains == token.domains
            && var kept := if policy == Keep && before.Some? then before.value else token;
               && after.value.refresh == kept.refresh
               && after.value.refreshExpires == kept.refreshExpires
               && after.value.scope == kept.scope
  {
    PutFind(rs, endpoint, token, policy, Key(endpoint, token.userId));
  }

  lemma {:induction false} TheirsIsTheirEntry(ts: seq<IdentityToken>, user: string)
    requires DistinctUsers(ts)
    ensures Retain(ts, Theirs(user)) == if FindUser(ts, user).Some? then [FindUser(ts, user).value] else []
  {
    if ts != [] {
      TheirsIsTheirEntry(ts[1..], user);
      FindUserRow("", ts[1..], Key("", user));
    }
  }

  /** What a user's logout returns: their entry at the URL itself, if there is one. */
  lemma {:induction false} StrippedIsTheirEntry(rs: Remotes, base: string, user: string)
    requires WellFormed(rs)
    ensures Stripped(rs, base, user) == if Find(rs, base, user).Some? then [Find(rs, base, user).value] else []
  {
    if rs != [] {
      StrippedIsTheirEntry(rs[1..], base, user);
      TheirsIsTheirEntry(rs[0].tokens, user);
      FindRefines(rs[1..], Key(base, user));
    }
  }

  /** Removing a user for an auth URL removes exactly their entries there and below it. */
  lemma StripRefines(rs: Remotes, within: string -> bool, user: string)
    requires WellFormed(rs)
    ensures WellFormed(Strip(rs, within, user))
    ensures Abs(Strip(rs, within, user)) == MapStrip(Abs(rs), within, user)
  {
    var after := Strip(rs, within, user);
    StripFind(rs, within, user, Key("", ""));
    forall k ensures MapFind(Abs(after), k) == MapFind(MapStrip(Abs(rs), within, user), k) {
      StripFind(rs, within, user, k);
      FindRefines(rs, k);
      FindRefines(after, k);
    }
    SameLookups(Abs(after), MapStrip(Abs(rs), within, user));
  }

  lemma StripAllRefines(rs: Remotes, within: string -> bool)
    requires WellFormed(rs)
    ensures WellFormed(Retain(rs, Elsewhere(within)))
    ensures Abs(Retain(rs, Elsewhere(within))) == MapStripAll(Abs(rs), within)
  {
    var after := Retain(rs, Elsewhere(within));
    StripAllFind(rs, within, Key("", ""));
    forall k ensures MapFind(Abs(after), k) == MapFind(MapStripAll(Abs(rs), within), k) {
      StripAllFind(rs, within, k);
      FindRefines(rs, k);
      FindRefines(after, k);
    }
    SameLookups(Abs(after), MapStripAll(Abs(rs), within));
  }

  lemma RemoveWhereRefines(rs: Remotes, endpoint: string, user: string, removes: string -> bool)
    requires WellFormed(rs)
    ensures WellFormed(StripFirst(rs, endpoint, Spared(user, removes)))
    ensures Abs(StripFirst(rs, endpoint, Spared(user, removes))) == MapRemoveWhere(Abs(rs), Key(endpoint, user),
        removes)
  {
    var after := StripFirst(rs, endpoint, Spared(user, removes));
    var expected := MapRemoveWhere(Abs(rs), Key(endpoint, user), removes);
    RemoveWhereFind(rs, endpoint, user, removes, Key("", ""));
    forall k ensures MapFind(Abs(after), k) == MapFind(expected, k) {
      RemoveWhereFind(rs, endpoint, user, removes, k);
      FindRefines(rs, k);
      FindRefines(after, k);
    }
    SameLookups(Abs(after), expected);
  }

  /** Updating the entry `identity_entry` finds is the map update of an existing key. */
  lemma SetRefines(rs: Remotes, endpoint: string, entry: IdentityToken)
    requires WellFormed(rs) && Find(rs, endpoint, entry.userId).Some?
    ensures WellFormed(Set(rs, endpoint, entry))
    ensures Abs(Set(rs, endpoint, entry)) == Abs(rs)[Key(endpoint, entry.userId) := entry]
  {
    var after := Set(rs, endpoint, entry);
    var expected := Abs(rs)[Key(endpoint, entry.userId) := entry];
    SetFind(rs, endpoint, entry, Key("", ""));
    forall k ensures MapFind(Abs(after), k) == MapFind(expected, k) {
      SetFind(rs, endpoint, entry, k);
      FindRefines(rs, k);
      FindRefines(after, k);
    }
    SameLookups(Abs(after), expected);
  }
}
