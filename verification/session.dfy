/**
 * The session and token lifecycle: issuing an access/refresh pair,
 * validating an access token against the Redis session registry and the
 * block flags, rotating the refresh token, and revoking one or all sessions.
 *
 * Redis is one keyspace, `Store`. Token signing and parsing are the opaque
 * `Codec`; fresh UUIDs, the clock and the outcome of every Redis call arrive
 * as parameters, so each operation is a pure function from the store to a
 * result and the next store.
 */
module Jwt {
  import opened Base
  import opened Codes
  import Strings

  /** `SessionData`, the JSON record kept under a session key. */
  datatype SessionData = SessionData(
    refreshToken: string,
    userAgent: string,
    clientIP: string,
    createdAt: int,
    expiresAt: int)

  /** A Redis value: a session record, or anything that does not decode as one (a block flag, say). */
  datatype Entry = Session(data: SessionData) | Opaque

  type Store = map<string, Entry>

  /** `getSessionKey`: `user:<userID>:session:<sessionID>`. */
  function SessionKey(userID: string, sessionID: string): (k: string)
    ensures MatchesUser(k, userID) && k[|SessionPrefix(userID)|..] == sessionID
  {
    assert "user:" + userID + ":session:" + sessionID == SessionPrefix(userID) + sessionID;
    "user:" + userID + ":session:" + sessionID
  }

  /** `getBlockKey`: `user:blocked:<userID>`. */
  function BlockKey(userID: string): (k: string)
    ensures forall sessionID :: k != SessionKey(userID, sessionID)
  {
    assert forall sessionID :: |SessionKey(userID, sessionID)| > 13 + |userID|;
    "user:blocked:" + userID
  }

  /** The literal part of the SCAN pattern `user:<userID>:session:*`. */
  function SessionPrefix(userID: string): string
  {
    "user:" + userID + ":session:"
  }

  /** Whether SCAN with the pattern for `userID` matches `key`. */
  predicate MatchesUser(key: string, userID: string)
  {
    Strings.HasPrefix(key, SessionPrefix(userID))
  }

  /** A user's block flag never shares a key with one of that user's sessions. */
  lemma BlockKeyIsNotASessionKey(userID: string, sessionID: string)
    ensures BlockKey(userID) != SessionKey(userID, sessionID)
  {
    assert |BlockKey(userID)| < |SessionKey(userID, sessionID)|;
  }

  /** Every session key of a user matches that user's SCAN pattern. */
  lemma SessionKeyMatches(userID: string, sessionID: string)
    ensures MatchesUser(SessionKey(userID, sessionID), userID)
  {
    assert SessionKey(userID, sessionID) == SessionPrefix(userID) + sessionID;
  }

  /** `CustomClaims`. */
  datatype Claims = Claims(userID: string, sessionID: string, role: string, companyID: string, tenantID: string)

  /** The claims `generateAccessToken` signs: only the user and session are set. */
  function AccessClaims(userID: string, sessionID: string): Claims
  {
    Claims(userID, sessionID, "", "", "")
  }

  /** What `jwt.ParseWithClaims` with the HMAC-only key function reports for a token string. */
  datatype Verdict =
    | Verified(claims: Claims)
    | Expired             // signature valid, `exp` passed
    | Malformed           // unparsable, bad signature, or claims of another shape
    | WrongAlgorithm      // header names a non-HMAC method; the key function refuses it

  /** The token codec: signature-checking verification and the unverified decode. */
  datatype Codec = Codec(verify: string -> Verdict, decodeUnverified: string -> Option<Claims>)

  /** Why an operation failed: an error built from a code's text, or an infrastructure error. */
  datatype Fault =
    | Coded(code: Code)
    | StoreFault          // a Redis call returned an error
    | UnmarshalFault      // the stored value is not a session record
    | SigningFault        // `SignedString` failed
    | Panicked            // a runtime panic (slice out of range)

  /** What `generateAccessToken` returned. */
  datatype Signed = Signed(token: string) | SigningFailed

  datatype TokenPair = TokenPair(access: string, refresh: string)

  /** A result together with the store after the operation. */
  datatype Step<T> = Step(out: Result<T, Fault>, store: Store)

  /** Two stores agree on every key except possibly `key`. */
  predicate AgreeExcept(a: Store, b: Store, key: string)
  {
    a - {key} == b - {key}
  }

  // ----- Generate -----

  /**
   * What the environment supplies to one `Generate` call: the two fresh
   * UUIDs, the signed access token, the two clock readings and whether the
   * Redis `SET` fails.
   */
  datatype Issue = Issue(
    sessionID: string,
    refreshToken: string,
    access: Signed,
    createdAt: int,
    expiresAt: int,
    setFails: bool)

  /** `Manager.Generate`. */
  function Generate(store: Store, userID: string, userAgent: string, clientIP: string, env: Issue): (r: Step<TokenPair>)
    ensures r.out.Success? <==> env.access.Signed? && !env.setFails
    ensures env.access.SigningFailed? ==> r.out == Failure(SigningFault)
    ensures env.access.Signed? && env.setFails ==> r.out == Failure(StoreFault)
    ensures r.out.Failure? ==> r.store == store
    ensures r.out.Success? ==>
      var key := SessionKey(userID, env.sessionID);
      && r.out.value == TokenPair(env.access.token, env.refreshToken)
      && r.store.Keys == store.Keys + {key}
      && AgreeExcept(store, r.store, key)
      && r.store[key].Session?
      && r.store[key].data.refreshToken == r.out.value.refresh
      && r.store[key].data.userAgent == userAgent
      && r.store[key].data.clientIP == clientIP
  {
    if env.access.SigningFailed? then Step(Failure(SigningFault), store)
    else
      var record := SessionData(env.refreshToken, userAgent, clientIP, env.createdAt, env.expiresAt);
      if env.setFails then Step(Failure(StoreFault), store)
      else Step(Success(TokenPair(env.access.token, env.refreshToken)),
                store[SessionKey(userID, env.sessionID) := Session(record)])
  }

  /** With a fresh session id, a successful `Generate` adds exactly one key. */
  lemma GenerateAddsOneKey(store: Store, userID: string, userAgent: string, clientIP: string, env: Issue)
    requires SessionKey(userID, env.sessionID) !in store
    requires env.access.Signed? && !env.setFails
    ensures |Generate(store, userID, userAgent, clientIP, env).store| == |store| + 1
  {
    var key := SessionKey(userID, env.sessionID);
    var after := Generate(store, userID, userAgent, clientIP, env).store;
    assert after.Keys == store.Keys + {key};
    assert |after.Keys| == |store.Keys| + 1;
  }

  // ----- ValidateAccessToken -----

  /**
   * `Manager.ValidateAccessToken`. `blockCheckFails` / `sessionCheckFails`
   * say whether the two Redis `EXISTS` calls return an error.
   */
  function ValidateAccessToken(store: Store, codec: Codec, token: string,
                               blockCheckFails: bool, sessionCheckFails: bool): (r: Result<Claims, Fault>)
    ensures codec.verify(token).Expired? ==> r == Failure(Coded(AuthTokenExpired))
    ensures codec.verify(token).Malformed? || codec.verify(token).WrongAlgorithm? ==>
      r == Failure(Coded(AuthTokenInvalid))
    ensures codec.verify(token).Verified? ==>
      var c := codec.verify(token).claims;
      && (blockCheckFails ==> r == Failure(StoreFault))
      && (!blockCheckFails && BlockKey(c.userID) in store ==> r == Failure(Coded(UserBlocked)))
      && (!blockCheckFails && BlockKey(c.userID) !in store
          && (sessionCheckFails || SessionKey(c.userID, c.sessionID) !in store)
          ==> r == Failure(Coded(SessionRevoked)))
    ensures r.Success? <==>
      && codec.verify(token).Verified?
      && !blockCheckFails && BlockKey(codec.verify(token).claims.userID) !in store
      && !sessionCheckFails && SessionKey(codec.verify(token).claims.userID, codec.verify(token).claims.sessionID) in store
    ensures r.Success? ==> r.value == codec.verify(token).claims
  {
    match codec.verify(token)
    case Expired => Failure(Coded(AuthTokenExpired))
    case Malformed => Failure(Coded(AuthTokenInvalid))
    case WrongAlgorithm => Failure(Coded(AuthTokenInvalid))
    case Verified(c) =>
      if blockCheckFails then Failure(StoreFault)
      else if BlockKey(c.userID) in store then Failure(Coded(UserBlocked))
      else if sessionCheckFails || SessionKey(c.userID, c.sessionID) !in store then Failure(Coded(SessionRevoked))
      else Success(c)
  }

  /** A token the codec rejects is rejected the same way whatever the store holds: the store is not consulted. */
  lemma RejectedTokensIgnoreStore(s1: Store, s2: Store, codec: Codec, token: string,
                                  b1: bool, b2: bool, c1: bool, c2: bool)
    requires !codec.verify(token).Verified?
    ensures ValidateAccessToken(s1, codec, token, b1, c1) == ValidateAccessToken(s2, codec, token, b2, c2)
  {
  }

  // ----- Refresh -----

  /**
   * What the environment supplies to one `Refresh` call: the fresh refresh
   * token, the signed access token, and whether the Redis `GET`, the `DEL`
   * issued on a mismatch, and the `SET` fail.
   */
  datatype Rotation = Rotation(
    newRefresh: string,
    access: Signed,
    getFails: bool,
    deleteFails: bool,
    setFails: bool)

  /** `Manager.Refresh`. */
  function Refresh(store: Store, userID: string, sessionID: string, presented: string,
                   userAgent: string, env: Rotation): (r: Step<TokenPair>)
    ensures var key := SessionKey(userID, sessionID);
      && (env.getFails ==> r == Step(Failure(StoreFault), store))
      && (!env.getFails && key !in store ==> r == Step(Failure(Coded(SessionRevoked)), store))
      && (!env.getFails && key in store && store[key].Opaque? ==> r == Step(Failure(UnmarshalFault), store))
    ensures var key := SessionKey(userID, sessionID);
      !env.getFails && key in store && store[key].Session? ==>
        var data := store[key].data;
        && (data.refreshToken != presented ==>
              r.out == Failure(Coded(SessionMismatch))
              && r.store == (if env.deleteFails then store else store - {key}))
        && (data.refreshToken == presented && data.userAgent != userAgent ==>
              r == Step(Failure(Coded(SessionRevoked)), store))
    ensures var key := SessionKey(userID, sessionID);
      r.out.Success? <==>
        && !env.getFails && key in store && store[key].Session?
        && store[key].data.refreshToken == presented && store[key].data.userAgent == userAgent
        && env.access.Signed? && !env.setFails
    ensures var key := SessionKey(userID, sessionID);
      r.out.Success? ==>
        && r.out.value == TokenPair(env.access.token, env.newRefresh)
        && key in r.store && r.store[key] == Session(store[key].data.(refreshToken := env.newRefresh))
        && AgreeExcept(store, r.store, key) && r.store.Keys == store.Keys
    ensures r.store != store ==> r.out.Success? || r.out == Failure(Coded(SessionMismatch))
  {
    var key := SessionKey(userID, sessionID);
    if env.getFails then Step(Failure(StoreFault), store)
    else if key !in store then Step(Failure(Coded(SessionRevoked)), store)
    else match store[key]
      case Opaque => Step(Failure(UnmarshalFault), store)
      case Session(data) =>
        if data.refreshToken != presented then
          Step(Failure(Coded(SessionMismatch)), if env.deleteFails then store else store - {key})
        else if data.userAgent != userAgent then Step(Failure(Coded(SessionRevoked)), store)
        else if env.access.SigningFailed? then Step(Failure(SigningFault), store)
        else if env.setFails then Step(Failure(StoreFault), store)
        else Step(Success(TokenPair(env.access.token, env.newRefresh)),
                  store[key := Session(data.(refreshToken := env.newRefresh))])
  }

  // ----- Logout / LogoutAll -----

  /** `Manager.Logout`: `DEL` of one session key. */
  function Logout(store: Store, userID: string, sessionID: string, deleteFails: bool): (r: Step<()>)
    ensures deleteFails ==> r == Step(Failure(StoreFault), store)
    ensures !deleteFails ==> r.out.Success? && SessionKey(userID, sessionID) !in r.store
    ensures AgreeExcept(store, r.store, SessionKey(userID, sessionID)) && r.store.Keys <= store.Keys
  {
    if deleteFails then Step(Failure(StoreFault), store)
    else Step(Success(()), store - {SessionKey(userID, sessionID)})
  }

  /** Logging out twice is the same as logging out once, and neither call reports an error. */
  lemma LogoutIdempotent(store: Store, userID: string, sessionID: string)
    ensures var once := Logout(store, userID, sessionID, false);
            var twice := Logout(once.store, userID, sessionID, false);
      once.out.Success? && twice.out.Success? && twice.store == once.store
  {
  }

  /** The keys of `keys` whose `DEL` goes through. */
  function Swept(keys: seq<string>, failing: set<string>): set<string>
  {
    set k | k in keys && k !in failing
  }

  /** The body of the SCAN loop: `DEL` each yielded key, carrying on past keys whose `DEL` fails. */
  function DeleteEach(store: Store, keys: seq<string>, failing: set<string>): (r: Store)
    ensures r == store - Swept(keys, failing)
  {
    if |keys| == 0 then store
    else
      var next := if keys[0] in failing then store else store - {keys[0]};
      var r := DeleteEach(next, keys[1..], failing);
      assert Swept(keys, failing) == Swept(keys[1..], failing) + (if keys[0] in failing then {} else {keys[0]}) by {
        assert forall k :: k in keys <==> k == keys[0] || k in keys[1..];
      }
      r
  }

  /**
   * `Manager.LogoutAll`. `yielded` is what the SCAN iterator produced,
   * `failing` the keys whose `DEL` errors, `scanFails` whether the iterator
   * ended with an error.
   */
  function LogoutAll(store: Store, userID: string, yielded: seq<string>, failing: set<string>, scanFails: bool): (r: Step<()>)
    ensures r.out.Success? <==> !scanFails
    ensures r.out.Failure? ==> r.out.error == StoreFault
    ensures forall k :: k in yielded && k !in failing ==> k !in r.store
    ensures forall k :: k in r.store ==> k in store && r.store[k] == store[k]
    ensures forall k :: k in store && (k !in yielded || k in failing) ==> k in r.store
  {
    var after := DeleteEach(store, yielded, failing);
    Step(if scanFails then Failure(StoreFault) else Success(()), after)
  }

  /** The SCAN guarantees: only matching keys are yielded, and a complete scan yields every matching key. */
  predicate ScanContract(store: Store, userID: string, yielded: seq<string>, complete: bool)
  {
    && (forall k :: k in yielded ==> MatchesUser(k, userID))
    && (complete ==> forall k :: k in store && MatchesUser(k, userID) ==> k in yielded)
  }

  /**
   * After a complete sweep no session of the user is left except those whose
   * `DEL` failed, and no key outside the user's pattern is touched.
   */
  lemma LogoutAllSweeps(store: Store, userID: string, yielded: seq<string>, failing: set<string>)
    requires ScanContract(store, userID, yielded, true)
    ensures var after := LogoutAll(store, userID, yielded, failing, false).store;
      && (forall k :: k in after && MatchesUser(k, userID) ==> k in failing)
      && (forall k :: k in store && !MatchesUser(k, userID) ==> k in after && after[k] == store[k])
  {
  }

  // ----- GetUserSessions -----

  /**
   * One entry of the listing `GetUserSessions` returns. `sessionID` is a Go
   * string sliced by bytes, so it is held as the bytes themselves.
   */
  datatype SessionInfo = SessionInfo(sessionID: seq<Strings.byte>, userAgent: string, clientIP: string, createdAt: int, isCurrent: bool)

  const UuidLength: nat := 36

  /** Whether the `GET` of `key` succeeds and its value decodes as a session record. */
  predicate Listed(store: Store, key: string, unreadable: set<string>)
  {
    key !in unreadable && key in store && store[key].Session?
  }

  /** The yielded keys whose record is read, in SCAN order. */
  function ListedKeys(store: Store, keys: seq<string>, unreadable: set<string>): (ks: seq<string>)
    ensures |ks| <= |keys|
    ensures forall i :: 0 <= i < |ks| ==> ks[i] in keys && Listed(store, ks[i], unreadable)
    ensures forall k :: k in keys && Listed(store, k, unreadable) ==> k in ks
  {
    if |keys| == 0 then []
    else
      var rest := ListedKeys(store, keys[1..], unreadable);
      assert forall x :: x in keys <==> x == keys[0] || x in keys[1..];
      if Listed(store, keys[0], unreadable) then [keys[0]] + rest else rest
  }

  /** A single yielded key is listed exactly when its record is read. */
  lemma ListedKeysSingleton(store: Store, k: string, unreadable: set<string>)
    ensures ListedKeys(store, [k], unreadable) == if Listed(store, k, unreadable) then [k] else []
  {
  }

  /** Listing keeps SCAN order: the listing of two batches is the two listings one after the other. */
  lemma {:induction false} ListedKeysAppend(store: Store, a: seq<string>, b: seq<string>, unreadable: set<string>)
    ensures ListedKeys(store, a + b, unreadable) == ListedKeys(store, a, unreadable) + ListedKeys(store, b, unreadable)
  {
    if |a| == 0 {
      assert a + b == b;
    } else {
      assert (a + b)[0] == a[0] && (a + b)[1..] == a[1..] + b;
      ListedKeysAppend(store, a[1..], b, unreadable);
    }
  }

  /** A listed key of fewer than 36 bytes: `key[len(key)-36:]` panics on it. */
  predicate ShortListed(store: Store, key: string, unreadable: set<string>)
  {
    Listed(store, key, unreadable) && |Strings.Utf8(key)| < UuidLength
  }

  /** Whether some key of `keys` is listed but too short: the loop below panics on it. */
  predicate AnyShort(store: Store, keys: seq<string>, unreadable: set<string>)
  {
    |keys| > 0 && (ShortListed(store, keys[0], unreadable) || AnyShort(store, keys[1..], unreadable))
  }

  /** `AnyShort` is the existential it names. */
  lemma {:induction false} AnyShortExists(store: Store, keys: seq<string>, unreadable: set<string>)
    ensures AnyShort(store, keys, unreadable) <==> exists k :: k in keys && ShortListed(store, k, unreadable)
  {
    if |keys| > 0 {
      AnyShortExists(store, keys[1..], unreadable);
      assert forall x :: x in keys <==> x == keys[0] || x in keys[1..];
    }
  }

  /** `vs` holds, in order, one entry per key of `ks`, each describing that key's record. */
  predicate DescribedBy(store: Store, ks: seq<string>, vs: seq<SessionInfo>)
  {
    && |vs| == |ks|
    && forall i :: 0 <= i < |ks| ==>
      && ks[i] in store && store[ks[i]].Session? && |Strings.Utf8(ks[i])| >= UuidLength
      && vs[i] == Describe(ks[i], store[ks[i]].data)
  }

  /** Describing one more key in front extends a description. */
  lemma DescribedByCons(store: Store, k: string, ks: seq<string>, vs: seq<SessionInfo>)
    requires DescribedBy(store, ks, vs)
    requires k in store && store[k].Session? && |Strings.Utf8(k)| >= UuidLength
    ensures DescribedBy(store, [k] + ks, [Describe(k, store[k].data)] + vs)
  {
    var ks' := [k] + ks;
    var vs' := [Describe(k, store[k].data)] + vs;
    assert forall i :: 1 <= i < |ks'| ==> ks'[i] == ks[i - 1] && vs'[i] == vs[i - 1];
  }

  /**
   * The loop of `GetUserSessions`: one entry per listed key, in SCAN order; a
   * listed key of fewer bytes than a UUID panics.
   */
  function Collect(store: Store, keys: seq<string>, unreadable: set<string>): (r: Result<seq<SessionInfo>, Fault>)
    ensures r.Failure? <==> AnyShort(store, keys, unreadable)
    ensures r.Failure? ==> r.error == Panicked
    ensures r.Success? ==> DescribedBy(store, ListedKeys(store, keys, unreadable), r.value)
  {
    if |keys| == 0 then Success([])
    else
      var k := keys[0];
      var rest := Collect(store, keys[1..], unreadable);
      if ShortListed(store, k, unreadable) then Failure(Panicked)
      else if rest.Failure? then rest
      else if Listed(store, k, unreadable) then
        DescribedByCons(store, k, ListedKeys(store, keys[1..], unreadable), rest.value);
        Success([Describe(k, store[k].data)] + rest.value)
      else rest
  }

  /** The entry for one listed key: the session id is the key's last 36 bytes. */
  function Describe(key: string, s: SessionData): SessionInfo
    requires |Strings.Utf8(key)| >= UuidLength
  {
    var bytes := Strings.Utf8(key);
    SessionInfo(bytes[|bytes| - UuidLength..], s.userAgent, s.clientIP, s.createdAt, false)
  }

  /** `Manager.GetUserSessions` over the keys the SCAN iterator yielded. */
  function GetUserSessions(store: Store, userID: string, yielded: seq<string>, unreadable: set<string>): (r: Result<seq<SessionInfo>, Fault>)
    ensures r.Failure? <==> exists k :: k in yielded && ShortListed(store, k, unreadable)
    ensures r.Success? ==> |r.value| == |ListedKeys(store, yielded, unreadable)|
    ensures r.Success? ==> forall i :: 0 <= i < |r.value| ==> !r.value[i].isCurrent
    ensures r.Failure? ==> r.error == Panicked
    ensures r.Success? ==> DescribedBy(store, ListedKeys(store, yielded, unreadable), r.value)
  {
    AnyShortExists(store, yielded, unreadable);
    Collect(store, yielded, unreadable)
  }

  /**
   * For a session created with a 36-byte session id (a UUID's text), the
   * listing reports exactly that id's bytes.
   */
  lemma ListingRecoversSessionID(userID: string, sessionID: string, s: SessionData)
    requires |Strings.Utf8(sessionID)| == UuidLength
    ensures var key := SessionKey(userID, sessionID);
      |Strings.Utf8(key)| >= UuidLength && Describe(key, s).sessionID == Strings.Utf8(sessionID)
  {
    var key := SessionKey(userID, sessionID);
    assert key == SessionPrefix(userID) + sessionID;
    Strings.Utf8Append(SessionPrefix(userID), sessionID);
  }

  /**
   * A session id shorter than 36 characters still lists without a panic when
   * it has 36 bytes: the slice then cuts through the key's bytes, not its
   * characters, and the reported id is those bytes.
   */
  lemma ListingCountsBytes(userID: string, s: SessionData)
    ensures var sid := "\U{E9}\U{E9}\U{E9}\U{E9}\U{E9}\U{E9}\U{E9}\U{E9}\U{E9}\U{E9}\U{E9}\U{E9}\U{E9}\U{E9}\U{E9}\U{E9}\U{E9}\U{E9}";
            var key := SessionKey(userID, sid);
      && |sid| == 18 && |Strings.Utf8(sid)| == UuidLength
      && |Strings.Utf8(key)| >= UuidLength && Describe(key, s).sessionID == Strings.Utf8(sid)
  {
    var sid := "\U{E9}\U{E9}\U{E9}\U{E9}\U{E9}\U{E9}\U{E9}\U{E9}\U{E9}\U{E9}\U{E9}\U{E9}\U{E9}\U{E9}\U{E9}\U{E9}\U{E9}\U{E9}";
    Strings.TwoByteUtf8Length(sid);
    ListingRecoversSessionID(userID, sid, s);
  }

  // ----- properties across operations -----

  /**
   * A fresh login is immediately valid: if the codec verifies the issued
   * access token as the claims it was signed with and the user is not
   * blocked, validation returns the new session's claims.
   */
  lemma LoginThenValidate(store: Store, codec: Codec, userID: string, userAgent: string, clientIP: string, env: Issue)
    requires env.access.Signed? && !env.setFails
    requires codec.verify(env.access.token) == Verified(AccessClaims(userID, env.sessionID))
    requires BlockKey(userID) !in store
    ensures var after := Generate(store, userID, userAgent, clientIP, env);
      ValidateAccessToken(after.store, codec, after.out.value.access, false, false)
        == Success(AccessClaims(userID, env.sessionID))
  {
    BlockKeyIsNotASessionKey(userID, env.sessionID);
  }

  /**
   * A block flag wins over a live session: once the flag is present, a token
   * that still verifies is rejected as blocked.
   */
  lemma BlockedBeatsLiveSession(store: Store, codec: Codec, token: string, flag: Entry)
    requires codec.verify(token).Verified?
    requires var c := codec.verify(token).claims; SessionKey(c.userID, c.sessionID) in store
    ensures var c := codec.verify(token).claims;
      ValidateAccessToken(store[BlockKey(c.userID) := flag], codec, token, false, false) == Failure(Coded(UserBlocked))
  {
  }

  /**
   * Refresh tokens are single use: after a successful rotation, presenting
   * the old token again is a mismatch that deletes the session, after which
   * every access token of the session is revoked.
   */
  lemma {:induction false} ReplayRevokesSession(store: Store, codec: Codec, token: string, userID: string, sessionID: string,
                                   stale: string, userAgent: string, first: Rotation, second: Rotation, agent2: string)
    requires Refresh(store, userID, sessionID, stale, userAgent, first).out.Success?
    requires first.newRefresh != stale
    requires !second.getFails && !second.deleteFails
    requires codec.verify(token) == Verified(AccessClaims(userID, sessionID))
    requires BlockKey(userID) !in store
    ensures var s1 := Refresh(store, userID, sessionID, stale, userAgent, first).store;
            var r2 := Refresh(s1, userID, sessionID, stale, agent2, second);
      && r2.out == Failure(Coded(SessionMismatch))
      && SessionKey(userID, sessionID) !in r2.store
      && ValidateAccessToken(r2.store, codec, token, false, false) == Failure(Coded(SessionRevoked))
  {
    var key := SessionKey(userID, sessionID);
    var s1 := Refresh(store, userID, sessionID, stale, userAgent, first).store;
    assert s1[key].data.refreshToken == first.newRefresh;
    BlockKeyIsNotASessionKey(userID, sessionID);
    assert BlockKey(userID) !in s1;
  }

  /** After logout, access tokens of that session are refused as revoked. */
  lemma LogoutRevokesAccess(store: Store, codec: Codec, token: string, userID: string, sessionID: string)
    requires codec.verify(token) == Verified(AccessClaims(userID, sessionID))
    requires BlockKey(userID) !in store
    ensures var after := Logout(store, userID, sessionID, false).store;
      ValidateAccessToken(after, codec, token, false, false) == Failure(Coded(SessionRevoked))
  {
  }

  /** A user-agent mismatch is not destructive: the session survives and the right agent can still rotate. */
  lemma AgentMismatchKeepsSession(store: Store, userID: string, sessionID: string, presented: string,
                                  agent: string, env: Rotation, env2: Rotation)
    requires var key := SessionKey(userID, sessionID);
      key in store && store[key].Session? && store[key].data.refreshToken == presented
      && store[key].data.userAgent != agent
    requires !env.getFails
    requires !env2.getFails && env2.access.Signed? && !env2.setFails
    ensures var r := Refresh(store, userID, sessionID, presented, agent, env);
      && r.out == Failure(Coded(SessionRevoked))
      && Refresh(r.store, userID, sessionID, presented, store[SessionKey(userID, sessionID)].data.userAgent, env2).out.Success?
  {
  }
}
