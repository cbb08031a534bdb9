/** The OpenID Connect relying party of src/oic/oic/consumer.py: a Consumer
    holding the PARAMS attributes, persisting them in a session store keyed
    by state, and the flow steps begin, parse_authz, complete, userinfo and
    register as state transitions over that object. Randomness (rndstr),
    the state hash (stateID), the message layer and the HTTP transport are
    inputs: the values they produced, or functions standing for them. */
module OicConsumer {
  import opened Common
  import opened UrlQuery
  import opened Session
  import opened Discovery

  /** The entries of the consumer configuration dictionary the core reads. */
  datatype Config = Config(
    authzPage: string,
    scope: string,
    responseType: string,
    requestMethod: string,
    tempDir: string,
    password: string,
    clientSecret: string,
    debug: bool)

  /** The server_info dictionary the constructor may be given. */
  datatype ServerInfo = ServerInfo(authorizationEndpoint: string, tokenEndpoint: string, userInfoEndpoint: string)

  predicate IsAlnum(c: char) {
    ('A' <= c <= 'Z') || ('a' <= c <= 'z') || ('0' <= c <= '9')
  }

  /** What rndstr(size) can return. */
  predicate IsRandomString(s: string, size: nat) {
    |s| == size && forall i :: 0 <= i < |s| ==> IsAlnum(s[i])
  }

  /** What stateID can return: an MD5 hex digest. */
  predicate IsStateId(s: string) {
    |s| == 32 && forall i :: 0 <= i < |s| ==> ('0' <= s[i] <= '9') || ('a' <= s[i] <= 'f')
  }

  /** A seed pointer key never collides with a session state. */
  lemma SeedKeyIsNotAStateId(seed: string, sid: string)
    requires IsStateId(sid)
    ensures SeedKey(seed) != sid
  {
    assert SeedKey(seed)[0] == 's';
  }

  lemma EveryAttrInParams()
    ensures forall a: Attr :: a in Params
  {
    forall a: Attr
      ensures a in Params
    {
      ParamsListsEveryAttr(a);
    }
  }

  /** The attribute values a new consumer starts from: the client id from
      the client configuration, the endpoints from server_info when given,
      empty strings for state, seed, nonce and request_filename, an empty
      grant map, and debug from the configuration. */
  function InitialValue(a: Attr, config: Config, clientId: Value, server: Option<ServerInfo>): Value {
    match a
    case ClientId => clientId
    case State => VStr("")
    case GrantMap => VGrants(map[])
    case AuthorizationEndpoint => if server.Some? then VStr(server.value.authorizationEndpoint) else VNone
    case TokenEndpoint => if server.Some? then VStr(server.value.tokenEndpoint) else VNone
    case UserInfoEndpoint => if server.Some? then VStr(server.value.userInfoEndpoint) else VNone
    case Seed => VStr("")
    case Nonce => VStr("")
    case RequestFilename => VStr("")
    case Debug => VBool(config.debug)
    case _ => VNone
  }

  function InitialAttrs(config: Config, clientId: Value, server: Option<ServerInfo>): (r: Record)
    ensures CompleteRecord(r)
    ensures r[Seed] == VStr("") && r[State] == VStr("") && r[GrantMap] == VGrants(map[])
  {
    EveryAttrInParams();
    map a | a in Params :: InitialValue(a, config, clientId, server)
  }

  /** What begin has made of the attributes when it takes its snapshot:
      the redirect URI, the seed (a fresh one only if there was none), the
      new state and a fresh grant under it. */
  function BeginSnapshot(attrs: Record, redirectUri: string, newSeed: string, sid: string): (r: Record)
    requires CompleteRecord(attrs)
    ensures CompleteRecord(r)
  {
    var seed := if IsEmpty(attrs[Seed]) then VStr(newSeed) else attrs[Seed];
    attrs[RedirectUri := VStr(redirectUri)][Seed := seed][State := VStr(sid)]
         [GrantMap := VGrants(attrs[GrantMap].grants[sid := FreshGrant])]
  }

  /** The snapshot holds the new redirect URI and state, keeps a seed that
      was set and draws one otherwise, adds a fresh grant under the state
      without touching the other grants, and leaves every other attribute. */
  lemma BeginSnapshotSets(attrs: Record, redirectUri: string, newSeed: string, sid: string)
    requires CompleteRecord(attrs)
    ensures var r := BeginSnapshot(attrs, redirectUri, newSeed, sid);
            && r[RedirectUri] == VStr(redirectUri) && r[State] == VStr(sid)
            && (!IsEmpty(attrs[Seed]) ==> r[Seed] == attrs[Seed])
            && (IsEmpty(attrs[Seed]) ==> r[Seed] == VStr(newSeed))
            && sid in r[GrantMap].grants && r[GrantMap].grants[sid] == FreshGrant
            && (forall k :: k in attrs[GrantMap].grants && k != sid ==>
                  k in r[GrantMap].grants && r[GrantMap].grants[k] == attrs[GrantMap].grants[k])
            && (forall a :: a != RedirectUri && a != Seed && a != State && a != GrantMap ==> r[a] == attrs[a])
  {
  }

  /** Whether the consumer had a seed or begin drew one, the snapshot
      carries a non-empty seed, so the pointer key `seed:<seed>` is never
      `seed:` alone. */
  lemma BeginSnapshotHasSeed(attrs: Record, redirectUri: string, newSeed: string, sid: string)
    requires CompleteRecord(attrs) && IsRandomString(newSeed, 16)
    ensures !IsEmpty(BeginSnapshot(attrs, redirectUri, newSeed, sid)[Seed])
  {
    BeginSnapshotSets(attrs, redirectUri, newSeed, sid);
    assert |newSeed| == 16;
  }

  /** The attributes after the first half of begin: the snapshot, then the
      nonce drawn after it was taken. */
  function BegunAttrs(attrs: Record, redirectUri: string, newSeed: string, sid: string, newNonce: string): (r: Record)
    requires CompleteRecord(attrs)
    ensures CompleteRecord(r)
  {
    BeginSnapshot(attrs, redirectUri, newSeed, sid)[Nonce := VStr(newNonce)]
  }

  /** The store after the first half of begin: the snapshot under the state,
      then the state under the pointer key of the seed. */
  function BegunStore(db: Store, attrs: Record, redirectUri: string, newSeed: string, sid: string): (r: Store)
    requires CompleteRecord(attrs) && StoreWellTyped(db)
    ensures StoreWellTyped(r)
  {
    var snapshot := BeginSnapshot(attrs, redirectUri, newSeed, sid);
    db[sid := SessionRecord(snapshot)][SeedKey(snapshot[Seed].s) := Pointer(sid)]
  }

  predicate HasLastToken(g: Grant, t: AccessTokenResponse) {
    |g.tokens| > 0 && g.tokens[|g.tokens| - 1] == t
  }

  /** The grant map update leaves, from the consumer's attributes and a
      stored record. */
  function ResumedGrants(attrs: Record, rec: Record): map<string, Grant>
    requires CompleteRecord(attrs) && RecordWellTyped(rec)
  {
    UpdatedComplete(attrs, rec);
    Updated(attrs, rec)[GrantMap].grants
  }

  /** The record holds a grant whose state is `state`: what the store
      fallback of grant_from_state finds. */
  predicate HasStoredGrant(rec: Record, state: string)
    requires RecordWellTyped(rec)
  {
    GrantMap in rec && exists k :: k in rec[GrantMap].grants && rec[GrantMap].grants[k].state == Some(state)
  }

  /** When a code-flow callback resumes its session: the state names a
      stored session that holds a redirect URI, and a token the response
      carries has a grant to go to, found by the base lookup in the updated
      grant map or else in the stored record. */
  predicate CanResume(attrs: Record, db: Store, aresp: AuthorizationResponse, lookup: GrantLookup)
    requires CompleteRecord(attrs) && StoreWellTyped(db)
  {
    var state := aresp.state;
    && state in db && db[state].SessionRecord? && RedirectUri in db[state].rec
    && (aresp.token.accessToken != "" ==>
          lookup(ResumedGrants(attrs, db[state].rec), state).Some? || HasStoredGrant(db[state].rec, state))
  }

  /** What a successful code-flow callback leaves behind, from the
      attributes and store before it: the state names a stored session;
      the attributes are those the update from that record gives, with the
      redirect URI the record holds; a token the response carries is added
      to the state's grant (the one `lookup` finds in the updated grant
      map, else a grant of the stored record whose state matches, copied
      in), and no other grant changed; and the new attributes are backed up
      under the state. */
  predicate ResumedFrom(attrs: Record, db: Store, aresp: AuthorizationResponse, lookup: GrantLookup,
                        attrs': Record, db': Store)
    requires CompleteRecord(attrs) && StoreWellTyped(db)
    ensures ResumedFrom(attrs, db, aresp, lookup, attrs', db') ==>
              aresp.state in db' && db'.Keys == db.Keys && db'[aresp.state] == SessionRecord(attrs')
  {
    var state := aresp.state;
    && state in db && db[state].SessionRecord? && RedirectUri in db[state].rec
    && var resumed := Updated(attrs, db[state].rec)[RedirectUri := db[state].rec[RedirectUri]];
    && db' == db[state := SessionRecord(attrs')]
    && attrs'.Keys == resumed.Keys
    && (forall a :: a in resumed && a != GrantMap ==> attrs'[a] == resumed[a])
    && (aresp.token.accessToken == "" ==> attrs'[GrantMap] == resumed[GrantMap])
    && (aresp.token.accessToken != "" ==>
          && GrantMap in resumed && resumed[GrantMap].VGrants?
          && var own := resumed[GrantMap].grants;
          && (lookup(own, state).Some? ==>
                var k := lookup(own, state).value;
                attrs'[GrantMap] == VGrants(own[k := AddToken(own[k], aresp.token)]))
          && (lookup(own, state).None? ==>
                && GrantMap in db[state].rec && db[state].rec[GrantMap].VGrants?
                && var stored := db[state].rec[GrantMap].grants;
                && exists k :: k in stored && stored[k].state == Some(state)
                               && attrs'[GrantMap] == VGrants(own[k := AddToken(stored[k], aresp.token)])))
  }

  /** What a failed callback leaves once its state is found: a seed pointer
      is NotASession and changes nothing; a stored session fails after
      update, leaving the updated attributes (with the record's redirect URI
      when it holds one) and the access token as it was. */
  predicate ResumeFailureLeaves(attrs: Record, db: Store, token: Option<AccessTokenResponse>,
                                aresp: AuthorizationResponse, r: Result<Callback>,
                                attrs': Record, token': Option<AccessTokenResponse>)
    requires CompleteRecord(attrs) && StoreWellTyped(db)
  {
    && (aresp.state in db && db[aresp.state].Pointer? ==>
          r == Err(NotASession(aresp.state)) && attrs' == attrs && token' == token)
    && (aresp.state in db && db[aresp.state].SessionRecord? && r.Err? ==>
          var rec := db[aresp.state].rec;
          && token' == token
          && (RedirectUri !in rec ==> r == Err(KeyNotFound("redirect_uri")) && attrs' == Updated(attrs, rec))
          && (RedirectUri in rec ==> attrs' == Updated(attrs, rec)[RedirectUri := rec[RedirectUri]]))
  }

  /** The store after begin's two writes: the snapshot under the state, then
      the state under the seed's pointer key. Following the pointer of the
      seed leads back to the snapshot. */
  lemma {:induction false} SeedPointerResolves(db: Store, snapshot: Record, seed: string, sid: string)
    requires IsStateId(sid)
    ensures var db' := db[sid := SessionRecord(snapshot)][SeedKey(seed) := Pointer(sid)];
            && db'[SeedKey(seed)] == Pointer(sid)
            && db'[sid] == SessionRecord(snapshot)
            && (forall k :: k in db && k != sid && k != SeedKey(seed) ==> db'[k] == db[k])
  {
    SeedKeyIsNotAStateId(seed, sid);
  }

  /** The path os.path.join(dir, name) builds. */
  function PathJoin(dir: string, name: string): (r: string)
    ensures |name| > 0 && name[0] == '/' ==> r == name
    ensures (|name| == 0 || name[0] != '/') ==>
              |r| >= |dir| + |name| && r[..|dir|] == dir && r[|r| - |name|..] == name
  {
    if |name| > 0 && name[0] == '/' then name
    else if dir == "" || dir[|dir| - 1] == '/' then dir + name
    else dir + "/" + name
  }

  /** A drawn file name joined to a directory ends in that name and keeps
      the directory as its prefix. */
  lemma PathJoinKeepsBoth(dir: string, name: string)
    requires IsRandomString(name, 10)
    ensures var p := PathJoin(dir, name);
            && |p| >= |dir| + |name| && p[..|dir|] == dir && p[|p| - |name|..] == name
  {
    assert name[0] != '/' by { assert IsAlnum(name[0]); }
  }

  /** The first drawn name whose path is free: begin's retry loop. */
  function FirstFreePath(dir: string, draws: seq<string>, existing: set<string>): (r: Option<string>)
    ensures r.Some? ==> r.value !in existing
  {
    if draws == [] then None
    else if PathJoin(dir, draws[0]) !in existing then Some(PathJoin(dir, draws[0]))
    else FirstFreePath(dir, draws[1..], existing)
  }

  /** The path chosen is free and comes from the first draw whose path is
      free; there is none exactly when every drawn path is taken. */
  lemma {:induction false} FirstFreePathIsFirstFree(dir: string, draws: seq<string>, existing: set<string>)
    ensures FirstFreePath(dir, draws, existing).None? <==>
              forall j :: 0 <= j < |draws| ==> PathJoin(dir, draws[j]) in existing
    ensures FirstFreePath(dir, draws, existing).Some? ==>
              exists i :: 0 <= i < |draws| && FirstFreePath(dir, draws, existing).value == PathJoin(dir, draws[i])
                          && PathJoin(dir, draws[i]) !in existing
                          && forall j :: 0 <= j < i ==> PathJoin(dir, draws[j]) in existing
  {
    if draws != [] && PathJoin(dir, draws[0]) in existing {
      var rest := draws[1..];
      assert FirstFreePath(dir, draws, existing) == FirstFreePath(dir, rest, existing);
      FirstFreePathIsFirstFree(dir, rest, existing);
      forall j | 0 < j < |draws|
        ensures draws[j] == rest[j - 1]
      {
      }
      if FirstFreePath(dir, rest, existing).Some? {
        var i :| 0 <= i < |rest| && FirstFreePath(dir, rest, existing).value == PathJoin(dir, rest[i])
                 && PathJoin(dir, rest[i]) !in existing
                 && forall j :: 0 <= j < i ==> PathJoin(dir, rest[j]) in existing;
        assert draws[i + 1] == rest[i];
        assert forall j :: 0 <= j < i + 1 ==> PathJoin(dir, draws[j]) in existing;
      }
    }
  }

  /** begin's filename loop: join each drawn name to the directory until the
      path does not exist. The draws stand for the successive rndstr(10)
      values; when they run out the loop has not found a free name. */
  method FreeFileName(dir: string, draws: seq<string>, existing: set<string>) returns (r: Option<string>)
    ensures r == FirstFreePath(dir, draws, existing)
  {
    var i := 0;
    while i < |draws| && PathJoin(dir, draws[i]) in existing
      invariant 0 <= i <= |draws|
      invariant FirstFreePath(dir, draws, existing) == FirstFreePath(dir, draws[i..], existing)
    {
      assert draws[i..][1..] == draws[i + 1..];
      i := i + 1;
    }
    if i < |draws| {
      r := Some(PathJoin(dir, draws[i]));
    } else {
      r := None;
    }
  }

  datatype FileMode = ReadMode | WriteMode

  /** open(path, mode) and then write: opening a missing file for reading
      raises IOError, and writing to a file opened for reading does too, so
      in read mode the write fails whether or not the path exists, and the
      outcome depends on the mode alone. */
  function OpenAndWrite(mode: FileMode): (o: Outcome)
    ensures o.Pass? <==> mode.WriteMode?
  {
    if mode.ReadMode? then Fail(IOError) else Pass
  }

  /** begin opens the request file with open(filename), that is for
      reading, on a path it has just checked does not exist: the write can
      never happen. Opened for writing, it always does. */
  lemma RequestFileAsWrittenFails(dir: string, draws: seq<string>, existing: set<string>)
    requires FirstFreePath(dir, draws, existing).Some?
    ensures FirstFreePath(dir, draws, existing).value !in existing
    ensures OpenAndWrite(ReadMode) == Fail(IOError)
    ensures OpenAndWrite(WriteMode) == Pass
  {
    FirstFreePathIsFirstFree(dir, draws, existing);
  }

  /** The arguments begin gives construct_AuthorizationRequest, and the
      request object it sets in "parameter" mode. */
  datatype AuthorizationRequest = AuthorizationRequest(
    state: string, responseType: string, scope: string, nonce: string, request: Option<string>)

  /** What begin returns: the authorization endpoint the user is sent to
      with the encoded request, and in "file" mode the request file written
      (path and contents). */
  datatype AuthzRedirect = AuthzRedirect(endpoint: Value, request: AuthorizationRequest, requestFile: Option<(string, string)>)

  /** An authorization response as parse_response delivers it; an empty
      access token means the response carries none. */
  datatype AuthorizationResponse = AuthorizationResponse(code: string, state: string, token: AccessTokenResponse)

  datatype AuthzReply = AuthzOk(resp: AuthorizationResponse) | AuthzFailed(error: string)

  datatype TokenReply = TokenOk(atr: AccessTokenResponse) | TokenFailed(error: string)

  datatype UserInfoReply = InfoOk(claims: map<string, string>) | InfoFailed(error: string)

  /** What parse_authz returns: the authorization response with any access
      token it carried (code flow), or the access token response (implicit
      flow). The id token slot is always None in the source. */
  datatype Callback =
    | CodeFlow(aresp: AuthorizationResponse, atr: Option<AccessTokenResponse>)
    | ImplicitFlow(response: AccessTokenResponse)

  /** Client.grant_from_state on the consumer's own grant map: the key of a
      grant it holds for the state, if any. */
  type GrantLookup = f: (map<string, Grant>, string) -> Option<string> |
    forall g, s :: f(g, s).Some? ==> f(g, s).value in g
    witness (g: map<string, Grant>, s: string) => None

  /** Grant.add_token */
  function AddToken(g: Grant, t: AccessTokenResponse): (r: Grant)
    ensures r.state == g.state && |r.tokens| == |g.tokens| + 1 && r.tokens[..|g.tokens|] == g.tokens && r.tokens[|r.tokens| - 1] == t
  {
    g.(tokens := g.tokens + [t])
  }

  /** How complete authenticates the client at the token endpoint. */
  datatype ClientAuth = BasicAuth(password: string) | RequestBody(secret: string, clientId: Value)

  /** complete's choice: the configured password first, else the client
      secret, else nothing to authenticate with. The secret sent is the one
      the guard tested (see ChooseClientAuthAsWritten). */
  function ChooseClientAuth(password: string, ownSecret: string, clientId: Value): (r: Result<ClientAuth>)
    ensures password != "" <==> r == Ok(BasicAuth(password))
    ensures password == "" && ownSecret != "" <==> r == Ok(RequestBody(ownSecret, clientId))
    ensures r.Err? <==> password == "" && ownSecret == ""
    ensures r.Err? ==> r.error == NoClientAuth
  {
    if password != "" then Ok(BasicAuth(password))
    else if ownSecret != "" then Ok(RequestBody(ownSecret, clientId))
    else Err(NoClientAuth)
  }

  /** complete as written: the guard tests the consumer's client_secret but
      the request sends config["client_secret"]. */
  function ChooseClientAuthAsWritten(config: Config, ownSecret: string, clientId: Value): (r: Result<ClientAuth>)
    ensures config.password != "" <==> r == Ok(BasicAuth(config.password))
    ensures r.Ok? && r.value.RequestBody? ==> ownSecret != "" && r.value.secret == config.clientSecret
    ensures r.Err? <==> config.password == "" && ownSecret == ""
  {
    if config.password != "" then Ok(BasicAuth(config.password))
    else if ownSecret != "" then Ok(RequestBody(config.clientSecret, clientId))
    else Err(NoClientAuth)
  }

  /** The two agree except on the secret sent: when the consumer's secret
      (set by register) differs from the configured one, the request as
      written carries a secret the guard never looked at. */
  lemma {:induction false} ClientAuthAsWrittenSendsConfigSecret(config: Config, ownSecret: string, clientId: Value)
    ensures ownSecret == config.clientSecret ==>
              ChooseClientAuthAsWritten(config, ownSecret, clientId) == ChooseClientAuth(config.password, ownSecret, clientId)
    ensures config.password == "" && ownSecret != "" && config.clientSecret != ownSecret ==>
              ChooseClientAuthAsWritten(config, ownSecret, clientId) == Ok(RequestBody(config.clientSecret, clientId))
              && ChooseClientAuth(config.password, ownSecret, clientId) != ChooseClientAuthAsWritten(config, ownSecret, clientId)
  {
  }

  /** A registration response from the server. */
  datatype RegistrationResponse = RegistrationResponse(clientId: string, clientSecret: string, expiresIn: int)

  /** The attributes register never takes from its keyword arguments. */
  const Reserved: set<string> := {"type", "client_id", "client_secret"}

  /** register's request: the type, the consumer's own credentials on
      client_update, and every recognised registration attribute given as a
      keyword argument, the reserved ones excepted. */
  method BuildRegistrationRequest(regType: string, clientId: Value, clientSecret: string,
                                  kwargs: map<string, string>, recognized: seq<string>)
    returns (req: map<string, Value>)
    ensures "type" in req && req["type"] == VStr(regType)
    ensures regType == "client_update" ==>
              "client_id" in req && req["client_id"] == clientId
              && "client_secret" in req && req["client_secret"] == VStr(clientSecret)
    ensures regType != "client_update" ==> "client_id" !in req && "client_secret" !in req
    ensures forall p :: p in req && p !in Reserved ==> p in recognized && p in kwargs && req[p] == VStr(kwargs[p])
    ensures forall p :: p in recognized && p in kwargs && p !in Reserved ==> p in req
  {
    req := map["type" := VStr(regType)];
    if regType == "client_update" {
      req := req["client_id" := clientId]["client_secret" := VStr(clientSecret)];
    }
    var i := 0;
    while i < |recognized|
      invariant 0 <= i <= |recognized|
      invariant "type" in req && req["type"] == VStr(regType)
      invariant regType == "client_update" ==>
                  "client_id" in req && req["client_id"] == clientId
                  && "client_secret" in req && req["client_secret"] == VStr(clientSecret)
      invariant regType != "client_update" ==> "client_id" !in req && "client_secret" !in req
      invariant forall p :: p in req && p !in Reserved ==> p in recognized[..i] && p in kwargs && req[p] == VStr(kwargs[p])
      invariant forall p :: p in recognized[..i] && p in kwargs && p !in Reserved ==> p in req
    {
      var prop := recognized[i];
      if prop !in Reserved && prop in kwargs {
        req := req[prop := VStr(kwargs[prop])];
      }
      assert recognized[..i + 1] == recognized[..i] + [prop];
      i := i + 1;
    }
    assert recognized[..i] == recognized;
  }

  class Consumer {
    const config: Config
    /** The PARAMS attributes. */
    var attrs: Record
    /** The session store, shared by every consumer of the site. */
    var sdb: Store
    var clientSecret: string
    var accessToken: Option<AccessTokenResponse>
    var registrationExpiresIn: int
    /** The full URL of the request that began the flow (_request). */
    var lastRequest: string

    ghost predicate Valid()
      reads this
    {
      CompleteRecord(attrs) && StoreWellTyped(sdb)
    }

    constructor(sessionDb: Store, config: Config, clientId: Value, clientSecret: string, serverInfo: Option<ServerInfo>)
      requires StoreWellTyped(sessionDb)
      ensures Valid()
      ensures this.config == config && sdb == sessionDb && this.clientSecret == clientSecret
      ensures attrs == InitialAttrs(config, clientId, serverInfo)
      ensures accessToken == None && registrationExpiresIn == 0 && lastRequest == ""
    {
      this.config := config;
      attrs := InitialAttrs(config, clientId, serverInfo);
      sdb := sessionDb;
      this.clientSecret := clientSecret;
      accessToken := None;
      registrationExpiresIn := 0;
      lastRequest := "";
    }

    /** update: fold the record stored under sid into the attributes without
        overwriting what the consumer already has, merging grant maps. A
        missing sid raises KeyError; a seed pointer has no items. */
    method Update(sid: string) returns (o: Outcome)
      requires Valid()
      modifies this
      ensures Valid()
      ensures sdb == old(sdb) && clientSecret == old(clientSecret) && accessToken == old(accessToken)
      ensures registrationExpiresIn == old(registrationExpiresIn) && lastRequest == old(lastRequest)
      ensures sid !in sdb ==> o == Fail(KeyNotFound(sid)) && attrs == old(attrs)
      ensures sid in sdb && sdb[sid].Pointer? ==> o == Fail(NotASession(sid)) && attrs == old(attrs)
      ensures sid in sdb && sdb[sid].SessionRecord? ==> o == Pass && attrs == Updated(old(attrs), sdb[sid].rec)
    {
      if sid !in sdb {
        return Fail(KeyNotFound(sid));
      }
      if sdb[sid].Pointer? {
        return Fail(NotASession(sid));
      }
      var rec := sdb[sid].rec;
      var current := attrs;
      var keys := rec.Keys;
      while keys != {}
        invariant keys <= rec.Keys
        invariant CompleteRecord(current)
        invariant forall a :: a in current ==>
                    current[a] == if a in rec && a !in keys then Merged(a, attrs[a], rec[a]) else attrs[a]
        decreases keys
      {
        var a :| a in keys;
        var local, stored := current[a], rec[a];
        if IsEmpty(local) && !IsEmpty(stored) {
          current := current[a := stored];
        } else if a == GrantMap && !IsEmpty(stored) {
          current := current[a := VGrants(stored.grants + local.grants)];
        }
        keys := keys - {a};
      }
      attrs := current;
      o := Pass;
    }

    /** restore: every attribute of the record stored under sid overwrites
        the consumer's. */
    method Restore(sid: string) returns (o: Outcome)
      requires Valid()
      modifies this
      ensures Valid()
      ensures sdb == old(sdb) && clientSecret == old(clientSecret) && accessToken == old(accessToken)
      ensures registrationExpiresIn == old(registrationExpiresIn) && lastRequest == old(lastRequest)
      ensures sid !in sdb ==> o == Fail(KeyNotFound(sid)) && attrs == old(attrs)
      ensures sid in sdb && sdb[sid].Pointer? ==> o == Fail(NotASession(sid)) && attrs == old(attrs)
      ensures sid in sdb && sdb[sid].SessionRecord? ==> o == Pass && attrs == Restored(old(attrs), sdb[sid].rec)
    {
      if sid !in sdb {
        return Fail(KeyNotFound(sid));
      }
      if sdb[sid].Pointer? {
        return Fail(NotASession(sid));
      }
      var rec := sdb[sid].rec;
      var current := attrs;
      var keys := rec.Keys;
      while keys != {}
        invariant keys <= rec.Keys
        invariant CompleteRecord(current)
        invariant forall a :: a in current ==>
                    current[a] == if a in rec && a !in keys then rec[a] else attrs[a]
        decreases keys
      {
        var a :| a in keys;
        current := current[a := rec[a]];
        keys := keys - {a};
      }
      attrs := current;
      o := Pass;
    }

    /** grant_from_state: the base class's lookup in the consumer's own grant
        map first; failing that, a grant for the state in the record stored
        under the state, which is then cached under its key. Returns the key
        of the grant in the consumer's grant map. */
    method GrantFromState(state: string, lookup: GrantLookup) returns (r: Result<Option<string>>)
      requires Valid()
      modifies this
      ensures Valid()
      ensures sdb == old(sdb) && clientSecret == old(clientSecret) && accessToken == old(accessToken)
      ensures registrationExpiresIn == old(registrationExpiresIn) && lastRequest == old(lastRequest)
      ensures r.Ok? && r.value.Some? ==> r.value.value in attrs[GrantMap].grants
      ensures lookup(old(attrs)[GrantMap].grants, state).Some? ==>
                r == Ok(lookup(old(attrs)[GrantMap].grants, state)) && attrs == old(attrs)
      ensures lookup(old(attrs)[GrantMap].grants, state).None? && state !in sdb ==>
                r == Ok(None) && attrs == old(attrs)
      ensures lookup(old(attrs)[GrantMap].grants, state).None? && state in sdb && sdb[state].Pointer? ==>
                r == Err(TypeMismatch) && attrs == old(attrs)
      ensures lookup(old(attrs)[GrantMap].grants, state).None? && state in sdb && sdb[state].SessionRecord? ==>
                var rec := sdb[state].rec;
                if GrantMap !in rec then r == Err(KeyNotFound("grant")) && attrs == old(attrs)
                else
                  var stored := rec[GrantMap].grants;
                  && r.Ok?
                  && (r.value.None? <==> forall k :: k in stored ==> stored[k].state != Some(state))
                  && (r.value.None? ==> attrs == old(attrs))
                  && (r.value.Some? ==>
                        var k := r.value.value;
                        && k in stored && stored[k].state == Some(state)
                        && attrs == old(attrs)[GrantMap := VGrants(old(attrs)[GrantMap].grants[k := stored[k]])])
    {
      var own := lookup(attrs[GrantMap].grants, state);
      if own.Some? {
        return Ok(own);
      }
      if state !in sdb {
        return Ok(None);
      }
      if sdb[state].Pointer? {
        return Err(TypeMismatch);
      }
      if GrantMap !in sdb[state].rec {
        return Err(KeyNotFound("grant"));
      }
      var stored := sdb[state].rec[GrantMap].grants;
      var found: Option<string> := None;
      var scopes := stored.Keys;
      while scopes != {} && found.None?
        invariant scopes <= stored.Keys
        invariant found.None? ==> forall k :: k in stored && k !in scopes ==> stored[k].state != Some(state)
        invariant found.Some? ==> found.value in stored && stored[found.value].state == Some(state)
        decreases scopes
      {
        var scope :| scope in scopes;
        if stored[scope].state == Some(state) {
          found := Some(scope);
        }
        scopes := scopes - {scope};
      }
      if found.Some? {
        attrs := attrs[GrantMap := VGrants(attrs[GrantMap].grants[found.value := stored[found.value]])];
      }
      r := Ok(found);
    }

    /** dictionary: the PARAMS attributes and their values. */
    function Dictionary(): (r: Record)
      requires Valid()
      reads this
      ensures forall a :: a in r <==> a in Params
      ensures forall a :: a in r ==> r[a] == attrs[a]
      ensures CompleteRecord(r)
    {
      EveryAttrInParams();
      map a | a in Params :: attrs[a]
    }

    /** _backup: store a snapshot of the attributes under sid. */
    method Backup(sid: string)
      requires Valid()
      modifies this
      ensures Valid()
      ensures sdb == old(sdb)[sid := SessionRecord(old(attrs))]
      ensures attrs == old(attrs) && clientSecret == old(clientSecret) && accessToken == old(accessToken)
      ensures registrationExpiresIn == old(registrationExpiresIn) && lastRequest == old(lastRequest)
    {
      var snapshot := Dictionary();
      assert snapshot == attrs;
      sdb := sdb[sid := SessionRecord(snapshot)];
    }

    /** The first half of begin: set the redirect URI, keep or draw the
        seed, make sid the state with a fresh grant, back the session up
        under sid, point the seed at it, and draw the nonce. */
    method StartSession(redirectUri: string, newSeed: string, sid: string, newNonce: string, fullUrl: string)
      requires Valid()
      modifies this
      ensures Valid()
      ensures attrs == BegunAttrs(old(attrs), redirectUri, newSeed, sid, newNonce)
      ensures sdb == BegunStore(old(sdb), old(attrs), redirectUri, newSeed, sid)
      ensures clientSecret == old(clientSecret) && accessToken == old(accessToken)
      ensures registrationExpiresIn == old(registrationExpiresIn) && lastRequest == fullUrl
    {
      ghost var snapshot := BeginSnapshot(attrs, redirectUri, newSeed, sid);
      ghost var db := sdb;
      var grants := attrs[GrantMap].grants;
      attrs := attrs[RedirectUri := VStr(redirectUri)];
      var seed := if IsEmpty(attrs[Seed]) then VStr(newSeed) else attrs[Seed];
      attrs := attrs[Seed := seed];
      attrs := attrs[State := VStr(sid)];
      attrs := attrs[GrantMap := VGrants(grants[sid := FreshGrant])];
      assert attrs == snapshot;
      Backup(sid);
      assert sdb == db[sid := SessionRecord(snapshot)];
      sdb := sdb[SeedKey(attrs[Seed].s) := Pointer(sid)];
      lastRequest := fullUrl;
      attrs := attrs[Nonce := VStr(newNonce)];
      assert attrs == BegunAttrs(old(attrs), redirectUri, newSeed, sid, newNonce);
      assert sdb == BegunStore(db, old(attrs), redirectUri, newSeed, sid);
    }

    /** begin: start the session, then build the authorization request in
        the configured request mode: "parameter" embeds the signed request,
        "simple" does not, and any other mode writes it to a fresh file
        under temp_dir, records the file name and backs up again. */
    method Begin(path: string, fullUrl: string, scope: string, responseType: string,
                 newSeed: string, sid: string, newNonce: string, idRequest: string,
                 draws: seq<string>, existing: set<string>)
      returns (r: Result<AuthzRedirect>)
      requires Valid()
      modifies this
      ensures Valid()
      ensures clientSecret == old(clientSecret) && accessToken == old(accessToken)
      ensures registrationExpiresIn == old(registrationExpiresIn) && lastRequest == fullUrl
      ensures var begun := BegunAttrs(old(attrs), path + config.authzPage, newSeed, sid, newNonce);
              var stored := BegunStore(old(sdb), old(attrs), path + config.authzPage, newSeed, sid);
              var areq := AuthorizationRequest(sid, if responseType == "" then config.responseType else responseType,
                                               if scope == "" then config.scope else scope, newNonce, None);
              if config.requestMethod == "parameter" then
                attrs == begun && sdb == stored
                && r == Ok(AuthzRedirect(begun[AuthorizationEndpoint], areq.(request := Some(idRequest)), None))
              else if config.requestMethod == "simple" then
                attrs == begun && sdb == stored
                && r == Ok(AuthzRedirect(begun[AuthorizationEndpoint], areq, None))
              else
                match FirstFreePath(config.tempDir, draws, existing)
                case None => attrs == begun && sdb == stored && r == Err(RetriesExhausted)
                case Some(file) =>
                  && attrs == begun[RequestFilename := VStr("/" + file)]
                  && sdb == stored[sid := SessionRecord(attrs)]
                  && r == Ok(AuthzRedirect(begun[AuthorizationEndpoint], areq, Some((file, idRequest))))
    {
      StartSession(path + config.authzPage, newSeed, sid, newNonce, fullUrl);
      var scope' := if scope == "" then config.scope else scope;
      var responseType' := if responseType == "" then config.responseType else responseType;
      var areq := AuthorizationRequest(sid, responseType', scope', newNonce, None);
      if config.requestMethod == "parameter" {
        r := Ok(AuthzRedirect(attrs[AuthorizationEndpoint], areq.(request := Some(idRequest)), None));
      } else if config.requestMethod == "simple" {
        r := Ok(AuthzRedirect(attrs[AuthorizationEndpoint], areq, None));
      } else {
        var file := FreeFileName(config.tempDir, draws, existing);
        if file.None? {
          return Err(RetriesExhausted);
        }
        var endpoint := attrs[AuthorizationEndpoint];
        attrs := attrs[RequestFilename := VStr("/" + file.value)];
        Backup(sid);
        r := Ok(AuthzRedirect(endpoint, areq, Some((file.value, idRequest))));
      }
    }

    /** extract_access_token_response's grant update: find the grant for
        the state and add the token to it. With no grant, the source calls
        add_token on None. `key` is the grant's key in the grant map. */
    method AttachToken(state: string, token: AccessTokenResponse, lookup: GrantLookup)
      returns (o: Outcome, key: string)
      requires Valid()
      modifies this
      ensures Valid()
      ensures sdb == old(sdb) && clientSecret == old(clientSecret)
      ensures registrationExpiresIn == old(registrationExpiresIn) && lastRequest == old(lastRequest)
      ensures forall a :: a != GrantMap ==> attrs[a] == old(attrs)[a]
      ensures o.Fail? ==> accessToken == old(accessToken) && attrs == old(attrs)
                          && o.error in {NoGrant(state), TypeMismatch, KeyNotFound("grant")}
      ensures o.Pass? ==>
                && accessToken == Some(token)
                && key in attrs[GrantMap].grants
                && attrs[GrantMap].grants == old(attrs)[GrantMap].grants[key := attrs[GrantMap].grants[key]]
                && HasLastToken(attrs[GrantMap].grants[key], token)
      ensures lookup(old(attrs)[GrantMap].grants, state).Some? ==>
                var own := old(attrs)[GrantMap].grants;
                && o.Pass? && key == lookup(own, state).value
                && attrs[GrantMap].grants == own[key := AddToken(own[key], token)]
      ensures lookup(old(attrs)[GrantMap].grants, state).None? ==>
                (o.Pass? <==> state in sdb && sdb[state].SessionRecord? && HasStoredGrant(sdb[state].rec, state))
      ensures o.Pass? && lookup(old(attrs)[GrantMap].grants, state).None? ==>
                && state in sdb && sdb[state].SessionRecord? && GrantMap in sdb[state].rec
                && var stored := sdb[state].rec[GrantMap].grants;
                && key in stored && stored[key].state == Some(state)
                && attrs[GrantMap].grants == old(attrs)[GrantMap].grants[key := AddToken(stored[key], token)]
    {
      key := "";
      var found := GrantFromState(state, lookup);
      if found.Err? {
        return Fail(found.error), key;
      }
      if found.value.None? {
        return Fail(NoGrant(state)), key;
      }
      key := found.value.value;
      var grants := attrs[GrantMap].grants;
      attrs := attrs[GrantMap := VGrants(grants[key := AddToken(grants[key], token)])];
      accessToken := Some(token);
      o := Pass;
    }

    /** The code-flow half of parse_authz once the response has parsed:
        fold the session stored under its state back in (an unknown state
        raises UnknownState), take the redirect URI from that record, attach
        any access token to the state's grant, and back the session up. */
    method ResumeSession(aresp: AuthorizationResponse, lookup: GrantLookup) returns (r: Result<Callback>)
      requires Valid()
      modifies this
      ensures Valid()
      ensures clientSecret == old(clientSecret) && registrationExpiresIn == old(registrationExpiresIn)
      ensures lastRequest == old(lastRequest)
      ensures aresp.state !in old(sdb) ==>
                r == Err(UnknownState(aresp.state)) && attrs == old(attrs) && sdb == old(sdb) && accessToken == old(accessToken)
      ensures r.Ok? <==> CanResume(old(attrs), old(sdb), aresp, lookup)
      ensures r.Err? ==> sdb == old(sdb)
      ensures ResumeFailureLeaves(old(attrs), old(sdb), old(accessToken), aresp, r, attrs, accessToken)
      ensures r.Ok? ==>
                && ResumedFrom(old(attrs), old(sdb), aresp, lookup, attrs, sdb)
                && r.value == CodeFlow(aresp, if aresp.token.accessToken == "" then None else Some(aresp.token))
                && accessToken == if aresp.token.accessToken == "" then old(accessToken) else Some(aresp.token)
    {
      var state := aresp.state;
      var o := Update(state);
      if o.Fail? {
        if o.error.KeyNotFound? {
          return Err(UnknownState(state));
        }
        return Err(o.error);
      }
      var rec := sdb[state].rec;
      if RedirectUri !in rec {
        return Err(KeyNotFound("redirect_uri"));
      }
      attrs := attrs[RedirectUri := rec[RedirectUri]];
      var atr: Option<AccessTokenResponse> := None;
      if aresp.token.accessToken != "" {
        var attached, key := AttachToken(state, aresp.token, lookup);
        if attached.Fail? {
          return Err(attached.error);
        }
        ghost var grants := attrs[GrantMap].grants;
        assert HasLastToken(grants[key], aresp.token);
        atr := Some(aresp.token);
      }
      Backup(state);
      r := Ok(CodeFlow(aresp, atr));
    }

    /** parse_authz: read the callback query (GET) or body (POST), any other
        method being a bad request. In the code flow (a response type that
        names "code") parse it as an authorization response and resume the
        session of its state; in the implicit flow parse it as an access
        token response and change nothing. */
    method ParseAuthz(requestMethod: string, queryString: string, postBody: string,
                      parseAuthz: string -> AuthzReply, parseToken: string -> TokenReply,
                      lookup: GrantLookup)
      returns (r: Result<Callback>)
      requires Valid()
      modifies this
      ensures Valid()
      ensures clientSecret == old(clientSecret) && registrationExpiresIn == old(registrationExpiresIn)
      ensures lastRequest == old(lastRequest)
      ensures requestMethod != "GET" && requestMethod != "POST" ==>
                r == Err(BadRequest) && attrs == old(attrs) && sdb == old(sdb) && accessToken == old(accessToken)
      ensures r.Err? ==> sdb == old(sdb)
      ensures var query := if requestMethod == "GET" then queryString else postBody;
              (requestMethod == "GET" || requestMethod == "POST") ==>
              if HasSubstring(config.responseType, "code") then
                match parseAuthz(query)
                case AuthzFailed(e) =>
                  r == Err(AuthzError(e)) && attrs == old(attrs) && sdb == old(sdb) && accessToken == old(accessToken)
                case AuthzOk(aresp) =>
                  && (aresp.state !in old(sdb) ==>
                        r == Err(UnknownState(aresp.state)) && attrs == old(attrs) && sdb == old(sdb)
                        && accessToken == old(accessToken))
                  && (r.Ok? <==> CanResume(old(attrs), old(sdb), aresp, lookup))
                  && (r.Ok? ==> ResumedFrom(old(attrs), old(sdb), aresp, lookup, attrs, sdb))
                  && (r.Ok? ==> r.value == CodeFlow(aresp, if aresp.token.accessToken == "" then None else Some(aresp.token)))
                  && (r.Ok? ==> accessToken == if aresp.token.accessToken == "" then old(accessToken) else Some(aresp.token))
                  && ResumeFailureLeaves(old(attrs), old(sdb), old(accessToken), aresp, r, attrs, accessToken)
              else
                && attrs == old(attrs) && sdb == old(sdb) && accessToken == old(accessToken)
                && match parseToken(query)
                   case TokenFailed(e) => r == Err(TokenError(e))
                   case TokenOk(atr) => r == Ok(ImplicitFlow(atr))
    {
      var query: string;
      if requestMethod == "GET" {
        query := queryString;
      } else if requestMethod == "POST" {
        query := postBody;
      } else {
        return Err(BadRequest);
      }
      if HasSubstring(config.responseType, "code") {
        var reply := parseAuthz(query);
        if reply.AuthzFailed? {
          return Err(AuthzError(reply.error));
        }
        r := ResumeSession(reply.resp, lookup);
      } else {
        var reply := parseToken(query);
        if reply.TokenFailed? {
          return Err(TokenError(reply.error));
        }
        r := Ok(ImplicitFlow(reply.atr));
      }
    }

    /** complete: choose the client authentication, run the access token
        request with it for the current state, and back the session up. With
        neither a password nor a client secret it fails before any request
        and any store write. */
    method Complete(exchange: (ClientAuth, string) -> TokenReply) returns (r: Result<AccessTokenResponse>)
      requires Valid()
      modifies this
      ensures Valid()
      ensures attrs == old(attrs) && clientSecret == old(clientSecret) && accessToken == old(accessToken)
      ensures registrationExpiresIn == old(registrationExpiresIn) && lastRequest == old(lastRequest)
      ensures match ChooseClientAuth(config.password, clientSecret, attrs[ClientId])
              case Err(e) => r == Err(e) && sdb == old(sdb)
              case Ok(auth) =>
                match exchange(auth, attrs[State].s)
                case TokenFailed(e) => r == Err(TokenError(e)) && sdb == old(sdb)
                case TokenOk(atr) => r == Ok(atr) && sdb == old(sdb)[attrs[State].s := SessionRecord(attrs)]
    {
      var auth :- ChooseClientAuth(config.password, clientSecret, attrs[ClientId]);
      var reply := exchange(auth, attrs[State].s);
      if reply.TokenFailed? {
        return Err(TokenError(reply.error));
      }
      Backup(attrs[State].s);
      r := Ok(reply.atr);
    }

    /** userinfo: store the claims the user info request returned and back
        the session up; an error response changes nothing. */
    method Userinfo(reply: UserInfoReply) returns (r: Result<map<string, string>>)
      requires Valid()
      modifies this
      ensures Valid()
      ensures clientSecret == old(clientSecret) && accessToken == old(accessToken)
      ensures registrationExpiresIn == old(registrationExpiresIn) && lastRequest == old(lastRequest)
      ensures reply.InfoFailed? ==> r == Err(TokenError(reply.error)) && attrs == old(attrs) && sdb == old(sdb)
      ensures reply.InfoOk? ==>
                && r == Ok(reply.claims)
                && attrs == old(attrs)[UserInfo := VClaims(reply.claims)]
                && sdb == old(sdb)[attrs[State].s := SessionRecord(attrs)]
    {
      if reply.InfoFailed? {
        return Err(TokenError(reply.error));
      }
      attrs := attrs[UserInfo := VClaims(reply.claims)];
      Backup(attrs[State].s);
      r := Ok(reply.claims);
    }

    /** register: post the registration request and, only on a 200 answer
        that decodes, take the client id, secret and expiry from it. `sent`
        is the request posted. */
    method Register(server: string, regType: string, kwargs: map<string, string>, recognized: seq<string>,
                    post: (string, map<string, Value>) -> HttpReply<RegistrationResponse>)
      returns (sent: map<string, Value>, r: Result<RegistrationResponse>)
      requires Valid()
      modifies this
      ensures Valid()
      ensures sdb == old(sdb) && accessToken == old(accessToken) && lastRequest == old(lastRequest)
      ensures "type" in sent && sent["type"] == VStr(regType)
      ensures regType == "client_update" ==>
                "client_id" in sent && sent["client_id"] == old(attrs)[ClientId]
                && "client_secret" in sent && sent["client_secret"] == VStr(old(clientSecret))
      ensures regType != "client_update" ==> "client_id" !in sent && "client_secret" !in sent
      ensures forall p :: p in sent && p !in Reserved ==> p in recognized && p in kwargs && sent[p] == VStr(kwargs[p])
      ensures forall p :: p in recognized && p in kwargs && p !in Reserved ==> p in sent
      ensures match post(server, sent)
              case HostNotFound => r == Err(ServerNotFound(server))
              case Reply(status, body) =>
                if status != 200 then r == Err(RegistrationFailed(status))
                else if body.None? then r == Err(NotJson)
                else r == Ok(body.value)
      ensures r.Ok? ==>
                && attrs == old(attrs)[ClientId := VStr(r.value.clientId)]
                && clientSecret == r.value.clientSecret
                && registrationExpiresIn == r.value.expiresIn
      ensures r.Err? ==>
                attrs == old(attrs) && clientSecret == old(clientSecret) && registrationExpiresIn == old(registrationExpiresIn)
    {
      sent := BuildRegistrationRequest(regType, attrs[ClientId], clientSecret, kwargs, recognized);
      var reply := post(server, sent);
      match reply {
        case HostNotFound =>
          r := Err(ServerNotFound(server));
          return;
        case Reply(status, body) =>
          if status != 200 {
            r := Err(RegistrationFailed(status));
            return;
          }
          if body.None? {
            r := Err(NotJson);
            return;
          }
          var resp := body.value;
          clientSecret := resp.clientSecret;
          attrs := attrs[ClientId := VStr(resp.clientId)];
          registrationExpiresIn := resp.expiresIn;
          r := Ok(resp);
      }
    }
  }

  /** An access token response with no token in it. */
  const NoToken: AccessTokenResponse := AccessTokenResponse("", "", map[])

  /** A consumer made for a site's first request begins the flow in
      "simple" mode: the store then holds, under the new state, the
      attributes begin snapshotted. */
  method BeginFresh(store: Store, config: Config, clientId: Value, clientSecret: string,
                    path: string, fullUrl: string, newSeed: string, sid: string, newNonce: string,
                    idRequest: string)
    returns (db: Store)
    requires StoreWellTyped(store) && IsStateId(sid)
    requires config.requestMethod == "simple"
    ensures StoreWellTyped(db)
    ensures sid in db
    ensures db[sid] == SessionRecord(BeginSnapshot(InitialAttrs(config, clientId, None), path + config.authzPage, newSeed, sid))
  {
    var first := new Consumer(store, config, clientId, clientSecret, None);
    var redirect := first.Begin(path, fullUrl, "", "", newSeed, sid, newNonce, idRequest, [], {});
    ghost var snapshot := BeginSnapshot(InitialAttrs(config, clientId, None), path + config.authzPage, newSeed, sid);
    SeedPointerResolves(store, snapshot, snapshot[Seed].s, sid);
    db := first.sdb;
  }

  /** A site's two requests: one consumer begins the flow, and a consumer
      made afresh for the callback over the same store recovers the session
      from the state the authorization response carries: its redirect URI
      and state are the ones begin stored. */
  method BeginThenCallback(store: Store, config: Config, clientId: Value, clientSecret: string,
                           path: string, fullUrl: string, newSeed: string, sid: string, newNonce: string,
                           idRequest: string, code: string, lookup: GrantLookup, parseToken: string -> TokenReply)
    returns (callback: Result<Callback>, redirectUri: Value, state: Value)
    requires StoreWellTyped(store) && IsStateId(sid)
    requires config.requestMethod == "simple" && HasSubstring(config.responseType, "code")
    ensures callback == Ok(CodeFlow(AuthorizationResponse(code, sid, NoToken), None))
    ensures redirectUri == VStr(path + config.authzPage)
    ensures state == VStr(sid)
  {
    var db := BeginFresh(store, config, clientId, clientSecret, path, fullUrl, newSeed, sid, newNonce, idRequest);
    ghost var snapshot := BeginSnapshot(InitialAttrs(config, clientId, None), path + config.authzPage, newSeed, sid);
    BeginSnapshotSets(InitialAttrs(config, clientId, None), path + config.authzPage, newSeed, sid);
    var second := new Consumer(db, config, clientId, clientSecret, None);
    var aresp := AuthorizationResponse(code, sid, NoToken);
    ghost var before := second.attrs;
    var parse: string -> AuthzReply := q => AuthzOk(aresp);
    var query := "code=" + code + "&state=" + sid;
    assert parse(query) == AuthzOk(aresp);
    assert CanResume(before, db, aresp, lookup) by {
      assert db[sid] == SessionRecord(snapshot) && RedirectUri in snapshot;
    }
    callback := second.ParseAuthz("GET", query, "", parse, parseToken, lookup);
    assert callback.Ok?;
    assert ResumedFrom(before, db, aresp, lookup, second.attrs, second.sdb);
    UpdateFillsOnlyEmpty(before, snapshot, State);
    assert second.attrs[RedirectUri] == snapshot[RedirectUri];
    assert second.attrs[State] == Updated(before, snapshot)[State] == snapshot[State];
    redirectUri := second.attrs[RedirectUri];
    state := second.attrs[State];
  }

  /** A callback whose state no session was stored under is refused with
      UnknownState, and neither the consumer nor the store changes. */
  method ForgedStateIsRejected(store: Store, config: Config, clientId: Value, clientSecret: string,
                               forged: AuthorizationResponse, lookup: GrantLookup, parseToken: string -> TokenReply)
    returns (callback: Result<Callback>, storeAfter: Store, attrsAfter: Record)
    requires StoreWellTyped(store) && forged.state !in store
    requires HasSubstring(config.responseType, "code")
    ensures callback == Err(UnknownState(forged.state))
    ensures storeAfter == store && attrsAfter == InitialAttrs(config, clientId, None)
  {
    var c := new Consumer(store, config, clientId, clientSecret, None);
    callback := c.ParseAuthz("POST", "", "state=" + forged.state, q => AuthzOk(forged), parseToken, lookup);
    storeAfter := c.sdb;
    attrsAfter := c.attrs;
  }

  /** The cookie path of a later request: a new consumer restores the
      session stored under the state begin made, and holds exactly the
      attributes begin backed up. */
  method RestoreAfterBegin(store: Store, config: Config, clientId: Value, clientSecret: string,
                           path: string, fullUrl: string, newSeed: string, sid: string, newNonce: string,
                           idRequest: string)
    returns (restored: Outcome, attrsAfter: Record)
    requires StoreWellTyped(store) && IsStateId(sid)
    requires config.requestMethod == "simple"
    ensures restored == Pass
    ensures attrsAfter == BeginSnapshot(InitialAttrs(config, clientId, None), path + config.authzPage, newSeed, sid)
    ensures attrsAfter[State] == VStr(sid) && attrsAfter[GrantMap] == VGrants(map[sid := FreshGrant])
  {
    var db := BeginFresh(store, config, clientId, clientSecret, path, fullUrl, newSeed, sid, newNonce, idRequest);
    ghost var snapshot := BeginSnapshot(InitialAttrs(config, clientId, None), path + config.authzPage, newSeed, sid);
    BeginSnapshotSets(InitialAttrs(config, clientId, None), path + config.authzPage, newSeed, sid);
    var second := new Consumer(db, config, clientId, clientSecret, None);
    restored := second.Restore(sid);
    RestoreSnapshot(InitialAttrs(config, clientId, None), snapshot);
    attrsAfter := second.attrs;
  }
}
