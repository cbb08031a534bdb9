/** The attributes a consumer persists (PARAMS in src/oic/oic/consumer.py),
    their values with Python's notion of emptiness, the records the session
    store holds, and the two ways a stored record is folded back into a
    consumer: `update`, which only fills empty attributes and merges grant
    maps, and `restore`, which overwrites. */
module Session {
  import opened Common

  /** An access-token response as the message layer delivers it. */
  datatype AccessTokenResponse = AccessTokenResponse(accessToken: string, tokenType: string, extra: map<string, string>)

  /** The per-state token envelope of oic.oauth2; `state` is None for a
      freshly made one, and `tokens` lists the responses added to it. */
  datatype Grant = Grant(state: Option<string>, tokens: seq<AccessTokenResponse>)

  const FreshGrant: Grant := Grant(None, [])

  /** The values the PARAMS attributes take. */
  datatype Value =
    | VNone
    | VBool(b: bool)
    | VStr(s: string)
    | VGrants(grants: map<string, Grant>)
    | VClaims(claims: map<string, string>)

  /** Python's `not v`: None, False, "" and empty dictionaries. */
  predicate IsEmpty(v: Value)
    ensures IsEmpty(v) <==> v == VNone || v == VBool(false) || v == VStr("") || v == VGrants(map[]) || v == VClaims(map[])
  {
    match v
    case VNone => true
    case VBool(b) => !b
    case VStr(s) => s == ""
    case VGrants(g) => g == map[]
    case VClaims(c) => c == map[]
  }

  /** The names in PARAMS. */
  datatype Attr =
    | ClientId | State | GrantMap | RedirectUri
    | AuthorizationEndpoint | TokenEndpoint | TokenRevocationEndpoint | UserInfoEndpoint
    | Seed | Debug | Nonce | RequestFilename | UserInfo | IdToken

  const Params: seq<Attr> := [ClientId, State, GrantMap, RedirectUri,
                              AuthorizationEndpoint, TokenEndpoint,
                              TokenRevocationEndpoint, UserInfoEndpoint, Seed, Debug,
                              Nonce, RequestFilename, UserInfo, IdToken]

  /** PARAMS names every attribute, each once. */
  lemma ParamsListsEveryAttr(a: Attr)
    ensures a in Params
    ensures forall i, j :: 0 <= i < j < |Params| ==> Params[i] != Params[j]
  {
    match a
    case ClientId => assert Params[0] == a;
    case State => assert Params[1] == a;
    case GrantMap => assert Params[2] == a;
    case RedirectUri => assert Params[3] == a;
    case AuthorizationEndpoint => assert Params[4] == a;
    case TokenEndpoint => assert Params[5] == a;
    case TokenRevocationEndpoint => assert Params[6] == a;
    case UserInfoEndpoint => assert Params[7] == a;
    case Seed => assert Params[8] == a;
    case Debug => assert Params[9] == a;
    case Nonce => assert Params[10] == a;
    case RequestFilename => assert Params[11] == a;
    case UserInfo => assert Params[12] == a;
    case IdToken => assert Params[13] == a;
  }

  /** A set of attribute values, as a consumer holds them or a record stores them. */
  type Record = map<Attr, Value>

  /** The attributes the flow relies on the type of: the grant map, and the
      state and seed that become store keys. */
  predicate WellTyped(a: Attr, v: Value) {
    match a
    case GrantMap => v.VGrants?
    case State => v.VStr?
    case Seed => v.VStr?
    case _ => true
  }

  predicate RecordWellTyped(r: Record) {
    forall a :: a in r ==> WellTyped(a, r[a])
  }

  /** Every PARAMS attribute present and well typed. */
  predicate CompleteRecord(r: Record) {
    (forall a: Attr :: a in r) && RecordWellTyped(r)
  }

  /** A store entry: a session record under a state, or, under `seed:<seed>`,
      the bare state string. */
  datatype Entry = SessionRecord(rec: Record) | Pointer(sid: string)

  type Store = map<string, Entry>

  predicate StoreWellTyped(db: Store) {
    forall k :: k in db && db[k].SessionRecord? ==> RecordWellTyped(db[k].rec)
  }

  /** The key of the pointer entry for a seed. */
  function SeedKey(seed: string): string {
    "seed:" + seed
  }

  /** What update makes of one stored attribute. */
  function Merged(a: Attr, local: Value, stored: Value): (r: Value)
    requires WellTyped(a, local) && WellTyped(a, stored)
    ensures WellTyped(a, r)
    ensures a != GrantMap && !IsEmpty(local) ==> r == local
    ensures IsEmpty(stored) ==> r == local
  {
    if IsEmpty(local) && !IsEmpty(stored) then stored
    else if a == GrantMap && !IsEmpty(stored) then VGrants(stored.grants + local.grants)
    else local
  }

  /** The attributes after update has gone through every item of the record. */
  function Updated(local: Record, stored: Record): (r: Record)
    requires RecordWellTyped(local) && RecordWellTyped(stored)
    ensures r.Keys == local.Keys
  {
    map a | a in local :: if a in stored then Merged(a, local[a], stored[a]) else local[a]
  }

  /** The attributes after restore: every stored attribute overwrites. */
  function Restored(local: Record, stored: Record): (r: Record)
    ensures r.Keys == local.Keys + stored.Keys
    ensures forall a :: a in stored ==> r[a] == stored[a]
  {
    local + stored
  }

  /** Update keeps a consumer complete. */
  lemma UpdatedComplete(local: Record, stored: Record)
    requires CompleteRecord(local) && RecordWellTyped(stored)
    ensures CompleteRecord(Updated(local, stored))
  {
  }

  /** Outside the grant map, update writes an attribute exactly when the
      local value is empty and the stored one is not; a non-empty local
      value is never replaced. */
  lemma UpdateFillsOnlyEmpty(local: Record, stored: Record, a: Attr)
    requires RecordWellTyped(local) && RecordWellTyped(stored)
    requires a in local && a != GrantMap
    ensures Updated(local, stored)[a] != local[a] <==>
              a in stored && IsEmpty(local[a]) && !IsEmpty(stored[a]) && stored[a] != local[a]
    ensures a in stored && IsEmpty(local[a]) && !IsEmpty(stored[a]) ==> Updated(local, stored)[a] == stored[a]
    ensures !IsEmpty(local[a]) ==> Updated(local, stored)[a] == local[a]
  {
  }

  /** After update the grant map holds the keys of both maps, and on a key
      present in both the local grant wins. */
  lemma UpdateMergesGrants(local: Record, stored: Record)
    requires CompleteRecord(local) && RecordWellTyped(stored) && GrantMap in stored
    ensures var g := Updated(local, stored)[GrantMap].grants;
            var mine, theirs := local[GrantMap].grants, stored[GrantMap].grants;
            && g.Keys == mine.Keys + theirs.Keys
            && (forall k :: k in mine ==> g[k] == mine[k])
            && (forall k :: k in theirs && k !in mine ==> g[k] == theirs[k])
  {
  }

  /** Update never drops or changes a grant the consumer already holds. */
  lemma UpdateKeepsGrants(local: Record, stored: Record, k: string)
    requires CompleteRecord(local) && RecordWellTyped(stored)
    requires k in local[GrantMap].grants
    ensures k in Updated(local, stored)[GrantMap].grants
    ensures Updated(local, stored)[GrantMap].grants[k] == local[GrantMap].grants[k]
  {
  }

  /** Updating twice from the same record changes nothing the first did not. */
  lemma UpdateIdempotent(local: Record, stored: Record)
    requires CompleteRecord(local) && RecordWellTyped(stored)
    ensures RecordWellTyped(Updated(local, stored))
    ensures Updated(Updated(local, stored), stored) == Updated(local, stored)
  {
    var once := Updated(local, stored);
    var twice := Updated(once, stored);
    forall a | a in once
      ensures twice[a] == once[a]
    {
      if a in stored && a == GrantMap && !IsEmpty(stored[a]) {
        var s := stored[a].grants;
        assert once[a].grants == s || once[a].grants == s + local[a].grants;
        assert s + once[a].grants == once[a].grants;
      }
    }
  }

  /** Restore sets each stored attribute to its stored value and leaves the others. */
  lemma RestoreOverwrites(local: Record, stored: Record, a: Attr)
    requires a in local
    ensures a in stored ==> Restored(local, stored)[a] == stored[a]
    ensures a !in stored ==> Restored(local, stored)[a] == local[a]
  {
  }

  /** Restoring a complete snapshot gives exactly that snapshot, whatever the
      consumer held before. */
  lemma RestoreSnapshot(local: Record, snapshot: Record)
    requires CompleteRecord(local) && CompleteRecord(snapshot)
    ensures Restored(local, snapshot) == snapshot
  {
  }

  /** Update and restore agree on every attribute that was empty locally and
      is not empty in the record. */
  lemma UpdateAgreesWithRestoreOnEmpty(local: Record, stored: Record, a: Attr)
    requires RecordWellTyped(local) && RecordWellTyped(stored)
    requires a in local && a in stored && IsEmpty(local[a]) && !IsEmpty(stored[a])
    ensures Updated(local, stored)[a] == Restored(local, stored)[a]
  {
  }
}
