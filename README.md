# pyoidc relying-party consumer, modelled in Dafny

This project models the session machinery of the OpenID Connect relying
party in `src/oic/oic/consumer.py` (pyoidc, Python 2).

A `Consumer` holds the attributes named in `PARAMS`. It persists them in a
session store `sdb`, keyed by the `state` of each authorization request. A
second key, `seed:<seed>`, points back at that state. The model covers how
these attributes are saved and reloaded:

- `_backup` writes a full snapshot;
- `restore` overwrites attributes from a stored record;
- `update` only fills empty attributes, and merges the grant maps;
- `grant_from_state` finds a grant by state, falling back to the store.

It also models the flow steps as state transitions over the consumer and
its store: `begin`, `parse_authz`, `complete`, `userinfo` and `register`.
Finally it covers the discovery rules: `get_domain`, `issuer_query`,
`_disc_query`, `provider_config` and `discover`.

Files:

- `common.dfy` (module `Common`): `Option`, `Result`, `Outcome`, and the
  errors the consumer raises.
- `url_query.dfy` (module `UrlQuery`): Python 2 `quote_plus` and
  `urlencode`, `str.split` and `join`, and a query decoder that acts as
  their partner.
- `session.dfy` (module `Session`): the `PARAMS` attributes, their values,
  Python truthiness (`IsEmpty`), stored records, and the `Updated` and
  `Restored` functions that specify `update` and `restore`.
- `discovery.dfy` (module `Discovery`): the discovery rules, as functions
  over a responder. A responder is a function from a URI to what the HTTP
  transport and `json.loads` give for it.
- `consumer.dfy` (module `OicConsumer`): the `Consumer` class, its
  specification functions and lemmas, and three scenarios that go across
  requests.

Python truthiness is explicit. `None`, `False`, `""` and an empty dictionary
are empty (`Session.IsEmpty`). The typing the flow relies on is the class
invariant `Valid()`. In the consumer it requires every attribute to be
present, the grant map to be a map, and `state` and `seed` to be strings.
In the store it requires every attribute a stored record holds to be well
typed. A record may lack `grant` or `redirect_uri`, and the operations that
read them raise `KeyError` then.

## Model

| member | source | states |
|---|---|---|
| `Session.ParamsListsEveryAttr` | src/oic/oic/consumer.py:75-78 | PARAMS names each of the fourteen attributes exactly once |
| `Session.IsEmpty` | src/oic/oic/consumer.py:129-131 | Python truthiness, as `not _val` and `if val` test it in update (and `not self.seed` in begin, line 200): a value is empty exactly when it is `None`, `False`, `""` or an empty dictionary |
| `Session.Merged` | src/oic/oic/consumer.py:127-133 | one attribute as update leaves it: well typed; a non-empty local value outside the grant map is kept; an empty stored value changes nothing |
| `Session.Updated` | src/oic/oic/consumer.py:127-133 | update goes through the stored items and touches no attribute outside the consumer's own |
| `Session.UpdateFillsOnlyEmpty` | src/oic/oic/consumer.py:128-130 | outside the grant map, update changes an attribute exactly when the local value is empty and the stored one is not; a non-empty local value is never replaced |
| `Session.UpdateMergesGrants` | src/oic/oic/consumer.py:131-133 | after update the grant map holds the keys of both maps, and on a shared key the local grant wins (`val.update(_val)`) |
| `Session.UpdateKeepsGrants` | src/oic/oic/consumer.py:131-133 | update never drops or changes a grant the consumer holds |
| `Session.UpdatedComplete` | src/oic/oic/consumer.py:127-133 | update keeps every attribute present and well typed |
| `Session.UpdateIdempotent` | src/oic/oic/consumer.py:127-133 | updating twice from the same record gives what updating once gives |
| `Session.Restored` | src/oic/oic/consumer.py:141-142 | restore never drops an attribute, and every stored attribute takes its stored value |
| `Session.RestoreOverwrites` | src/oic/oic/consumer.py:141-142 | restore sets each stored attribute to the stored value and leaves the others unchanged |
| `Session.RestoreSnapshot` | src/oic/oic/consumer.py:135-142 | restoring a full snapshot yields that snapshot, whatever the consumer held |
| `Session.UpdateAgreesWithRestoreOnEmpty` | src/oic/oic/consumer.py:127-142 | on an attribute that is empty locally and non-empty in the record, update and restore agree |
| `OicConsumer.Consumer.constructor` | src/oic/oic/consumer.py:85-118 | a new consumer has the given store and credentials, empty seed, nonce and request file name, endpoints from server_info when given, and no registration expiry |
| `OicConsumer.InitialAttrs` | src/oic/oic/consumer.py:94-117 | the initial attributes are complete, with empty seed and state and an empty grant map |
| `OicConsumer.Consumer.Update` | src/oic/oic/consumer.py:120-133 | the loop over the stored record's items, in any order, ends with exactly `Updated` of the old attributes; a missing state is a KeyError and a seed pointer has no items, and both leave the consumer unchanged |
| `OicConsumer.Consumer.Restore` | src/oic/oic/consumer.py:135-142 | the loop ends with exactly `Restored` of the old attributes, with the same errors as update |
| `OicConsumer.Consumer.GrantFromState` | src/oic/oic/consumer.py:144-159 | the base class's own lookup wins. Otherwise it returns a stored grant whose state matches and caches it under its key, or None exactly when no stored grant matches (or nothing is stored under the state). A pointer entry is a TypeError. |
| `OicConsumer.Consumer.Dictionary` | src/oic/oic/consumer.py:161-162 | the snapshot has exactly the PARAMS keys, each with the consumer's value |
| `OicConsumer.Consumer.Backup` | src/oic/oic/consumer.py:164-170 | the store afterwards maps sid to the snapshot, and nothing else changes |
| `OicConsumer.BeginSnapshot` | src/oic/oic/consumer.py:196-212 | the snapshot begin takes still holds every attribute, well typed |
| `OicConsumer.BeginSnapshotSets` | src/oic/oic/consumer.py:196-212 | the snapshot holds the redirect URI and the state sid. A non-empty seed is kept and an empty one is replaced by the drawn seed. sid gets a fresh grant, every other grant is kept, and no other attribute changes. |
| `OicConsumer.BeginSnapshotHasSeed` | src/oic/oic/consumer.py:196-212 | whether the seed was kept or drawn, the snapshot begin stores carries a non-empty seed |
| `OicConsumer.SeedPointerResolves` | src/oic/oic/consumer.py:212-213 | after begin's two writes, `seed:<seed>` points to sid and sid holds the snapshot; a pointer key never overwrites a state (an MD5 hex digest) |
| `OicConsumer.SeedKeyIsNotAStateId` | src/oic/oic/consumer.py:34-45 | a `seed:` key is never a stateID digest |
| `OicConsumer.BegunAttrs` | src/oic/oic/consumer.py:212-217 | the nonce is drawn after the snapshot is taken, so the stored record carries the previous nonce |
| `OicConsumer.BegunStore` | src/oic/oic/consumer.py:212-213 | begin's two store writes keep the store well typed |
| `OicConsumer.Consumer.StartSession` | src/oic/oic/consumer.py:196-217 | begin up to the nonce leaves exactly `BegunAttrs` and `BegunStore` |
| `OicConsumer.Consumer.Begin` | src/oic/oic/consumer.py:183-251 | per request mode: "parameter" embeds the signed request, "simple" does not, and any other mode writes it to the first free file under temp_dir, records `"/" + path` and backs up again (or fails when no drawn name is free); empty scope and response type default to the configuration |
| `OicConsumer.PathJoin` | src/oic/oic/consumer.py:236-238 | `os.path.join`: an absolute name replaces the directory; any other name is joined after the directory, which stays as prefix |
| `OicConsumer.PathJoinKeepsBoth` | src/oic/oic/consumer.py:236-238 | a drawn name joined to temp_dir keeps the directory as prefix and the name as suffix |
| `OicConsumer.FirstFreePath` | src/oic/oic/consumer.py:236-238 | a path the retry loop chooses does not exist yet |
| `OicConsumer.FirstFreePathIsFirstFree` | src/oic/oic/consumer.py:236-238 | the retry loop's choice is free and comes from the first draw whose path is free; there is none exactly when every drawn path exists |
| `OicConsumer.FreeFileName` | src/oic/oic/consumer.py:236-238 | the retry loop returns `FirstFreePath` of the draws |
| `OicConsumer.OpenAndWrite` | src/oic/oic/consumer.py:239-241 | open followed by write succeeds exactly in write mode |
| `OicConsumer.RequestFileAsWrittenFails` | src/oic/oic/consumer.py:237-241 | `open(filename)` on the free path the loop found always raises IOError; opened for writing it succeeds |
| `OicConsumer.AddToken` | src/oic/oic/consumer.py:178 | adding a token keeps the grant's state and earlier tokens, and appends the new token last |
| `OicConsumer.CanResume` | src/oic/oic/consumer.py:293-307 | a callback can resume exactly when its state names a stored session that holds a redirect URI, and a token it carries has a grant to go to: `grant_from_state` finds one in the updated grant map or in the stored record |
| `OicConsumer.ResumedFrom` | src/oic/oic/consumer.py:293-307 | a resumed session is backed up under its state, so the store keeps its keys and the state holds the new attributes |
| `OicConsumer.Consumer.AttachToken` | src/oic/oic/consumer.py:172-180 | the token is added (`AddToken`) to the grant `grant_from_state` finds: the one the base lookup names, or else a grant of the stored record whose state matches, copied in. No other grant or attribute changes. It succeeds exactly when the base lookup names a grant or the stored record holds one for the state; with no grant (`None.add_token`) it fails and the consumer is unchanged. |
| `OicConsumer.Consumer.ResumeSession` | src/oic/oic/consumer.py:293-310 | it succeeds exactly when `CanResume` holds, and success is `ResumedFrom`: attributes updated from the record, the record's redirect URI, the token added to the state's grant as `grant_from_state` finds it, and the session backed up under the state. An unknown state raises UnknownState and changes nothing. A failure after the state is found is `ResumeFailureLeaves`: a pointer entry is NotASession and changes nothing; otherwise the attributes are as update left them, with the record's redirect URI when it holds one, and the access token is unchanged. No failure writes to the store. |
| `OicConsumer.Consumer.ParseAuthz` | src/oic/oic/consumer.py:254-319 | a method other than GET or POST is a bad request and changes nothing. In the code flow a provider error is AuthzError and an unknown state UnknownState; otherwise it succeeds exactly when `CanResume` holds, and then resumes the session (`ResumedFrom`) and takes a carried token as its access token. A failure after the state is found leaves what `ResumeSession` leaves (`ResumeFailureLeaves`): a pointer entry is NotASession and changes nothing; otherwise the attributes are as update left them, with the record's redirect URI when it holds one, and the access token is unchanged. In the implicit flow nothing changes and a provider error is TokenError. No failure writes to the store. |
| `OicConsumer.ChooseClientAuth` | src/oic/oic/consumer.py:326-339 | basic auth whenever a password is configured, even with a client secret; otherwise request-body auth exactly when there is a client secret; otherwise "Nothing to authenticate with" |
| `OicConsumer.ChooseClientAuthAsWritten` | src/oic/oic/consumer.py:326-339 | as written: the same choice of method, but request-body auth sends the configured secret, not the one the guard tested |
| `OicConsumer.ClientAuthAsWrittenSendsConfigSecret` | src/oic/oic/consumer.py:331-335 | as written, the secret sent is the configured one, which differs from the secret the guard tested whenever the two differ |
| `OicConsumer.Consumer.Complete` | src/oic/oic/consumer.py:321-349 | the client authentication is `ChooseClientAuth`'s choice, so request-body auth sends the secret the guard tested (the corrected behaviour). With no way to authenticate it fails before any request and store write. A token error changes nothing. Success backs the session up under the state. |
| `OicConsumer.Consumer.Userinfo` | src/oic/oic/consumer.py:355-365 | an error response is TokenError and changes nothing; otherwise the claims are stored and the session backed up |
| `OicConsumer.BuildRegistrationRequest` | src/oic/oic/consumer.py:438-448 | the request has the type; on client_update it carries the consumer's own client id and secret and nothing else under those names; every other entry is a recognised keyword argument, and every recognised non-reserved keyword argument is in it |
| `OicConsumer.Consumer.Register` | src/oic/oic/consumer.py:437-463 | the client id, secret and expiry change only on a 200 answer that decodes, and then to the answer's values; any other answer leaves them unchanged; the request carries the type; on client_update it carries the old credentials, and otherwise no credentials; it carries every recognised non-reserved keyword argument and nothing else |
| `OicConsumer.BeginFresh` | src/oic/oic/consumer.py:183-213 | after a fresh consumer begins, the store holds begin's snapshot under the new state |
| `OicConsumer.BeginThenCallback` | src/oic/oic/consumer.py:293-298 | a new consumer handling the callback over the same store recovers the redirect URI and the state that begin stored |
| `OicConsumer.ForgedStateIsRejected` | src/oic/oic/consumer.py:293-296 | a callback whose state was never stored raises UnknownState, and neither the consumer nor the store changes |
| `OicConsumer.RestoreAfterBegin` | src/oic/oic/consumer.py:135-142 | restoring, in a new consumer, the state begin made gives back exactly begin's snapshot |
| `UrlQuery.QuotePlus` | src/oic/oic/consumer.py:382 | quote_plus writes only always-safe characters, '+' and '%', so never '&', '=', '?' or '#' |
| `UrlQuery.QuotePlusAppend` | src/oic/oic/consumer.py:382 | quote_plus works octet by octet and distributes over concatenation |
| `UrlQuery.QuotePlusSafe` | src/oic/oic/consumer.py:382 | quote_plus leaves a string of always-safe characters unchanged |
| `UrlQuery.UrlEncode` | src/oic/oic/consumer.py:382 | urlencode of byte-string pairs holds no '?' and no '#', so it cannot end the query it is put in |
| `UrlQuery.DecodeEncodedItem` | src/oic/oic/consumer.py:382 | one item `quote_plus(k)=quote_plus(v)` reads back as the pair (k, v) |
| `UrlQuery.UrlEncodeTwo` | src/oic/oic/consumer.py:382 | urlencode of two pairs is their two quoted items joined by '&' |
| `UrlQuery.UnquoteQuote` | src/oic/oic/consumer.py:382 | decoding undoes quote_plus on every byte string |
| `UrlQuery.Split` | src/oic/oic/consumer.py:418 | `str.split` yields at least one part and no part holds the separator |
| `UrlQuery.HasSubstring` | src/oic/oic/consumer.py:283 | `"code" in response_type` is Python's substring test on strings; it can hold only when the needle is no longer than the string |
| `UrlQuery.HasSubstringAt` | src/oic/oic/consumer.py:283 | `t in s` holds exactly when t occurs in s starting at some position |
| `UrlQuery.SplitJoin` | src/oic/oic/consumer.py:418 | splitting a join of separator-free parts gives the parts back |
| `UrlQuery.DecodeUrlEncode` | src/oic/oic/consumer.py:382 | reading back what urlencode wrote gives exactly the pairs, in order |
| `UrlQuery.UrlWithQuery` | src/oic/oic/consumer.py:382 | a URL made of a '?'-free base and an encoded query splits back into both |
| `Discovery.IssuerUrlIsOctets` | src/oic/oic/consumer.py:32 | ISSUER_URL is a byte string quote_plus accepts |
| `Discovery.IssuerQuery` | src/oic/oic/consumer.py:376-382 | the query URL starts with the location followed by '?' |
| `Discovery.IssuerQueryIsUrlEncode` | src/oic/oic/consumer.py:376-382 | the query written out item by item is exactly the location, '?' and urlencode of `service` = ISSUER_URL and `principal` = the principal |
| `Discovery.IssuerQueryDecodes` | src/oic/oic/consumer.py:376-382 | the issuer query reads back as the location, then `service` = ISSUER_URL and `principal` = the principal |
| `Discovery.GetDomain` | src/oic/oic/consumer.py:416-424 | only the mail branch can fail, and then by the unpacking; a mail domain holds no '@'; any other idtype gives "" |
| `Discovery.GetDomainMail` | src/oic/oic/consumer.py:417-418 | a mail principal yields a domain exactly when it has one '@', the domain being the text after it; otherwise the unpacking raises |
| `Discovery.GetDomainUrl` | src/oic/oic/consumer.py:419-420 | the corrected url branch yields the network location of an http URL |
| `Discovery.GetDomainAsWritten` | src/oic/oic/consumer.py:416-424 | as written, the url branch raises on every principal; the other branches are as corrected |
| `Discovery.GetDomainUrlAsWrittenLosesHost` | src/oic/oic/consumer.py:419-420 | on an http URL whose host the corrected branch returns, the branch as written raises |
| `Discovery.UpToNetlocEnd` | src/oic/oic/consumer.py:420 | the network location is the longest prefix of the text after `//` without '/', '?' or '#' |
| `Discovery.AfterScheme` | src/oic/oic/consumer.py:420 | urlparse's scheme split: the URL is either kept whole or cut just after its first ':', the scheme before it being non-empty |
| `Discovery.Netloc` | src/oic/oic/consumer.py:420 | the network location urlparse gives never holds '/', '?' or '#' |
| `Discovery.NetlocOfHttp` | src/oic/oic/consumer.py:420 | the network location of `http://` + host + a tail starting with '/', '?' or '#' (or empty) is the host |
| `Discovery.Step` | src/oic/oic/consumer.py:385-404 | a document one request returns as the answer never asks for a redirect |
| `Discovery.RedirectLocation` | src/oic/oic/consumer.py:398 | a redirect location is found only in a JSON object that holds `SWD_service_redirect` |
| `Discovery.Contains` | src/oic/oic/consumer.py:396 | Python's `in` on decoded JSON: on an object it tests the keys, on an array its elements, on a string its substrings; on any other value it raises (TypeError) |
| `Discovery.Get` | src/oic/oic/consumer.py:398 | `j[key]` succeeds exactly on an object holding the key and gives its value; a missing key is KeyError and a non-object a type error |
| `Discovery.First` | src/oic/oic/consumer.py:433 | `j[0]` succeeds exactly on a non-empty array or string, giving the first element or the first character; an empty one is IndexError |
| `Discovery.DiscQuery` | src/oic/oic/consumer.py:384-404 | a document discovery returns never holds `SWD_service_redirect` |
| `Discovery.Continue` | src/oic/oic/consumer.py:394-402 | after one request, discovery returns the answer or queries the next URI; a document it returns never asks for a redirect |
| `Discovery.ContinueHopsMonotone` | src/oic/oic/consumer.py:384-404 | after any one request, a larger hop bound changes no answer a smaller bound reached |
| `Discovery.DiscQueryHopsMonotone` | src/oic/oic/consumer.py:384-404 | a larger hop bound changes no answer that a smaller bound reached |
| `Discovery.HttpFallsBackToHttpsOnce` | src/oic/oic/consumer.py:386-392 | a host not found over `http://` is asked again as `"https://" + uri[7:]`; a miss there is ServerNotFound |
| `Discovery.NonHttpHostNotFoundFails` | src/oic/oic/consumer.py:388-392 | a host not found on a URI that is not `http://` raises ServerNotFound at once |
| `Discovery.RedirectIsFollowed` | src/oic/oic/consumer.py:394-400 | a redirecting answer is replaced by what `issuer_query(locations[0], principal)` answers |
| `Discovery.NonOkStatusFails` | src/oic/oic/consumer.py:403-404 | any status other than 200 ends discovery with that status |
| `Discovery.ProviderConfig` | src/oic/oic/consumer.py:406-414 | the configuration is fetched from the issuer's openid-configuration URL, and succeeds exactly on a 200 answer holding a JSON object, which is the result |
| `Discovery.ConfigFromDocument` | src/oic/oic/consumer.py:433 | the configuration is fetched from the first of the document's "locations"; without "locations" it fails |
| `Discovery.Discover` | src/oic/oic/consumer.py:426-435 | a domain error is returned as is, and so is an error of the discovery query; on success the discovery query answered, and the result is the configuration exactly when it could be fetched, else the document's "location" |
| `Discovery.DiscoverFallsBack` | src/oic/oic/consumer.py:426-435 | discover returns the provider configuration when it can be fetched; otherwise it falls back to the document's "location" and fails only when there is none |
| `Discovery.MailDiscoveryQuery` | src/oic/oic/consumer.py:426-428 | for `local@domain` the first query goes to the domain's simple-web-discovery URL and carries ISSUER_URL and the principal |

## Left out

- `stateID` and `rndstr` are inputs: `sid`, `newSeed`, `newNonce` and the file-name draws. `IsStateId` and `IsRandomString` state what they return. The MD5 hash, the clock and `random` are not modelled.
- `factory`, cookie parsing through `http_util`, logging, the `print` in `register`, and the WSGI `environ`/`start_response` plumbing. The site path, the full URL and the request method are plain parameters.
- The message layer is not modelled: `construct_AuthorizationRequest`, `parse_response`, `construct_AccessTokenRequest`, `do_user_info_request`, `get_urlencoded`, `to_urlencoded`, `from_json` and the `c_attributes` copy. The replies are parameters (`parseAuthz`, `parseToken`, `exchange`, the user-info reply, `post`). So begin returns the authorization endpoint and the request arguments, not the encoded location. Whatever those calls do to the grant map themselves is not modelled either.
- `Client.grant_from_state` and `Client.__init__` are not part of this model. The base lookup is the parameter `lookup` of type `GrantLookup`, which can only return a key the grant map holds. A new consumer's attributes are `InitialAttrs`: `state` starts as `""` rather than `None`; both are empty.
- Python shares dictionaries; the model copies values. In particular, after `update` merges grants, `self.grant` is the stored record's dictionary, and `val.update(_val)` has also changed the record in the store. Likewise, `add_token` mutates a grant that the store may share. The model updates only the consumer's grant map. With a dictionary store this matters to `grant_from_state`'s fallback (src/oic/oic/consumer.py:154-157): after `update` has taken in a non-empty stored grant map, the record's `"grant"` is the consumer's own merged map, so the fallback also sees the consumer's grants. `OicConsumer.CanResume` and `OicConsumer.HasStoredGrant` read the stored map as it was before the update, so the model can report `NoGrant` where the source's fallback finds a grant that the consumer held and the base lookup did not return.
- The store's contents are assumed well typed (`StoreWellTyped`): every attribute a stored record holds has the type `_backup` writes for it. A record may lack an attribute.
- `Discovery.DiscQuery`: the recursion of `_disc_query` has no bound in the source. The model counts every request, including the https retry, against `hops`, and reaching the bound is the error `HopLimit`.
- `OicConsumer.Consumer.Begin`: the `os.path.exists` retry loop takes its names from a finite sequence of draws. When every drawn path exists, the model reports `RetriesExhausted`, where the source would keep drawing. The file contents written are returned, not kept in a modelled file system.
- `Discovery.Netloc`: `urlparse` is modelled only as far as the scheme and the network location: the scheme rule for `http` and for other schemes, and the text after `//` up to '/', '?' or '#'. Python 2.7's `urlsplit` also raises `ValueError("Invalid IPv6 URL")` when the network location has a '[' without ']' or a ']' without '['; that check is not modelled, and `Netloc` returns the text as it is.
- `Discovery.GetDomain`: because of the IPv6 check above, the corrected url branch can raise in the source on a principal such as `http://[::1/x`, while the model says only the mail branch can fail.
- `UrlQuery.DecodeUrlEncode`: `urlencode` takes a Python 2 dictionary, whose order is unspecified. The model encodes the pairs in the order `service`, `principal`, and states the round trip for that order.
- Principals are Python 2 byte strings (`UrlQuery.IsOctets`). A unicode principal with a non-ASCII character would make `str(v)` in `urlencode` raise UnicodeEncodeError, and that path is not modelled.
- JSON is decoded into the `Json` datatype. Numbers are integers and floating point is not modelled. `Discovery.First` takes the first character of a JSON string as a one-character string.
- The `idt` slot that `parse_authz` returns is always `None` in the source and is omitted from `Callback`.
- The empty placeholders `refresh_token`, `refresh_session`, `check_session` and `end_session` do nothing, so they have no model.

## Findings

| source | as written | input that shows it | evidently intended | confidence | as-written member | corrected member |
|---|---|---|---|---|---|---|
| src/oic/oic/consumer.py:236-241 | the request file is opened with `open(filename)`, which opens it for reading, on a path the loop has just checked does not exist; in read mode the write would fail even if the path existed | `config["request_method"] == "file"`, with any free file name | open the file for writing (`open(filename, "w")`) so that the signed request is written | high; not executed | `OicConsumer.RequestFileAsWrittenFails` | `OicConsumer.Consumer.Begin` |
| src/oic/oic/consumer.py:420 | `domain, user = urlparse.urlparse(principal)[1:2]` unpacks a one-item slice into two names | `get_domain("http://example.com/", "url")` | the network location `urlparse(principal)[1]` | high; not executed | `Discovery.GetDomainUrlAsWrittenLosesHost` | `Discovery.GetDomainUrl` |
| src/oic/oic/consumer.py:331-335 | the guard tests `self.client_secret` but the request sends `config["client_secret"]` | a consumer whose `client_secret` came from `register` while the configuration holds a different secret (or none) | send the secret the guard tested | medium; not executed | `OicConsumer.ClientAuthAsWrittenSendsConfigSecret` | `OicConsumer.ChooseClientAuth` |
