# A verified model of mock-idp

mock-idp is a mock identity provider: it keeps signing keys per issuer, issues and introspects
tokens, rotates keys, injects faults, and, in its hosted mode, does all this per organisation on top
of Postgres. This project models its stateful and algorithmic parts in Dafny and proves what they
keep over whole runs. `dafny verify dfyconfig.toml` checks everything.

## How it is modelled

Signatures and key generation are ideal. The generated keys form a ledger and the identity of a key
is its position there, so no two generated keys are the same. A token is `Signed(key identity, kid,
claims)`, `Unsigned(claims)` or `Mac(claims)`. The one assumption about the JOSE library is that
decoding picks the first key of the given list with the token's kid and succeeds exactly when the
token was signed by that key; unsigned and HMAC tokens are refused.

What the program updates in place is a class here (key sets, the key store, the hosted resolver, the
limiter, the audit table, the stores, the exported configuration, the fault map, claims
dictionaries), and its loops are loops. Each method is tied to a function on values, and the theorems
over runs are proved about these functions.

| module | what it is about |
|---|---|
| `Text`, `Keys`, `Tokens`, `Stores` | kids as strings, key sets, signing and verifying, the key store as a value |
| `Lifecycle`, `Introspection`, `MergedKeys` | runs of the flat server: token lifetime, introspection, kid lookup over all issuers |
| `KeyObjects`, `Servers`, `Chaos` | the same as mutable objects; every server operation is a step of `Lifecycle`, and every history of them a run |
| `OrgKeys`, `OrgKeyObjects`, `OrgLoads` | the hosted resolver: sequential runs with restarts, the object, and overlapping loads split at their awaits |
| `RateLimit`, `Audit` | the sliding-window limiter; the audit log and its cursor paging |
| `Models`, `IdentityStore`, `AsConfigured`, `Config`, `Roles` | configuration as flat dictionaries refreshed in place, alias index, reloads; what is loaded, entry by entry; roles and audiences |
| `Overrides`, `Base64Url` | form overrides, omitted claims, comma lists; unpadded base64url and the debug decoder |
| `Grants`, `Handlers`, `HostedHandler` | the token endpoint: what each grant means, and both handlers step by step |
| `Issuance`, `Delegation` | who gets a token, agreement of token, reply and event; delegation chains, hosted against shared |

## Where the code does not do what it is meant to

Each of these is proved together with the exact condition under which the intended property holds,
and with an input that shows it failing.

- The lookup by kid over all issuers' keys (`/debug/decode`) can pick the wrong key, because issuer
  `x` names its EC key like the first RSA key of issuer `x-ec`. It is right for every token of every
  issuer if and only if no known `x` has a never-rotated `x-ec` beside it
  (`MergedKeys.MergedSelectionExactlyWhen`); two first uses are enough to get there
  (`MergedKeys.EcPairIsReached`).
- Two overlapping first loads of a hosted issuer can leave different key sets in cache and table
  (`OrgLoads.OverlappingFirstLoadsDisagree`). Cache, table and all loads keep to one key set from now on
  if and only if the state is settled: its row is stored, and no load that found no row, or works with
  another, is still under way (`OrgLoads.OneKeySetExactlyWhenSettled`).
- A hosted issuer goes on naming its keys after its organisation and slug if and only if the process
  never restarts (`OrgKeys.LabelKeptExactlyWithoutRestart`, `OrgKeys.RotationNamesKey`); the six kids
  stay distinct all the same.
- The Postgres store promises that a failing reload preserves the current state
  (`src/mock_idp/store/pg_store.py:129-130`), but sets the scalars and empties and refills
  `issuer_modes` before it builds the records. The identity dictionaries are always preserved; the whole
  state is if and only if what was put in from the app_config row before the failure is what was there
  (`IdentityStore.FailedPgReloadKeepsStateExactlyWhen`). A stored `null` loses all modes
  (`IdentityStore.NullModesAreLost`).
- A service principal is treated alike under its config key and its client id if and only if the
  config key is not empty (`Roles.AliasTreatedAlikeExactlyWhen`, which builds the audience that tells
  them apart).
- A client that may have a token gets no reply, after its event was emitted, if it omits `exp` or
  overrides it with text that is no number: `Issuance.GrantedExactlyWhen` has the condition on the
  request, `Issuance.OmittingExpFails` and `Issuance.TextExpFails` the requests.
- The limiter prunes, so after a clock that went back it can let a call through that the full history
  would refuse. After every run up to a clock reading it decides like the full history if and only if
  the call's own reading is not earlier (`RateLimit.DecidesAlikeExactlyWhen`,
  `RateLimit.BackwardClockIsForgotten`).

The `act` claim does not nest, unlike the example in section 4.1 of RFC 8693: only the last client is
named (`Delegation.ActorIsLastClient`).

## Model

| member | source | states |
|---|---|---|
| Lifecycle.RunKeepsInv | src/mock_idp/keys.py:52-111 | after any events, every key in use is the one generated for its issuer and role, the dictionary and its order agree, and no generated key is forgotten |
| Lifecycle.RunEvolves | src/mock_idp/keys.py:33-46 | over any run an issuer's set keeps all keys but the signing key; the signing key is replaced exactly if the issuer was rotated, alone or with all, and then by one generated during the run |
| Lifecycle.SignedTokenLifetime | src/mock_idp/tokens.py:226-239 | a token signed with an issuer's current key verifies there exactly until its next rotation (ES256: for ever) and never against another issuer's JWKS |
| Lifecycle.FaultFreeTokenLifetime | src/mock_idp/token_handler.py:69-88 | the same for every token issued while no fault corrupts tokens, with exactly the claims asked for |
| Lifecycle.ExpiredFaultTokenLifetime | src/mock_idp/token_handler.py:85-88 | an expired_token fault leaves the signature good, and moves `exp` and nothing else |
| Lifecycle.CorruptTokenNeverVerifies | src/mock_idp/token_handler.py:79-84 | tokens signed with an alternative key, unsigned or MACed, or issued under invalid_signature or invalid_token, verify against no issuer's JWKS, before or after any events |
| Lifecycle.AltKidNeverPublished | src/mock_idp/keys.py:26-35 | no reachable JWKS of any issuer verifies a token with the kid of any issuer's alternative key |
| Stores.PublishedKeys | src/mock_idp/keys.py:33-35 | the JWKS lists signing, EC signing and two decoy keys in this order, each generated for the issuer in this role, with four distinct kids |
| Stores.VerifiesAtIssuer | src/mock_idp/tokens.py:232-239 | a token verifies at an issuer if and only if it carries identity and kid of one of the four published keys; it was then generated for this issuer |
| Stores.VerifiesInStore | src/mock_idp/keys.py:56-63 | lazy creation is invisible to verification: an unknown issuer verifies no token made so far |
| Tokens.VerifiesExactlyWhenKeyListed | src/mock_idp/tokens.py:232-239 | when no kid repeats, a token verifies if and only if its own key is in the list |
| Keys.KidsCoincideExactlyWhen | src/mock_idp/keys.py:23-40 | two kids are the same string if and only if issuer and role are the same, or one issuer is the other with "-ec" appended and the roles are (first signing, EC signing) or (alternative, EC alternative) |
| Text.DecimalReadsBack | src/mock_idp/keys.py:37-39 | a sequence number is printed digit by digit, most significant first, without a leading zero |
| Text.DecimalInjective | src/mock_idp/keys.py:37-39 | two sequence numbers print alike only if they are equal |
| Keys.KidsSpelledOut | src/mock_idp/keys.py:23-40 | the six kids of a new issuer, letter by letter, and those its signing key is rotated to |
| Text.LastDashUnique | src/mock_idp/keys.py:26-31 | a string has at most one reading as head, dash and dash-free tail |
| Introspection.HandleIntrospect | src/mock_idp/token_handler.py:388-427 | the handler's checks and its response loop compute the verdict: 401, 400, inactive, or active with exactly the pass-through claims and azp as client_id |
| Introspection.VerdictExactlyWhen | src/mock_idp/token_handler.py:388-419 | on the claims: 401, 400, the type error, and active exactly if the token verifies, is current, and, for a client app, names it alone or in a list as audience |
| Introspection.ActivePassesOn | src/mock_idp/token_handler.py:381-427 | an active response holds exactly the eighteen listed claims that the token has, with their values, and azp as client_id |
| Introspection.RunVerifiesLess | src/mock_idp/keys.py:37-40 | for a token whose key exists, an issuer's keys verify it after a run only if they did before, with the same claims |
| Introspection.IntrospectionMonotone | src/mock_idp/token_handler.py:388-427 | once reported inactive to a caller, a token is inactive ever after; while active, the response never changes |
| Introspection.ExpiredFaultTokenNeverActive | src/mock_idp/token_handler.py:85-87 | a token issued under expired_token with a negative skew is never reported active by anyone |
| MergedKeys.SharedKidsOfIssuers | src/mock_idp/keys.py:26-40 | published keys of two issuers share a kid only if one slug is the other with "-ec" appended and was never rotated |
| MergedKeys.MergedSelectionRight | src/mock_idp/routers/debug.py:30 | without such a pair, the merged key list gives each issuer's own verdict on every token it accepts |
| MergedKeys.EcPairBreaksSelection | src/mock_idp/keys.py:104-111 | with such a pair, some issuer's valid token fails against the merged list |
| MergedKeys.EcPairIsReached | src/mock_idp/keys.py:56-63 | the first uses of any x and of x-ec lead from the empty store to such a state |
| MergedKeys.MergedSelectionExactlyWhen | src/mock_idp/routers/debug.py:30 | selection over the merged list is right for all issuers and tokens if and only if there is no such pair |
| KeyObjects.KeyGenerator.Generate | src/mock_idp/keys.py:8-13 | every generated key is new: it gets the next position of the ledger, recorded under its issuer and role |
| KeyObjects.IssuerKeys.constructor | src/mock_idp/keys.py:23-31 | a new issuer gets six new keys in the roles and the order of the constructor, number 1 |
| KeyObjects.IssuerKeys.Restore | src/mock_idp/org_registry.py:319-327 | a key set rebuilt from its parts is the stored one under the given label |
| KeyObjects.IssuerKeys.Rotate | src/mock_idp/keys.py:37-40 | the number goes up by one, a new key with the new number replaces the signing key, everything else stays |
| KeyObjects.IssuerKeys.JwksKeys | src/mock_idp/keys.py:33-35 | the published keys in order |
| KeyObjects.KeyStore.Get | src/mock_idp/keys.py:56-63 | a known issuer keeps its object; an unknown one gets a fresh one, last in order |
| KeyObjects.KeyStore.Rotate | src/mock_idp/keys.py:90-92 | rotates one issuer, creating it if unknown; no other key set changes |
| KeyObjects.KeyStore.RotateAll | src/mock_idp/keys.py:93-95 | rotates every known issuer once, in order of first use, and reports all new signing kids and nothing else |
| KeyObjects.RotatingAllReportsEveryKid | src/mock_idp/keys.py:93-95 | the dictionary collected while rotating holds the final signing kid of every known issuer |
| KeyObjects.KeyStore.AllSigningKids | src/mock_idp/keys.py:98-101 | the signing kid of every known issuer |
| KeyObjects.KeyStore.AllJwksKeys | src/mock_idp/keys.py:104-111 | the published keys of all issuers, issuer by issuer in order of first use |
| Servers.Server.IssueToken | src/mock_idp/token_handler.py:69-88 | on the mutable server: the token is the one `Lifecycle` issues, and the state is unchanged but for first use of the issuer |
| Servers.Server.SignWithAlternative | src/mock_idp/token_handler.py:279-283 | signing at the wrong-sig endpoint is the wrong-sig issue of `Lifecycle` |
| Servers.Server.Rotate | src/mock_idp/keys.py:90-92 | is the rotate-one step of `Lifecycle` |
| Servers.Server.RotateAll | src/mock_idp/keys.py:93-95 | is the rotate-every step of `Lifecycle` |
| Servers.Server.InjectFault | src/mock_idp/chaos.py:23-25 | is the set-fault step of `Lifecycle` |
| Servers.Server.RemoveFault | src/mock_idp/chaos.py:28-31 | is the clear-fault step of `Lifecycle`, and tells whether there was a fault |
| Servers.Server.Jwks | src/mock_idp/token_handler.py:350-353 | the published list is the one `Lifecycle` verifies against; the request is a use of the issuer |
| Servers.Server.IntrospectToken | src/mock_idp/token_handler.py:388-427 | on the mutable server: the verdict is that of `Introspection`, and keys change at most by first use |
| Servers.Server.Replay | src/mock_idp/keys.py:52-111 | any history of events performed on the objects leaves the state of the run of `Lifecycle` |
| Chaos.Faults.SetFault | src/mock_idp/chaos.py:23-25 | sets this issuer's fault and no other |
| Chaos.Faults.ClearFault | src/mock_idp/chaos.py:28-31 | removes this issuer's fault and no other, and reports whether there was one |
| Lifecycle.LastFaultEventCounts | src/mock_idp/chaos.py:19-41 | after any run, the fault found for an issuer is what the last event on it left, the fault that was set or none; other issuers' faults do not matter |
| OrgKeys.ApplyKeepsInv | src/mock_idp/org_registry.py:45-88 | every load, rotation and restart keeps cached and stored key material and number in agreement |
| OrgKeys.RunKeepsInv | src/mock_idp/org_registry.py:45-88 | so does every run |
| OrgKeys.RunEvolves | src/mock_idp/org_registry.py:83-88 | the stored number grows by exactly the rotations of this issuer, and nothing but the signing key changes |
| OrgKeys.PublishedOverRun | src/mock_idp/org_registry.py:45-88 | over any run with restarts, the JWKS keeps all entries but the first; it and its first kid change if and only if the issuer was rotated, so a signing kid is never reused |
| OrgKeys.SixKidsDistinct | src/mock_idp/org_registry.py:315-327 | the six kids of a stored issuer stay pairwise distinct, whichever label the signing key was named under |
| OrgKeys.LabelKeptExactlyWithoutRestart | src/mock_idp/org_registry.py:58-61 | over any run an issuer created by this process keeps its creation label if and only if there is no restart, and is served under its bare slug after one |
| OrgKeys.FirstKidsSpelledOut | src/mock_idp/org_registry.py:60-62 | the first signing keys of a hosted issuer are named after organisation and slug |
| OrgKeys.RotationNamesKey | src/mock_idp/keys.py:37-40 | a rotation names the new signing key after the label served before it, with the next number |
| OrgKeyObjects.OrgKeyResolver.LoadOrCreate | src/mock_idp/org_registry.py:45-66 | cached keys, else stored ones, else new ones that are written and cached |
| OrgKeyObjects.OrgKeyResolver.Fetch | src/mock_idp/org_registry.py:51-62 | without a cached entry: rebuilds the stored row, or generates under the creation label and writes it |
| OrgKeyObjects.OrgKeyResolver.Persist | src/mock_idp/org_registry.py:68-81 | inserts or replaces this issuer's row and no other |
| OrgKeyObjects.OrgKeyResolver.Rotate | src/mock_idp/org_registry.py:83-88 | rotates the cached object in place, stores it, and returns its new signing kid |
| OrgKeyObjects.Replay | src/mock_idp/org_registry.py:36-88 | any history of loads, rotations and process restarts on the objects leaves the state of the run of `OrgKeys` |
| OrgLoads.RunKeepsInv | src/mock_idp/org_registry.py:45-66 | with any number of overlapping loads, whatever is cached, stored or handed out was written before |
| OrgLoads.HandedOutWasWritten | src/mock_idp/org_registry.py:47-66 | every key set a load hands out was written to org_jwks |
| OrgLoads.LaterLoadNeverGenerates | src/mock_idp/org_registry.py:47-49 | a load that starts after another one of the issuer has finished never queries, generates or writes |
| OrgLoads.RunKeepsFresh | src/mock_idp/org_registry.py:60-62 | in every reachable state a generated key set is neither stored yet nor generated by two loads |
| OrgLoads.SettledServesOneKeySet | src/mock_idp/org_registry.py:45-66 | from a settled state on, after any events, table, cache and every load that finished meanwhile have its one key set |
| OrgLoads.OneKeySetExactlyWhenSettled | src/mock_idp/org_registry.py:45-66 | however loads overlap from now on, there is one key set if and only if the state is settled |
| OrgLoads.FirstLoadAloneSettles | src/mock_idp/org_registry.py:45-66 | a first load that no other overlaps leaves such a state |
| OrgLoads.OverlappingFirstLoadsDisagree | src/mock_idp/org_registry.py:58-65 | two overlapping first loads can all finish with different key sets in cache and table |
| RateLimit.Limiter.Check | src/mock_idp/routers/hosted.py:58-70 | while the clock does not go back, the pruned lists decide exactly as the full history of accepted calls would; whatever the clock does, they stay short, refuse nothing it would allow, and are untouched by a refusal |
| RateLimit.Limiter.CheckAll | src/mock_idp/routers/hosted.py:58-70 | over a run of calls with a clock that does not go back, all decisions and the history are those of the complete record |
| RateLimit.BackwardClockIsForgotten | src/mock_idp/routers/hosted.py:61-63 | for any earlier reading there is a run after which the pruned lists let a call through that the complete record refuses |
| RateLimit.DecidesAlikeExactlyWhen | src/mock_idp/routers/hosted.py:58-70 | after every run up to a clock reading, and for every address, the pruned lists decide like the complete record if and only if the call is not earlier |
| RateLimit.AtMostTenPerWindow | src/mock_idp/routers/hosted.py:44-70 | each address has at most 10 accepted calls in every half-open window of 60 seconds |
| RateLimit.RefusedAtExactlyTen | src/mock_idp/routers/hosted.py:62-68 | with a clock that does not go back, a call is refused if and only if exactly 10 accepted calls lie less than 60 seconds before it |
| RateLimit.AddressesIndependent | src/mock_idp/routers/hosted.py:59-70 | an address is treated as if it were alone |
| Audit.TokenEvents.WriteTokenEvent | src/mock_idp/store/pg_store.py:140-163 | a recordable event appends one row under a new, higher id, which holds it column by column for this organisation and is what the answers have more; any other event appends nothing |
| Audit.RowHoldsEvent | src/mock_idp/store/pg_store.py:145-161 | an event gets a row if and only if its columns accept it, and each column then holds the claim of its name, or its default |
| Audit.WrittenRowIsAnswered | src/mock_idp/store/pg_store.py:171-182 | a new row joins the end of the answers of its own organisation below its id, and of no other |
| Audit.TokenEvents.QueryAudit | src/mock_idp/store/pg_store.py:165-207 | fetching one row too many gives the first `limit` rows of the whole answer, with a cursor if and only if the answer goes on |
| Audit.PageSplitsAnswer | src/mock_idp/store/pg_store.py:176-206 | the page and the rows above its cursor are together the whole answer; a page without a cursor is all of it |
| Audit.FollowDeliversEverything | src/mock_idp/store/pg_store.py:165-207 | following the cursor, delivered rows and rows still to come are always the whole answer, whatever is appended between pages |
| Audit.FinishedWalkIsAnswer | src/mock_idp/store/pg_store.py:165-207 | a finished walk from 0 delivered the organisation's rows of the table as last seen, rising, each once |
| Audit.FinishedWalkIsComplete | src/mock_idp/store/pg_store.py:165-207 | so every row of the organisation that was there at the start was delivered, and no foreign row |
| Audit.WalkEnds | src/mock_idp/store/pg_store.py:165-207 | without appends the walk ends within as many pages as hold the answer |
| IdentityStore.IndexIsLastMatch | src/mock_idp/store/yaml_store.py:309-319 | the index of loaded entries answers an id with the last of them that has it as name or canonical id; the domain is exactly these ids |
| IdentityStore.RawIndexIsByKey | src/mock_idp/store/yaml_store.py:317 | the raw index knows exactly the config keys, and the full index knows them all |
| AsConfigured.PrincipalsAsConfigured | src/mock_idp/store/yaml_store.py:300-319 | service principals are known by exactly their config keys and non-empty client ids, and each id gives the last entry in document order that has it, stamped with key, id, tenant id, realm roles and provider |
| AsConfigured.UsersAsConfigured | src/mock_idp/store/yaml_store.py:300-307 | users are known by exactly their names, each by its last entry in document order, stamped by its tenant |
| AsConfigured.ClientsAsConfigured | src/mock_idp/store/yaml_store.py:321-322 | client apps are known by exactly their audiences, each by its last entry in document order |
| AsConfigured.PrincipalsAsInRows | src/mock_idp/store/pg_store.py:270-297 | after a completed Postgres reload the same holds of the rows in fetch order |
| AsConfigured.UsersAndClientsAsInRows | src/mock_idp/store/pg_store.py:250-309 | and users and client apps are the last rows of their name and audience |
| AsConfigured.ScalarsAsInRow | src/mock_idp/store/pg_store.py:236-248 | the scalars and modes are those of the app_config row, or as before without one |
| IdentityStore.Store.AddUsers | src/mock_idp/store/yaml_store.py:303-307 | adds a tenant's users, stamped with tenant id, realm roles and provider, later ones replacing earlier ones |
| IdentityStore.Store.AddPrincipals | src/mock_idp/store/yaml_store.py:309-319 | extends index and raw index by the tenant's service principals |
| IdentityStore.Store.AddClients | src/mock_idp/store/yaml_store.py:321-322 | adds a tenant's client apps |
| IdentityStore.Store.Apply | src/mock_idp/store/yaml_store.py:285-331 | the nested loops leave exactly the meaning of the configuration in the same dictionary objects |
| IdentityStore.Store.Reload | src/mock_idp/store/yaml_store.py:236-261 | a valid configuration is applied; a rejected or unreadable one changes nothing, and only the latter raises |
| IdentityStore.Store.FetchAndApply | src/mock_idp/store/pg_store.py:211-319 | scalars and modes, then records, then the identity dictionaries; modes that cannot be read, or a row that yields no record, stop it halfway |
| IdentityStore.Store.UpdateModes | src/mock_idp/store/pg_store.py:241-248 | the modes are emptied and hold the entries that the stored JSON gives before `update` ends or raises |
| IdentityStore.FailedPgReloadKeepsStateExactlyWhen | src/mock_idp/store/pg_store.py:126-138 | a failed reload keeps the identity dictionaries, and the whole state if and only if the app_config row repeated the scalars and put in exactly the current modes |
| IdentityStore.NullModesAreLost | src/mock_idp/store/pg_store.py:242-248 | a row that repeats the scalars but stores null for the modes fails the reload and empties the modes |
| IdentityStore.BrokenListLeavesItsFront | src/mock_idp/store/pg_store.py:247-248 | a stored list whose second item is no pair fails the reload and leaves the first pair alone |
| Config.LastValidConfigCounts | src/mock_idp/store/yaml_store.py:236-261 | after any reloads the store holds exactly what the last valid configuration means |
| Config.WithoutValidConfigNothingChanges | src/mock_idp/store/yaml_store.py:239-240 | without a valid one, what it held before |
| Config.Settings.constructor | src/mock_idp/config.py:43-57 | the exported dictionaries are the store's own objects, and the scalars agree with it |
| Config.Settings.ReloadConfig | src/mock_idp/config.py:60-76 | exported objects show the new contents; scalars agree with the store after a completed reload (admin token subject to its environment variable) and stay as they were after one that raised |
| Config.Settings.WatchConfig | src/mock_idp/main.py:20-32 | over any changes until a reload raises, store and scalars follow the last valid configuration |
| Roles.MergeRoles | src/mock_idp/tokens.py:93-99 | the loop with its seen set yields the resolved roles |
| Roles.RolesAreTheMerge | src/mock_idp/tokens.py:74-99 | a list holds the elements of the tenant's realm roles, the identity's realm roles and the roles for the audience, each once, in order of first occurrence, if and only if it is the resolved list |
| Roles.AliasTreatedAlikeExactlyWhen | src/mock_idp/tokens.py:83-90 | a service principal gets the same audience verdicts and roles under two ids if and only if its config key is not empty or the ids are equal |
| Overrides.OverrideField | src/mock_idp/tokens.py:147-163 | one form field replaces the claim of its name if it may, and nothing else |
| Overrides.ApplyOverrides | src/mock_idp/tokens.py:145-163 | the loop replaces exactly the overridable claims of the form |
| Overrides.OverridesRespectReserved | src/mock_idp/tokens.py:17-26 | reserved claims keep their value, and iss unless allowed |
| Overrides.ClaimAfterOverrides | src/mock_idp/tokens.py:145-163 | every claim after overriding, case by case: seven fields never count, iss only if allowed, three are lists, three are numbers where possible, all others text; the rest stays |
| Overrides.OverridesIdempotent | src/mock_idp/tokens.py:145-163 | the same form twice changes nothing more |
| Overrides.OverridesIgnoreOrder | src/mock_idp/tokens.py:145-163 | the order of the form's fields does not matter |
| Overrides.Omit | src/mock_idp/tokens.py:166-169 | removes exactly the claims listed in the header |
| Overrides.ListedNamesAreGone | src/mock_idp/tokens.py:166-169 | a header that lists names with any blanks around them removes exactly these claims |
| Overrides.ListedRolesReplace | src/mock_idp/tokens.py:172-176 | a roles header gives exactly the items it lists, whatever blanks are around them; without it the roles stay |
| Text.StripRemovesBlanks | src/mock_idp/tokens.py:168 | stripping removes the blanks around a text, all of them and nothing else |
| Text.PaddedItemsSurvive | src/mock_idp/tokens.py:156 | a comma list with any blanks in it is read as its non-empty items |
| Text.ParseUndoesJoinExactlyWhen | src/mock_idp/tokens.py:172-176 | parsing a comma list undoes joining if and only if all items are non-empty, trimmed and comma-free |
| Base64Url.DecodeUndoesEncode | src/mock_idp/tokens.py:179-180 | re-padding and decoding gives every byte string back from its encoding |
| Base64Url.EncodedByTable | src/mock_idp/tokens.py:179-180 | each six bits become the character of the URL-safe table |
| Base64Url.SextetsAreTheBits | src/mock_idp/tokens.py:179-180 | each three bytes become four six-bit values with the same bits in the same order, zeros filling up the last group |
| Base64Url.EncodeUndoesDecodeExactlyWhen | src/mock_idp/routers/debug.py:20-22 | a segment decodes and encodes back to itself if and only if it is canonical: URL-safe characters, a possible length, no stray bits |
| Base64Url.StrangeCharactersAreSkipped | src/mock_idp/routers/debug.py:20-22 | the lenient decoder skips characters of neither base64 alphabet, wherever they stand |
| Base64Url.StandardIsReadAlike | src/mock_idp/routers/debug.py:20-22 | it reads plus and slash like dash and underscore |
| Base64Url.DebugDecodesCompact | src/mock_idp/routers/debug.py:16-26 | a token of three encoded parts splits into exactly them, and the debug decoder gives header and payload back |
| Base64Url.DebugDecodesUnsigned | src/mock_idp/tokens.py:183-187 | an unsigned token splits into three segments, the last empty, that give back its header and payload bytes |
| Handlers.CopyClaims | src/mock_idp/token_handler.py:166-168 | the copy loop overlays exactly the listed claims that the subject has |
| Handlers.PasswordGrant | src/mock_idp/token_handler.py:105-116 | step by step on a mutable claims dictionary, the reply of the password grant |
| Handlers.CredentialsGrant | src/mock_idp/token_handler.py:118-131 | the same for client credentials, with form overrides |
| Handlers.SubjectClaims | src/mock_idp/token_handler.py:139-156 | the presented token must be there, verify against this issuer and not be expired, in this order |
| Handlers.DelegatedGrant | src/mock_idp/token_handler.py:133-232 | the same for token exchange and on-behalf-of: copied claims, then the actor |
| Handlers.Answer | src/mock_idp/token_handler.py:237-246 | omits, signs under the fault, emits, answers; fails after emitting if `exp` is missing or no number |
| Handlers.HandleToken | src/mock_idp/token_handler.py:93-246 | the whole handler gives the reply of the grant that was asked for, after test failure and error_500 |
| HostedHandler.HostedPassword | src/mock_idp/routers/hosted.py:154-165 | the hosted copy of the password grant means the same grant |
| HostedHandler.HostedCredentials | src/mock_idp/routers/hosted.py:167-180 | the same for client credentials |
| HostedHandler.HostedSubject | src/mock_idp/routers/hosted.py:188-199 | the hosted copy of the subject token check means the same check |
| HostedHandler.HostedExchange | src/mock_idp/routers/hosted.py:182-221 | the same for token exchange |
| HostedHandler.HandleHostedToken | src/mock_idp/routers/hosted.py:139-235 | the whole hosted handler: modes by slug, claims for the full issuer string |
| Issuance.TokenOnlyForEntitled | src/mock_idp/token_handler.py:93-246 | whatever the grant, a token goes only to an identity that gave its secret and, in strict mode, may have the audience, and a delegation only with a subject token that verifies here and is not expired |
| Issuance.RefusalsAreRight | src/mock_idp/token_handler.py:105-235 | 401 if and only if the credentials are wrong; invalid_target if and only if an identified caller with an acceptable subject may not have the audience |
| Issuance.StrictModeForUsers | src/mock_idp/tokens.py:108-142 | in strict mode a user gets invalid_target if and only if the target's app has no grant for the name, or, without an app, the target is not on the user's list |
| Issuance.StrictModeForPrincipals | src/mock_idp/tokens.py:108-142 | the same for a service principal that may not override claims, under its config key, or the id of the request should that be empty |
| Issuance.UnreachedGrants | src/mock_idp/token_handler.py:97-99 | X-Test-Fail, then error_500, then an unknown grant type refuse a request before any grant |
| Issuance.SubjectDecided | src/mock_idp/token_handler.py:139-206 | the presented token is refused with these errors if missing, not verifying, or not current, in this order, and accepted with its claims otherwise |
| Issuance.TokenEventAndReplyAgree | src/mock_idp/token_handler.py:237-246 | a granted token verifies at its issuer; its claims are those of the emitted event less the grant type, contain nothing omitted, and their `exp` is what the reply counts down to; the scope is that of the form, or the default, and only of grants that do not delegate |
| Issuance.GrantedExactlyWhen | src/mock_idp/token_handler.py:93-246 | for an entitled caller with an acceptable subject: granted if and only if the provider works, `exp` is not omitted, and the form's `exp`, where it overrides, or else the provider's, is a number; otherwise the request fails after its event was emitted, or without one if the provider fails |
| Issuance.OmittingExpFails | src/mock_idp/token_handler.py:237-244 | a request whose X-Omit-Claims header lists `exp` fails, |
| Issuance.PlainRequestIsGranted | src/mock_idp/token_handler.py:118-131 | where the same client's plain request is granted |
| Issuance.TextExpFails | src/mock_idp/tokens.py:157-161 | a request that overrides `exp` with text that is no number fails |
| Issuance.GrantedTokenCanBeDelegated | src/mock_idp/token_handler.py:146-156 | a granted token is accepted for delegation under the same keys exactly until its `exp` |
| Issuance.DefaultScopeNamesAudience | src/mock_idp/tokens.py:40-46 | the default scope of an audience, and any other scope, name this audience |
| Issuance.ResourceNamesAudience | src/mock_idp/tokens.py:40-46 | a resource overrides the scope, and without either the audience is api://default |
| Issuance.ShapeOfRequest | src/mock_idp/tokens.py:29-37 | the token shape: by header, by the end of the client id, as configured, v2 |
| Issuance.LifetimeOfRequest | src/mock_idp/tokens.py:63-71 | the lifetime: a minute in the past on request, by a numeric header, as configured, an hour |
| Delegation.HostedAgreesWithShared | src/mock_idp/routers/hosted.py:138-235 | for every request but on-behalf-of, which hosted refuses, the hosted reply and event are those of the shared handler on the full issuer string, when stores, keys and effective mode correspond and no fault is set |
| Delegation.HopSigns | src/mock_idp/token_handler.py:146-173 | a successful delegation was made by an authenticated client with a token that verifies, and signs the client's claims overlaid with the copied ones and the actor |
| Delegation.HopClaims | src/mock_idp/token_handler.py:166-173 | each copied claim of the subject is kept unless X-Omit-Claims names it; the acting client is the actor |
| Delegation.IdentityClaimsSurvive | src/mock_idp/token_handler.py:166-222 | along any chain of successful hops that omit nothing, each of the seven identity claims keeps the value it had when it first appeared |
| Delegation.ActorIsLastClient | src/mock_idp/token_handler.py:170-222 | `act` of every token in the chain names the client of the hop that got it, alone |

## Left out

- RSA, EC, HMAC and SHA-256 arithmetic, joserfc and JSON text: replaced by the ideal signatures above; header and payload of a token are byte strings to the base64url proofs.
- HTTP routing, CORS, metrics, slowapi, webhooks, delays and the random draw of error_500: plumbing; the draw is a parameter.
- API keys, admin tokens, and the registry of organisations (`OrgRegistry`): single-branch checks and lookups; `push_config` imports a function that config.py does not define.
- Provider claim shapes (`providers/*`): arbitrary functions here, which the properties do not depend on; they may fail.
- Discovery, userinfo, playground, config linting, secret resolution, Alembic, Helm: no deep property.
- The checks that precede signing at the wrong-sig, unsigned and wrong-alg endpoints: the same as in the token grants; the tokens are covered by `Lifecycle.CorruptTokenNeverVerifies`.
- Hosted introspection: lacks the client-app audience check of the shared handler and is otherwise the same code.
- Rotations of a hosted issuer in flight together with its loads, or with each other: `OrgLoads` has overlapping loads only, `OrgKeys` sequential runs.
- Locks: what the program does under a lock, and a request of the flat server, is one step; two first uses of an issuer never interleave.
- Query failures: a failing load, event insert or audit query is not modelled, except for a Postgres reload and for refused column values of an event.
- Organisations sharing one audit table commit in id order here; a row whose transaction commits after one with a higher id is not modelled.
- Audit.TokenEvents.WriteTokenEvent: does not model the `created_at` column, nor texts that Postgres refuses for a NUL character.
- IdentityStore.Store.UpdateModes: slugs and modes are texts here; JSON entries of other types, which the dictionary would hold as they are, are not modelled.
- Introspection.IntrospectionMonotone: about a token whose key has been generated; a token cannot be signed with a key that does not exist yet.
- Clocks are integers for tokens and reals for the limiter, and each request reads its clock once.
- Python's `int` on text is a parameter (`ParseInt`); form values are text, not uploaded files.
- Records are values: that one service principal object sits under two keys matters only for its contents, which nothing changes after loading.
- Error texts are shortened to the error code, with the description only where it tells two replies apart.
