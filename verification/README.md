# Verification of the OIDC bridge

A Dafny model of the parts of the bridge that keep state, do arithmetic or define a format, with proofs about whole
runs. `dafny verify dfyconfig.toml` checks everything.

| file | models |
|---|---|
| `Bytes.dfy`, `Base64.dfy`, `Utf8.dfy` | the byte layer: buffers, comparison, hex, base64url, UTF-8 |
| `Aead.dfy` | AES-256-GCM as an ideal cipher: only logged boxes open |
| `SealedToken.dfy` | the sealed token: layout, cursor parser, associated data, wrap and unwrap |
| `RateLimit.dfy`, `RateLimitLaws.dfy` | the sliding-window limiter and its specification over a full admission log |
| `Columns.dfy`, `Secrets.dfy`, `Revocation.dfy` | encrypted columns, client secrets and API tokens, the revocation list |
| `Storage.dfy`, `Service.dfy`, `ServiceLaws.dfy`, `RotationRaces.dfy` | storage rows, the admin service, its runs, overlapping rotations |
| `Directory.dfy` | what callers of the service are promised, from calls and outcomes alone, and that the rows keep it |
| `Bridge.dfy`, `BridgeLaws.dfy` | the token, userinfo, raw-tokens and revoke endpoints and their runs |
| `ClientLaws.dfy`, `IssueLaws.dfy` | who the token endpoint lets in; what issued tokens carry, what they are answered, how revoking ends them |
| `System.dfy` | service and endpoints together over one database, seal log and audit log |
| `Witness.dfy` | the assumptions hold together, in a run with an accepted and a revocable token |
| `KeyCache.dfy` | the master-key cache with lookups interleaved at their await |
| `Sessions.dfy` | the session store: lazy expiry, revocation, purge |

Where the original mutates, the model is a class (`SlidingWindow`, `RevocationStore`, `Database`, `AdminService`,
`Endpoints`, `TtlCache`, `SessionStore`) whose methods are proved equal to step functions; the laws are lemmas about
runs of those functions.

## Assumptions

- The cipher is a counter mode with a 16-byte tag (`Aead.Lawful`), and a box opens only if it was sealed earlier in the
  run: the log is the only source of plaintext.
- `JSON.parse` undoes `JSON.stringify` on payloads, and the text starts with a brace. HKDF yields 32 bytes.
- bcrypt takes two texts for the same exactly when the first 72 bytes of the encoded text and its NUL terminator,
  repeated, are the same. Collisions of the hash itself are outside the law.
- `Witness.LawsCanBeMetTogether` gives one environment with all these laws, `Witness.SomeTokenIsAccepted` a run in it
  whose token userinfo accepts.
- SHA-256 is an arbitrary function. Statements that need it free of collisions say which ones, or hold without it.
- Clocks, random bytes, upstream answers and master keys are parameters of each step and arbitrary unless a statement
  says otherwise.

## Findings

- Secret rotation reads the row and writes it back after awaiting. When two rotations of one app overlap, the secret
  issued first is refused and an older one stays valid (`LostRotation`). `OverlappingRotationExactly` gives, for every
  run and any interleaving, the exact condition under which the last two issued secrets are the accepted ones.
- `verifyClientSecret` also accepts a secret followed by a NUL, its own first 28 characters and anything after them;
  `SameKeyExactly` shows that these are all.
- `encryptedPii` is assigned over the base claims of userinfo and can replace any of them, `sub` included;
  `SubjectIsUserKeyExactly` and `ClaimsAssignedOver` give the exact conditions, `PiiReplacesClaims` an input.
- An expired but unpurged session blocks its id, so a purge can show when an id is drawn again (`ReusedIdShowsPurge`);
  `PurgingIsUnobservable` says exactly in which runs it does.
- A user key or app id with a leading byte order mark seals but never opens; `SealRoundTrip` is an equivalence.
- The bound of the limiter is on `max(0, ceil(limit))`: a limit that is not positive lets nothing through.

## Model

| member | source | states |
|---|---|---|
| `Bytes.Concat` | src/core/bytes.ts:12-22 | the buffer holds all parts one after the other and nothing else |
| `Bytes.Equals` | src/core/bytes.ts:24-30 | true exactly on equal byte sequences |
| `Bytes.ConstantTimeEquals` | src/core/bytes.ts:37-42 | the accumulated or of all exclusive ors is zero exactly on equal byte sequences |
| `Bytes.XorIsZeroExactlyOnEquals` | src/core/bytes.ts:40 | a bitwise exclusive or is zero exactly on equal numbers |
| `Bytes.OrIsZeroExactlyOnZeros` | src/core/bytes.ts:40 | a bitwise or is zero exactly when both operands are |
| `Bytes.ToHex` | src/core/bytes.ts:65-73 | the text has digit k of the buffer at place k |
| `Bytes.FromHex` | src/core/bytes.ts:75-91 | odd length and foreign characters are errors, digits of either case are read |
| `Bytes.HexRoundTrip` | src/core/bytes.ts:65-84 | reading back written hex gives the same bytes |
| `Bytes.HexCanonical` | src/core/bytes.ts:65-84 | the writer's outputs are exactly the even-length lower-case hex texts |
| `Bytes.HexErrorsExactly` | src/core/bytes.ts:75-91 | an odd number of digits is one error, a foreign character in an even number the other, and case makes no difference |
| `Base64.ToBase64Url` | src/core/bytes.ts:44-49 | character k of the output carries bits 6k to 6k+5 of the buffer (section 5 of RFC 4648, no padding) |
| `Base64.FromBase64Url` | src/core/bytes.ts:51-61 | the decoder with its length error, forgiving padding and forgiving atob |
| `Base64.UrlBytesOfPlainText` | src/core/bytes.ts:51-61 | on text without white space: which inputs are refused with which error, and the bytes of all others |
| `Base64.OctetsOfSextets` | src/core/bytes.ts:44-61 | cutting a bit string in sixes and joining in eights loses nothing and leaves zero bits over |
| `Base64.SextetsOfOctets` | src/core/bytes.ts:44-61 | joining in eights and cutting in sixes loses nothing when the left-over bits are zero |
| `Base64.Base64UrlRoundTrip` | src/core/bytes.ts:44-61 | for every buffer the output is canonical, of length ceil(4n/3), and decodes to the buffer |
| `Base64.Base64UrlRightInverse` | src/core/bytes.ts:44-61 | a text survives decoding and encoding exactly when it is canonical |
| `Base64.TrailingBitsAreIgnored` | src/core/bytes.ts:51-61 | any two url-safe texts of acceptable length decode alike exactly when they differ in the bits after the last whole byte only |
| `Base64.AtobIgnoresSpaces` | src/core/bytes.ts:57 | ASCII white space anywhere makes no difference to atob |
| `Base64.Alphabets` | src/core/bytes.ts:44-49 | the alphabets in the order of tables 1 and 2 of RFC 4648 |
| `Utf8.Utf8RoundTrip` | src/core/bytes.ts:4-10 | decoding an encoded string gives it back except for a leading byte order mark, for every string |
| `Utf8.EncodeInjective` | src/core/bytes.ts:4-6 | different strings have different encodings |
| `Utf8.BadByteIsReplaced` | src/core/bytes.ts:8-10 | a byte that starts no sequence becomes one U+FFFD between the texts around it |
| `Utf8.TruncatedCharIsReplaced` | src/core/bytes.ts:8-10 | a sequence that breaks off becomes one U+FFFD and takes nothing of what follows |
| `Aead.SealingExtends` | src/core/aead.ts:31-34 | sealing keeps the log honest and every earlier box opens as before |
| `Aead.CiphertextFixesPlaintext` | src/core/aead.ts:31-34 | boxes that share key, nonce and ciphertext open to one plaintext |
| `SealedToken.ReadLayout` | src/oidc/sealed-token.ts:130-151 | the moving cursor never reads out of range and yields the six slices or a format error |
| `SealedToken.ParseSealed` | src/oidc/sealed-token.ts:122-152 | prefix, base64url and layout errors all become one format error; ids are decoded text |
| `SealedToken.SlicesOfLayout` | src/oidc/sealed-token.ts:62-71 | parsing recovers every part of a laid-out buffer |
| `SealedToken.LayoutOfSlices` | src/oidc/sealed-token.ts:130-151 | an accepted buffer is rebuilt byte for byte from its slices |
| `SealedToken.AcceptedExactlyOnLayouts` | src/oidc/sealed-token.ts:122-152 | a buffer is accepted exactly when it is the layout of some parts |
| `SealedToken.LayoutIsConcatenation` | src/oidc/sealed-token.ts:62-71 | the layout is the concatenation of the eight parts the wrapper passes |
| `SealedToken.AadEqualExactly` | src/oidc/sealed-token.ts:187-194 | for all inputs: two associated-data values agree exactly when version, type and the text before them agree |
| `SealedToken.AadInjective` | src/oidc/sealed-token.ts:187-194 | associated data determines id, user key, version and type when ids hold no space |
| `SealedToken.AadCollidesWithSpaces` | src/oidc/sealed-token.ts:187-194 | an id with a space shares its associated data with another id and user key |
| `SealedToken.AadIsNotAColumn` | src/apps/service.ts:172-175 | a token's associated data is never the bare id a column is sealed under |
| `SealedToken.WrapSucceedsExactly` | src/oidc/sealed-token.ts:32-44 | wrapping succeeds exactly on a 32-byte key, version 1 to 255 and ids of 1 to 255 bytes |
| `SealedToken.WrappedTokenText` | src/oidc/sealed-token.ts:32-73 | the token byte for byte: prefix, layout in its order, and the associated data it is sealed over |
| `SealedToken.WrappedTokenParses` | src/oidc/sealed-token.ts:32-73 | a wrapped token parses to its own version, ids, nonce, ciphertext and tag |
| `SealedToken.SealRoundTrip` | src/oidc/sealed-token.ts:89-185 | unwrap of wrap returns the payload exactly when neither id starts with a byte order mark |
| `SealedToken.WrongExpectationFails` | src/oidc/sealed-token.ts:89-99 | any other expected app or token type is refused as tampered, whatever else was sealed |
| `RateLimit.SlidingWindow.MaybeSweep` | src/middleware/rate-limit.ts:60-68 | every thousandth call evicts exactly the stale buckets and touches nothing else |
| `RateLimit.SlidingWindow.Admit` | src/middleware/rate-limit.ts:30-54 | the buckets updated in place and the answer are those of one step of the two-counter form |
| `RateLimit.SlidingWindow.Size` | src/middleware/rate-limit.ts:56-58 | the number of remembered keys |
| `RateLimitLaws.StepAgrees` | src/middleware/rate-limit.ts:30-54 | one call answers as the full log does and leaves counters that agree with the extended log |
| `RateLimitLaws.LimiterRefinesLog` | src/middleware/rate-limit.ts:30-68 | over every run on a non-decreasing clock the limiter answers exactly as a count over all earlier admissions |
| `RateLimitLaws.AdmissionHadRoom` | src/middleware/rate-limit.ts:49-53 | a call at offset x is admitted exactly when current * W + previous * (W - x) < limit * W before it |
| `RateLimitLaws.WindowBound` | src/middleware/rate-limit.ts:49-53 | no aligned window holds more than ceil(limit) admissions of one key |
| `RateLimitLaws.IntervalBound` | src/middleware/rate-limit.ts:33-53 | any half-open interval of n windows holds at most (n + 1) * ceil(limit) admissions of one key |
| `RateLimitLaws.OtherCallsDoNotMatter` | src/middleware/rate-limit.ts:30-68 | deleting refused calls and calls on other keys leaves every remaining answer for a key unchanged |
| `RateLimitLaws.EstimateNeverRises` | src/middleware/rate-limit.ts:49-50 | without admissions in between a key's estimate never rises |
| `RateLimitLaws.StaysAdmissible` | src/middleware/rate-limit.ts:38-68 | an admissible key stays admissible across window rolls and evictions |
| `RateLimitLaws.AdmissibleAfterTwoIdleWindows` | src/middleware/rate-limit.ts:38-51 | after two idle windows a key is admissible exactly when the limit is positive |
| `RateLimitLaws.RememberedExactly` | src/middleware/rate-limit.ts:56-68 | after every run a key is remembered exactly when it was called and no sweep since its last call found that call's window more than two windows old |
| `RateLimitLaws.SweepLeavesRecentKeys` | src/middleware/rate-limit.ts:60-68 | right after a sweep only the key called and keys called within the last two windows before it are remembered |
| `Columns.DecryptsExactlyLoggedColumns` | src/apps/encryption.ts:39-49 | a column opens to a plaintext exactly when it is nonce, ciphertext and tag of a logged box for that key and context |
| `Columns.ColumnRoundTrip` | src/apps/encryption.ts:25-49 | decrypting an encrypted column gives the plaintext in every later log |
| `Secrets.VerifyClientSecret` | src/apps/secrets.ts:18-23 | true exactly when some stored hash compares |
| `Secrets.GeneratedFromRandom` | src/apps/secrets.ts:10-27 | generated secrets and API tokens spell out the random bytes they were drawn from |
| `Secrets.SameKeyExactly` | src/apps/secrets.ts:14-23 | bcrypt takes a text for a generated secret exactly when it is that secret, or the secret, a NUL and the secret's first 28 characters followed by anything |
| `Secrets.VerifyApiToken` | src/apps/secrets.ts:34-43 | errors on a stored value that is not hex, else compares the digest with the stored bytes |
| `Secrets.VerifyStoredToken` | src/apps/secrets.ts:29-43 | verifying against the stored hash of a token is equality of the two digests |
| `Secrets.ApiTokenHashesDiffer` | src/apps/secrets.ts:29-32 | two tokens share a stored hash exactly when their digests collide |
| `Revocation.RevocationStore.Revoke` | src/oidc/revocation-store.ts:18-20 | the set of revoked pairs grows by this pair, the hashed list by the hex digest of id, space and token, and the list stays the digests of the set |
| `Revocation.RevocationStore.IsRevoked` | src/oidc/revocation-store.ts:21-23 | true exactly when some revoked pair has the digest of the query |
| `Revocation.HashedListIsTheSetOfPairs` | src/oidc/revocation-store.ts:10-25 | for ids without spaces the hashed list answers like the set of pairs exactly when the query is revoked or the digest tells its text from theirs |
| `Revocation.IdsWithSpacesCollide` | src/oidc/revocation-store.ts:13-16 | with a space in the id two pairs share their digest whatever the digest is |
| `Storage.Database.CreateWorkspace` | src/storage/sqlite.ts:118-125 | succeeds exactly on a new id with an existing owner |
| `Storage.Database.UpdateWorkspace` | src/storage/sqlite.ts:137-152 | sets the name of an existing row only |
| `Storage.Database.DeleteWorkspace` | src/storage/sqlite.ts:153-155 | removes the workspace and, by the foreign key, exactly its apps |
| `Storage.Database.CreateApp` | src/storage/sqlite.ts:157-186 | succeeds exactly when the row limit, the keys and both unique constraints allow it |
| `Storage.Database.UpdateApp` | src/storage/sqlite.ts:203-219 | sets exactly the columns the patch names, any of the nine, and the update time |
| `Storage.Database.CreateApiToken` | src/storage/sqlite.ts:86-99 | succeeds exactly on a new id and a new hash of an existing user |
| `Service.AdminService.WorkspaceCreate` | src/apps/service.ts:120-134 | one service step, audited when it succeeds |
| `Service.AdminService.WorkspaceUpdate` | src/apps/service.ts:141-155 | not found, unchanged or renamed and audited |
| `Service.AdminService.WorkspaceDelete` | src/apps/service.ts:156-165 | not found, or the workspace and its apps gone and audited |
| `Service.AdminService.AppCreate` | src/apps/service.ts:169-203 | ownership, key derivation, two sealed columns, one row, one audit entry |
| `Service.AdminService.AppUpdate` | src/apps/service.ts:211-226 | not found, unchanged, or patched and audited |
| `Service.AdminService.AppDelete` | src/apps/service.ts:227-231 | not found, or the row gone and audited |
| `Service.AdminService.AppRotateSecret` | src/apps/service.ts:232-247 | not found, or the last hash kept next to the new one, when nothing runs between its halves |
| `Service.AdminService.AppBeginRotation` | src/apps/service.ts:233 | the hashes the row holds now, for an owned app |
| `Service.AdminService.AppFinishRotation` | src/apps/service.ts:234-246 | writes the last hash of what was read and the new one over the row as it is now; fails when the row is gone |
| `Service.AdminService.AppToggleRawTokens` | src/apps/service.ts:248-259 | not found, or the flag set to the given value and audited |
| `Service.AdminService.ApiTokenCreate` | src/apps/service.ts:263-281 | the hash is stored and the plaintext returned once |
| `Service.AdminService.ApiTokenDelete` | src/apps/service.ts:285-297 | only the owner's token is found |
| `Service.AdminService.ApiTokenVerify` | src/apps/service.ts:298-307 | authenticates the owner of the matching hash and touches that row only |
| `ServiceLaws.CallIsOneEdit` | src/apps/service.ts:119-308 | every call edits at most one row, which is new or the owner's, plus the cascade |
| `ServiceLaws.CallLeavesOthersAlone` | src/apps/service.ts:103-117 | a call adds, changes and removes no workspace, app or API token of another actor |
| `ServiceLaws.CallOutcome` | src/apps/service.ts:119-308 | refused calls change nothing, failed ones no row, successful ones append exactly one audit entry of the actor |
| `ServiceLaws.CallRecorded` | src/apps/service.ts:119-297 | a successful call appends its own entry, with actor, action, target and details, any other none |
| `ServiceLaws.RunKeeps` | src/apps/service.ts:119-308 | over every run keys stay consistent and the audit log is as long as the number of successful mutations |
| `ServiceLaws.OthersCannotTouch` | src/apps/service.ts:103-117 | any number of calls of others leaves all rows of an actor as they were |
| `ServiceLaws.SecretsAcceptedExactly` | src/apps/service.ts:177-247 | after creation and n rotations the accepted texts are the last min(2, n + 1) issued secrets and their continuations past a NUL; among texts without NUL exactly these secrets; at most two hashes are stored |
| `ServiceLaws.AccessorReturnsCreationMaterial` | src/runtime/node.ts:73-90 | after every run the mTLS accessor returns what was given at creation while the outcomes of the run tell of a live app, and null before its creation and after the deletion of app or workspace |
| `ServiceLaws.AccessorReturnsTexts` | src/runtime/node.ts:73-90 | PEM texts come back as those texts |
| `RotationRaces.UndisturbedRotation` | src/apps/service.ts:232-247 | from any state, the two halves of a rotation without a step in between are the whole call |
| `RotationRaces.OverlappingRotationExactly` | src/apps/service.ts:232-247 | for every run of calls and split rotations and every live app: accepted are the newest secret and the one the last writer had read, and these are the last two issued exactly when that writer had read the one issued just before its own |
| `RotationRaces.LostRotation` | src/apps/service.ts:232-247 | after every run, of two rotations that both read before either writes, the secret issued first is refused and the one from before both still accepted |
| `DirectoryLaws.RowsMirrorDirectory` | src/apps/service.ts:119-308 | after every run each row's fields are what the calls and outcomes so far tell: names, titles, origins and the raw-tokens switch set last, the status and grace time of the stage, the digest of the issued API token |
| `DirectoryLaws.DirectoryDecides` | src/apps/service.ts:103-308 | after every run the outcome of every next call is decided by these calls and outcomes alone |
| `DirectoryLaws.IssuedApiTokenAuthenticates` | src/apps/service.ts:263-307 | an issued API token authenticates its owner with its scopes until it is deleted, whatever else is called |
| `DirectoryLaws.VerifyMarksUse` | src/apps/service.ts:298-307 | authenticating sets the time of last use of the matching token and changes no other row |
| `Bridge.Endpoints.Issue` | src/oidc/token-service.ts:77-127 | two tokens over one upstream token set; a seal stays logged when a later part throws; the fields are stated by `BridgeLaws.SealedByATokenRequest` |
| `Bridge.Endpoints.Token` | src/oidc/token-route.ts:26-159 | the token endpoint from the parsed body on; who is let in and what everyone else is answered is stated by `ClientLaws.TokenEndpointAnswers` |
| `Bridge.Endpoints.Bearer` | src/oidc/raw-tokens-route.ts:38-73 | the order of checks of both bearer endpoints |
| `Bridge.Endpoints.Userinfo` | src/oidc/userinfo-route.ts:28-85 | claims, upstream failure or denial, audited only with claims |
| `Bridge.Endpoints.RawTokens` | src/oidc/raw-tokens-route.ts:38-84 | the raw token with its clamped expiry, or a denial |
| `Bridge.Endpoints.UnwrapEither` | src/oidc/revoke-route.ts:65-80 | the loop over token types keeps the first type that unwraps |
| `Bridge.Endpoints.Revoke` | src/oidc/revoke-route.ts:32-112 | marks and audits exactly when a token of a known app unwraps as either type; that issued tokens of both types do is `IssueLaws.RevokingEndsToken` |
| `BridgeLaws.StepKeeps` | src/oidc/token-service.ts:77-127 | every logged box stays explained by one seal of the run, whatever endpoints and administrators do |
| `BridgeLaws.AcceptedWasSealed` | src/oidc/token-route.ts:112-146 | over all runs, an accepted token parses part for part like a token sealed earlier, with that payload and the expected type |
| `BridgeLaws.SealedByATokenRequest` | src/oidc/token-service.ts:77-127 | every token seal belongs to a granted token request of the run: this app's key and granted version, and each upstream token, the expiry, the time and the user in its own field |
| `BridgeLaws.AcceptedCarriesUpstreamAnswers` | src/oidc/token-service.ts:77-127 | over all runs, the payload of an accepted token holds, field by field, the upstream tokens, expiry and user of an earlier granted token request |
| `BridgeLaws.RevokedIsNeverAccepted` | src/oidc/revoke-route.ts:51-86 | once a revoke step unwrapped a token string no later step of any run accepts that string |
| `BridgeLaws.RevocationListIsTheSetOfRevokedPairs` | src/oidc/revocation-store.ts:10-25 | after every run the hashed list answers like the growing set of pairs that revoke steps unwrapped, exactly when the query is one of them or the digest tells its text from theirs |
| `BridgeLaws.IssuedTokensAreAccepted` | src/oidc/userinfo-route.ts:32-59 | in every run around a token request its access token is accepted exactly when the app exists then, its refresh token always, unless a revoke step of the run unwrapped the token or one of the same digest; both carry the upstream answer field by field |
| `BridgeLaws.RawTokensReturnsUpstreamToken` | src/oidc/raw-tokens-route.ts:62-83 | raw-tokens returns the upstream access token a bearer token was made from, with the seconds left and never below zero, unless a revoke step of the run hit the token |
| `BridgeLaws.SubjectIsUserKeyExactly` | src/oidc/userinfo-route.ts:75-84 | over all runs, the reported subject is the user of the token request the token came from exactly when the value assigned over "sub" is that user's, or none is assigned and the profile is that user's |
| `BridgeLaws.ClaimsAssignedOver` | src/oidc/userinfo-route.ts:75-84 | each base claim is reported as it is exactly when no other value is assigned over it, and no claim is lost or invented |
| `BridgeLaws.PiiReplacesClaims` | src/oidc/userinfo-route.ts:83 | an encrypted field called "sub" replaces the subject, one called "toss:userKey" the number |
| `BridgeLaws.AuditPerStep` | src/oidc/token-route.ts:102-153 | what each step appends to the audit log, entry by entry: actor, action, target and details |
| `ClientLaws.TokenEndpointAnswers` | src/oidc/token-route.ts:26-158 | every request gets one answer: malformed, unknown client, unverified app, no proof, refused refresh token, in this order and without effect, or the upstream's; a client proves itself by an allowed origin without any secret, or by one secret presented in one way |
| `ClientLaws.ConflictProvesNothing` | src/oidc/client-auth.ts:12-42 | two ways of presenting a secret, another client's Basic header or an unreadable one prove nothing |
| `IssueLaws.ResponseFields` | src/oidc/token-service.ts:119-126 | the response has the upstream's expiry and scopes and the minted id token, and one audit entry names app and grant |
| `IssueLaws.ScopesRecovered` | src/oidc/token-service.ts:125 | the scope text splits at its spaces into the upstream's scopes |
| `IssueLaws.UserKeyText` | src/oidc/token-service.ts:91 | a user key is printed in decimal |
| `IssueLaws.IssueSucceedsExactly` | src/oidc/token-service.ts:77-127 | with upstream answers, tokens are returned exactly when a key can be derived, its version fits, both ids fit and an id token was minted |
| `IssueLaws.VersionOfTokens` | src/oidc/token-route.ts:92-146 | new tokens carry the app's key version for a code and the old token's for a refresh |
| `IssueLaws.IssuedTokensAnswered` | src/oidc/userinfo-route.ts:32-59 | in every later state each endpoint's answer to each of the two tokens: unknown app, disabled, revoked, refused as the wrong type, or accepted with the upstream answer |
| `IssueLaws.RevokingEndsToken` | src/oidc/revoke-route.ts:51-112 | when an issued access or refresh token is revoked while its app exists, list and audit log grow by it, and no endpoint accepts it in any run from then on |
| `IssueLaws.ClaimsOfProfile` | src/oidc/userinfo-route.ts:75-84 | over all runs, userinfo reports exactly these claims: encrypted fields by their names, else profile fields, with the expiry of the upstream token set |
| `IssueLaws.NoProfile` | src/oidc/userinfo-route.ts:61-66 | without a profile an accepted token is answered with the upstream failure and nothing is recorded |
| `System.ServiceRowsSuitTheBridge` | src/apps/service.ts:169-203 | rows of every run of the whole system have the clean ids and unique client ids the endpoints rely on |
| `System.SystemRunIsABridgeRun` | src/apps/service.ts:119-308 | service calls, split rotations and requests over one seal log and one audit log keep both invariants, and the endpoints see one of the runs their laws are about |
| `System.AcceptedWasSealedInSystem` | src/oidc/token-route.ts:112-146 | no endpoint accepts a forged token while administrators work on the same database |
| `System.AccessorInSystem` | src/runtime/node.ts:73-90 | the accessor returns the creation material while tokens are sealed into the same log and rotations overlap, and null for apps that are gone |
| `System.ConfidentialClientExactly` | src/oidc/token-route.ts:77-82 | in every run of the system the token endpoint lets a confidential client in exactly with the newest secret, or the one the last rotation had read, or a continuation of one past a NUL |
| `System.TokenEndpointInSystem` | src/oidc/token-route.ts:55-158 | in every run of the system a client is let in exactly when its app was created in the alpha stage and it comes without a secret from an origin set last, or presents in one way a secret that still counts; every refusal is the one named |
| `System.StrangersInSystem` | src/oidc/token-route.ts:46-60 | malformed requests and clients of no live app get their refusals and change nothing |
| `System.RawTokensSwitch` | src/oidc/raw-tokens-route.ts:38-73 | in every run raw-tokens says disabled, for a token userinfo accepts, exactly when the owner's last switch did not switch it on |
| `System.DirectoryDecidesInSystem` | src/apps/service.ts:103-308 | the outcome of every service call is decided by earlier calls and outcomes, with requests and split rotations in between |
| `KeyCache.TtlCache.GetKeyBytes` | src/master-keys/cache.ts:26-32 | a live entry is served, otherwise a fetch begins |
| `KeyCache.TtlCache.Resume` | src/master-keys/cache.ts:32-34 | a fetched key is cached until its lookup's reading plus the ttl |
| `KeyCache.ServedKeysAreFresh` | src/master-keys/cache.ts:26-35 | under any interleaving a served key came from a fetch for that version begun later than now - ttl |
| `KeyCache.FetchedKeysAreTheirOwn` | src/master-keys/cache.ts:32-34 | in every run a lookup that waited gets the key of the fetch this very call began, for the version it asked for |
| `KeyCache.FailuresAreNeverCached` | src/master-keys/cache.ts:32-34 | in every run a failed fetch throws to its caller and changes no cached entry |
| `KeyCache.CacheIsTransparent` | src/master-keys/cache.ts:17-40 | over an immutable provider every served key is the provider's |
| `KeyCache.KeysAreServedUntilTtl` | src/master-keys/cache.ts:26-35 | under any interleaving the key of the last finished fetch is served exactly until its lookup's reading plus the ttl |
| `KeyCache.UnknownKeysAreFetched` | src/master-keys/cache.ts:26-32 | a version no fetch has finished for is fetched |
| `Sessions.SessionStore.CreateSession` | src/sessions/store.ts:10-22 | stores a session that expires a ttl after now, unless the id is taken |
| `Sessions.SessionStore.GetSession` | src/sessions/store.ts:24-35 | an expired row counts as gone |
| `Sessions.SessionStore.PurgeExpired` | src/storage/sqlite.ts:246-252 | removes exactly the expired rows and returns how many |
| `Sessions.GetExactly` | src/sessions/store.ts:24-47 | a session is returned exactly when created, not revoked since and strictly before expiry, whatever was purged |
| `Sessions.SessionLifetime` | src/sessions/store.ts:10-35 | a session is found with its user and times until its time to live is over, whatever else is created, revoked or purged |
| `Sessions.PurgingIsUnobservable` | src/sessions/store.ts:45-47 | over every run, no get at any prefix shows a purge exactly when each create whose id only one of the runs with and without purges stores makes a session that an earlier purge reading has outlived |
| `Sessions.CreateShowsPurgeExactly` | src/sessions/store.ts:10-15 | in a run that has shown no purge so far, a create shows one exactly when one of the two runs stores its id and no purge reading has outlived the new session |
| `Sessions.FreshIdsHidePurges` | src/sessions/store.ts:45-47 | when no id is drawn twice, leaving out every purge changes no get at or after the latest of them |
| `Sessions.ReusedIdShowsPurge` | src/sessions/store.ts:10-15 | an id drawn twice shows a purge: the second create succeeds only with it |

## Left out

- Strings are sequences of Unicode scalar values. JavaScript strings with lone surrogates, which the encoder replaces, are not modelled.
- Each endpoint request and each service call is one step, except secret rotation and master-key lookups, which are split at their awaits. A request that passed its revocation check before the revocation was stored may still be answered.
- Floating-point rounding of the limiter's estimate; times are whole milliseconds and the arithmetic is exact.
- Bridge.Endpoints.Token: does not model how a body is decoded by its content type or how the Basic header is parsed; it starts from the body's fields, or none where decoding failed, and from the Basic credentials. The origin check is a parameter. The other steps start from the token.
- The signed id token, Toss transport and envelopes: their results are parameters, including failures.
- Storage failures: an audit append always succeeds. Creation timestamps of rows other than sessions are left out.
- User keys are printed as decimal integers; numbers large enough for exponent notation are not modelled.
- `listApps`, `listWorkspaces` and other plain reads, and the PostgreSQL and D1 drivers. The app limit of the dialect is a parameter.
- Retention of data in memory, timing of comparisons, and the internals of AES-GCM, HKDF, SHA-256, bcrypt and RS256.
