# A verified model of the Wyze API client

This project models the parts of the Wyze API client library that carry state, recursion or
several layers of encoding, and proves what they keep:

- **The login, token and retry machine** (`ClientModel`, `WyzeClient`). A call is a stack of
  continuations; one event is one stretch of code between two awaits of the network, the token
  file or a timer, so a run is any interleaving of any number of calls. `ClientProofs`,
  `ClientBudget`, `ClientLogins`, `ClientOutcome`, `ClientTokens`, `ClientDebounce` and
  `ClientSuccess` prove properties of all runs. `WyzeClient.Client` is the
  object with its fields; its methods, one per stretch, follow the machine event by event
  (`Handle`), so what holds of every run is stated of the object's own fields (`Drive`).
- **The viewer's session protocol** (`ViewerModel`, `ViewerSession`). One event is one callback or
  one continuation of an `await`. `ViewerSession.StreamSession` is the object, tied to the
  protocol's runs by `Handle` and `Drive` in the same way;
  `ViewerProofs` holds what every run keeps, `ViewerOwnership` what needs starts not to overlap,
  with the exact condition and a run that breaks the claims without it, and `ViewerNegotiation`
  what makes a session offer, answer, renegotiate and complete.
- **The codecs** (`Base64`, `Utf8`, `Percent`, `Json`, `WyzeCipher`, `LocalBulb`, `Signal`).
  Strings are sequences of UTF-16 units. AES is any block function with an inverse; both
  paddings, CBC, base64, percent-encoding, JSON and the backslash collapse are built in full.
- **The stream-info cache and its retry loop** (`StreamCache`, `Backoff`).
- **The canonical signing strings** (`Signing`).

`dafny verify dfyconfig.toml` checks everything.

## Assumptions about the surroundings

- Promises of a closed peer connection never settle (operations chain, section 4.4.1.2 of W3C
  WebRTC 1.0).
- An `await` of one of the client's own async functions costs only microtasks, which no other
  call's continuation comes between. The viewer's `fetch` and `res.json()` count as one await.
- The clock never runs backwards, a two-second sleep lasts at least two seconds, and this client
  alone writes the token file, each write all or nothing.
- `aes.dec` undoes `aes.enc` under every key.

## Where the code differs from its description

- `normalizeCameraSignalingUrl` is documented as idempotent on decoded URLs. It is not in general:
  `Percent.NormalizeIdempotentExactly` says exactly when, `Percent.NormalizeNotIdempotent` gives the
  family of URLs on which a second pass decodes again.
- The login debounce does not keep two consecutive logins apart, because a login that waited records
  the time before its wait: `ClientLogins.TwoLoginsOneMillisecondApart`.
  `ClientLogins.NextLoginEarlyExactly` says exactly when the next one can come too early. Any three
  are kept apart.
- The cache is described as keyed by (mac, model, substream). A colon in a model breaks that
  (`StreamCache.ColonInModelConfuses`); without one it holds.
- `clearCameraStreamCache(mac)` may clear other cameras when macs differ in length;
  `StreamCache.ClearedExactly` says which.
- `start` does not look at its session token again after its fetch, so overlapping starts can leave
  two peer connections open: `ViewerOwnership.OverlapBreaksOwnership`.
- The older ford form cuts the path's last character off when the payload is empty, and so does the
  newer one: `Signing.FordCreateSignature`. The two olive forms hash different bytes for bodies
  outside ASCII: `Signing.OliveFormsHashAlike`.

## Model

| member | source | states |
|---|---|---|
| `ViewerOwnership.CandidatesConserved` | example/public/viewer.html:420-476 | in every run without overlapping starts, the candidates handled since the last stop are, counted with repetition, those handed to addIceCandidate plus those still waiting in the list; once an answer is applied and its flush completed none is waiting |
| `ViewerOwnership.AnswerExclusive` | example/public/viewer.html:428-471 | at most one setRemoteDescription is in flight, it belongs to the current session, and at most one succeeds per session token |
| `ViewerOwnership.OldCallbacksInert` | example/public/viewer.html:383-489 | a callback or continuation that captured an older session token changes no field of the session |
| `ViewerOwnership.SessionOwnsItsConnections` | example/public/viewer.html:378-418 | at most one peer connection and one socket are open, both of the current session, and start resolves to true only if its own session's track event fired |
| `ViewerOwnership.ConnectKeepsOwnershipExactly` | example/public/viewer.html:343-351 | connecting after the fetch keeps the open connections the object's own if and only if nothing is connected and no start or stop came between |
| `ViewerOwnership.OverlapBreaksOwnership` | example/public/viewer.html:326-360 | a run of two overlapping starts that ends with two open peer connections and tells the first start true without its track event |
| `ViewerProofs.RenegotiationsBounded` | example/public/viewer.html:446-466 | in every run, overlapping or not, automatic renegotiations never outnumber user starts |
| `ViewerProofs.WaitersSettleOnce` | example/public/viewer.html:308-324 | a start's result never changes once given, a start without one is still reachable by its timer and by the waiter list, and a stop or start leaves none without a result |
| `ViewerNegotiation.OpenMakesOffer` | example/public/viewer.html:411-415 | in every run a socket of the current session that opens leaves a createOffer pending on the session's peer connection; an old one changes nothing |
| `ViewerNegotiation.AnswerStartsExactly` | example/public/viewer.html:428-440 | an answer starts a setRemoteDescription if and only if it is well formed, of the current session, answers its offer, and none is applied or being applied |
| `ViewerNegotiation.RenegotiatesExactly` | example/public/viewer.html:444-466 | a renegotiation is scheduled if and only if an answer is rejected as incompatible for the first time since a user start; no other event touches the timers or the counter |
| `ViewerNegotiation.StartFetches` | example/public/viewer.html:326-348 | a start by the user, or by the timer of the current session, drops both connections and fetches under a new token; offline it fetches nothing |
| `ViewerNegotiation.CandidateTaken` | example/public/viewer.html:473-477 | a candidate of the current session is buffered before the answer and handed to addIceCandidate after it |
| `ViewerNegotiation.WaitersToldExactly` | example/public/viewer.html:308-324 | which events settle the waiting starts and with what: the session's track event with true, its failures, a stop and a new start with false, and nothing else but a start's own timer and failed fetch |
| `ViewerNegotiation.NegotiationCompletes` | example/public/viewer.html:326-490 | from every outstanding fetch of a run without overlaps and for all candidates: connect, open, offer, local description, candidates, answer, flush and track end with the answer applied exactly once, every candidate handed over and the start told true |
| `ViewerSession.StreamSession.ResolveStartWaiters` | example/public/viewer.html:308-314 | the list is emptied and every waiter not yet settled gets the value, the others keep theirs |
| `ViewerSession.StreamSession.Drive` | example/public/viewer.html:261-527 | the object through every run: renegotiations never outnumber user starts and a start without a result is in startWaiters; without overlapping starts also every candidate seen was handed over or waits in pendingCandidates, pc and ws are the only open connections, and at most one answer was applied per session |
| `ClientProofs.TokenPairsCoherent` | src/index.js:574-651 | in every interleaving a non-empty access token and the refresh token beside it, and the pair in the file, each came from one server answer or the initial file |
| `ClientProofs.DebounceBounded` | src/index.js:421-522 | in every interleaving the debounce is 1000 times a power of two up to 2^8, or 300000; the last attempt is never in the future; no wait exceeds 150 sleeps |
| `ClientBudget.RefreshEnds` | src/index.js:529-565 | a refreshToken call answered with n access-token errors makes at most 2(n+1) refresh posts through its recursion and ends within 11 + 12n stretches, whatever other calls do; as long as it has not ended some continuation runs its next stretch |
| `ClientBudget.RequestBounded` | src/index.js:102-165 | a request makes at most two data posts and 2n refresh posts, ends within 307 + 12n stretches and can always be resumed until then, and returns normally only with a response whose code is absent or 1 |
| `ClientOutcome.RequestReturnsExactly` | src/index.js:102-165 | in every interleaving a request that is over returned normally if and only if the last answer to one of its data posts has code absent or 1, and then returned that answer; such an answer can only be held up by the pause near the rate limit |
| `ClientOutcome.RetriedExactly` | src/index.js:118-157 | a request is retried if and only if it takes in a rate-limit answer to its first post, after ten minutes, or the refresh for its rejected token was saved and left an access token, at once |
| `ClientTokens.TokensChangeExactly` | src/index.js:574-663 | which events change the tokens and the token file, and to what: a loaded complete file, bad credentials and rejected tokens, accepted logins and refreshes, successful writes, and nothing else |
| `ClientTokens.LoginStoresTokens` | src/index.js:390-415 | an accepted login leaves exactly the answer's pair in the client, and in the file once written |
| `ClientDebounce.LoginsStartExactly` | src/index.js:421-522 | in every interleaving the logins so far determine the debounce (doubled by a wait, reset after twelve hours) and the attempt on record, and a login starts exactly when a maybeLogin without a token finds its debounce cleared or has waited it out |
| `ClientDebounce.WaitsExactly` | src/index.js:421-509 | a maybeLogin without a token sleeps two seconds more exactly as long as the debounce in force is neither cleared nor waited out |
| `ClientDebounce.StartedLoginPosts` | src/index.js:487-522 | a login that starts is posted, in the call itself or in one of its own |
| `ClientSuccess.RequestSucceeds` | src/index.js:102-125 | from every state with a token, a request posts at once and returns a response without an error |
| `ClientSuccess.RequestSucceedsAfterRefresh` | src/index.js:343-363 | from every state with a token: rejected, refreshed, saved, posted again, returned |
| `ClientSuccess.RequestSucceedsAfterRateLimit` | src/index.js:144-160 | from every state with a token: rate limited, ten minutes waited, posted again, returned |
| `ClientSuccess.RequestSucceedsAfterLogin` | src/index.js:390-449 | from every state without a token whose debounce has cleared: logged in, saved, posted, returned |
| `ClientSuccess.RefreshTriedTwice` | src/index.js:536-562 | in every run refreshToken throws only after a second post |
| `ClientSuccess.WriteTriedTwice` | src/index.js:612-632 | a first write that fails is written again, the same pair, after a sleep |
| `ClientLogins.NoLoginWithSavedPair` | src/index.js:421-449 | while the file holds a complete pair and stays readable, and answers with tokens carry both, no interleaving starts a login through maybeLogin |
| `ClientLogins.LoginsSpaced` | src/index.js:421-522 | while maybeLogin calls do not overlap, any three consecutive logins span at least the debounce in force at the third, at least 1000 ms; two do unless the earlier waited and the later did not |
| `ClientLogins.NextLoginEarlyExactly` | src/index.js:468-522 | just after a login, with no maybeLogin under way, some continuation starts the next login sooner than the debounce then in force if and only if that login had waited |
| `ClientLogins.TwoLoginsOneMillisecondApart` | src/index.js:515-522 | for every first use of the client at a time t > 1000: logins at t, t + 2500 (after a wait) and t + 2501 in a run in which no calls of maybeLogin overlap |
| `WyzeClient.WaitForDebounceClearance` | src/index.js:496-509 | whatever the bound and the tokens do between sleeps, the loop stops at the first turn that sees a token or has waited out the bound then in force, within 150 sleeps |
| `WyzeClient.Client.Resume` | src/index.js:102-165 | running the object down a call's stack until it awaits again gives the machine's state, stack, result and floating login |
| `WyzeClient.Client.Drive` | src/index.js:102-663 | the client through every run of interleaved calls: accessToken with refreshToken, and the file's pair, each came in one piece; the debounce is a doubling of a second or the cap and lastLoginAttempt is not in the future; every request made at most two data posts and returned only a response without an error; without overlapping maybeLogin calls any three logins span the debounce in force at the last |
| `WyzeCipher.CbcInverts` | src/util.js:22-31 | CBC decryption undoes CBC encryption for every key, vector and block sequence |
| `WyzeCipher.UnPkcs7Inverts` | src/util.js:28-30 | removing PKCS#7 padding undoes adding it |
| `WyzeCipher.DecryptEncrypt` | src/util.js:8-53 | for every 16-character key and every text: what was encrypted is the low bytes of the text, then 0x05 up to the next multiple of 16 above its length; decrypting gives the low seven bits of the text without \x05, so it is the identity exactly on seven-bit texts free of \x05; other keys are refused |
| `Base64.EscapedSlashesSkipped` | src/util.js:31-32 | Node's decoder reads a text the same with its slashes escaped |
| `Base64.NodeDecodeInverts` | src/util.js:41 | Node's decoder inverts base64 on every byte string |
| `Base64.BrowserDecodeInverts` | example/public/viewer.html:237-243 | the browser's decoder inverts the standard and the URL-safe alphabet, with or without padding, on every byte string |
| `LocalBulb.PrintClean` | src/index.js:1522 | JSON text of seven-bit strings holds no control character, hence no \x05 |
| `LocalBulb.WireRoundTrip` | src/index.js:1522-1537 | for every seven-bit value the collapsed payload parses to a set_status request, not queued, whose characteristics are plain base64, without a backslash, which decrypts to exactly the value's JSON; only a key of another length is refused |
| `LocalBulb.CharacteristicsRoundTrip` | src/index.js:1510-1537 | the same for the characteristics built from seven-bit arguments, with the mac in upper case under mac, the time under ts, and the property under pid and pvalue of the one plist item |
| `Json.ParseInverts` | src/index.js:1522 | JSON.parse undoes JSON.stringify on every value |
| `Utf8.DecodeInverts` | src/cameraStreamCapture.js:128 | every string without lone surrogates comes back from its UTF-8 bytes |
| `Percent.DecodeInverts` | src/index.js:2748-2758 | decodeURIComponent undoes encodeURIComponent, which succeeds exactly on strings without lone surrogates |
| `Percent.UnescapeEncode` | example/public/viewer.html:234-236 | unescape after encodeURIComponent is the UTF-8 form, byte for byte |
| `Percent.DecodeEscape` | example/public/viewer.html:237-243 | decodeURIComponent after escape decodes UTF-8, and fails exactly where that fails |
| `Percent.NormalizeShrinks` | src/index.js:2748-2758 | a URL that normalising changes gets at least two characters shorter |
| `Percent.NormalizeSettles` | src/index.js:2748-2758 | repetition reaches a fixed point within half the length |
| `Percent.NormalizeFixesExactly` | src/index.js:2748-2758 | a URL is left alone if and only if it holds no %25 or does not decode |
| `Percent.NormalizeUndoesOneLayer` | src/index.js:2748-2758 | one pass undoes exactly one encodeURIComponent layer for every well-formed string with a percent sign |
| `Percent.DecodeShows25` | src/index.js:2748-2758 | the decoded URL holds %25 if and only if the URL itself spells it one layer down: %25, then a 2 and a 5, each plain or escaped |
| `Percent.NormalizeIdempotentExactly` | src/index.js:2743-2758 | a second pass changes nothing if and only if the URL given does not spell %25 one layer down, or does not decode, or does not decode a second time |
| `Percent.NormalizeNotIdempotent` | src/index.js:2743-2744 | on every twice encoded URL with a percent sign the second pass decodes again |
| `Signal.B64EncodeIsUtf8` | example/public/viewer.html:234-236 | b64Encode is base64 of UTF-8, on exactly the strings without lone surrogates |
| `Signal.B64DecodeInverts` | example/public/viewer.html:237-243 | b64Decode inverts it in both alphabets, with or without padding |
| `Signal.PrintWellFormed` | src/cameraStreamCapture.js:109-116 | JSON text never holds a lone surrogate, whatever the strings in it hold |
| `Signal.PayloadUnambiguous` | example/public/viewer.html:244-253 | for every JSON value the raw attempt on its base64 form fails and the decoded attempt returns it; its raw form is returned as is |
| `Signal.ParseInvertsSend` | src/cameraStreamCapture.js:109-134 | reading a sent message gives its action and exactly its payload; null exactly for an empty action |
| `Signal.SentFields` | src/cameraStreamCapture.js:109-116 | the sent text is a JSON object with the action, the recipient, the payload's base64 form and no messageType |
| `Signal.MessageTypeWins` | src/cameraStreamCapture.js:118-133 | in a received object a truthy messageType wins over action, and without either the message is dropped |
| `Signal.SameEnvelope` | example/public/viewer.html:492-501 | the page and the snapshot client put the same text on the wire |
| `StreamCache.SanitizeKeepsUsable` | src/index.js:2768-2779 | entries with a url survive in order, field by field, with empty fields left out, and no others do |
| `StreamCache.BundleDescribes` | src/index.js:2849-2854 | for every answer of the API: the auth token as it was, the URL decoded once exactly if it holds %25 and decodes, and each usable server at its rank with its url, username and credential |
| `StreamCache.BundleRestoresUrl` | src/index.js:2849-2854 | a URL encoded once too often is stored as it was meant |
| `StreamCache.KeyCollision` | src/index.js:2821-2823 | two triples share a key exactly when they agree on substream and on mac:model |
| `StreamCache.KeyInjective` | src/index.js:2821-2823 | for colon-free models the key determines the triple, although macs hold colons |
| `StreamCache.ClearedExactly` | src/index.js:2931-2940 | a clear removes an entry if and only if the mac is empty or the mac and a colon begin mac:model: of the entry; for a colon-free model, if and only if the mac is empty, is its mac, is a colon-bounded prefix of its mac, or is its mac:model |
| `StreamCache.ClearSelects` | src/index.js:2931-2940 | a clear removes every entry of that mac, and nothing else when macs are equally long |
| `StreamCache.AnswersAsTripleKeyed` | src/index.js:2825-2861 | in every run of lookups, stores and clears for colon-free models every lookup answers as the triple-keyed cache does |
| `StreamCache.CachedExactly` | src/index.js:2839-2861 | a lookup answers with a bundle if and only if it is that of the latest store for the same triple, stored less than its TTL ago with no matching clear between |
| `StreamCache.ColonInModelConfuses` | src/index.js:2821-2823 | with a colon in a model one camera is answered with another's bundle |
| `StreamCache.StreamInfoCache.ClearCamera` | src/index.js:2931-2940 | deleting while iterating leaves exactly the entries that do not match |
| `StreamCache.StreamInfoCache.Begin` | src/index.js:2835-2846 | an unexpired entry's bundle unless the cache is bypassed |
| `StreamCache.StreamInfoCache.Finish` | src/index.js:2848-2861 | the bundle describes the answer field by field, and the entry for the key, and nothing else, changes unless the cache is bypassed |
| `StreamCache.StreamInfoCache.ConnectionInfoFor` | src/index.js:2825-2871 | one call: the result, whether it is marked cached, and the cache afterwards, for a hit, a miss and a failed fetch; a result not from the cache describes the fetched answer field by field |
| `Backoff.WithReconnect` | src/index.js:2911-2924 | for every outcome sequence and every integer maxAttempts: max(1, min(first success, maxAttempts)) calls, onRetry with 1, 2, ... and each error in order, delays doubling from the base with total base times 2^(calls-1) - 1, and the last outcome passed on |
| `Backoff.DoublingTotal` | src/index.js:2920-2921 | n doubling delays add up to first times 2^n - 1 |
| `Signing.LessExactly` | src/crypto.js:33 | keys are compared lexicographically by UTF-16 code units |
| `Signing.SortAscends` | src/crypto.js:33 | sorting distinct keys gives a permutation of them in ascending lexicographic order |
| `Signing.SortedUnique` | src/crypto.js:33 | there is only one, so the sorting algorithm does not matter |
| `Signing.SortedPairsExactly` | src/crypto.js:31-37 | the serialised pairs are the payload's, each once, by keys that ascend lexicographically |
| `Signing.OrderIndependent` | src/index.js:1599-1604 | the body does not depend on the insertion order of the properties |
| `Signing.OliveBody` | src/crypto.js:31-40 | the append-and-slice loop builds the map/join body of every payload, the empty one included |
| `Signing.FordCreateSignature` | src/crypto.js:8-15 | the string before hashing, equal to method, path, joined body and secret if and only if the payload is not empty or there is no character to cut |
| `Signing.FordCreateSignatureNew` | src/crypto.js:69-79 | the newer form builds the same string |
| `Signing.BodyParsesExactly` | src/crypto.js:54-58 | reading the body back gives the sorted payload if and only if keys hold no = or & and values no & |
| `Signing.BodyDeterminesPayload` | src/crypto.js:54-58 | two such payloads have the same body exactly when they are the same payload |
| `Signing.EqualsInKeyConfuses` | src/crypto.js:54-58 | with = in a key two payloads share a body |
| `Signing.OliveFormsHashAlike` | src/crypto.js:40-45 | the older and the newer olive form hash the same bytes if and only if the body is seven-bit |
| `Signing.FordFormsHashAlike` | src/crypto.js:16-18 | the two ford forms hash the same bytes once percent-encoded alike |

## Left out

- Device endpoints (locks, plugs, lights, thermostats, irrigation, home monitoring, vacuums): wrappers with fixed payloads, easy members only.
- `captureStreamFrame`, `src/rokuAuth.js` and the routes of `example/viewer.js`: driven by sockets, processes and cloud libraries.
- MD5, HMAC and AES internals: hashes are not modelled, AES is any invertible block function.
- `src/types.js`, `src/constants.js`, `src/payloadFactory.js`, scalar helpers and device accessors: finite tables and single-branch facts.
- Page elements, badges, overlays and logging: user interface.
- The viewer's own ICE candidates and offers on the wire: they change no field; only the envelope's text is modelled (`Signal.SameEnvelope`).
- The failure of `_tokenPersistPath` for a user name without an identifier: it would throw before any read or write.
- The record of logins holds those that maybeLogin starts; a direct call of `login()` is modelled as a call but not recorded.
- Error messages: the substring tests on them are flags of an answer, and thrown errors are told apart only where the code does.
- Numbers in JSON: kept as their tokens, so that Number.prototype.toString reads back as the same number is assumed. Objects are their members in order, the last of a name winning.
- A non-string `messagePayload` is read as null, and what Node makes of bytes that are not UTF-8 is a parameter of `Signal.ParseSignalMessage`.
- `moment` is not imported where `localBulbCommand` uses it, so the call as written throws; the timestamp is a parameter of the string pipeline. `toUpperCase` is modelled on ASCII letters.
- Sharing of the cached arrays between results: bundles are values here, so a caller that changes the array it was given is not captured. The client identifier in the result is not modelled.
- Delays above 2^31 - 1 ms, which timers cut to 1 ms, and powers of two beyond the range of doubles: the delays are those asked for.
- `querystring.escape` differs from encodeURIComponent on lone surrogates; the ford forms are compared on what both encode.
- Payload values that are objects with their own conversion methods: a value is the string String gives.
