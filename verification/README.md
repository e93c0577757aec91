# JWT service: verified model

A Dafny model of the service that issues JSON Web Tokens with rotating refresh tokens, verifies them against
a Redis store and a key service, guards its internal routes with one-time codes and limits its public route
per client address. `dafny verify dfyconfig.toml` checks the whole project.

## What is modelled

**Token store protocol** (`Redis`, `Claims`, `Protocol` and the modules named after it, `RedisStore`, `JwtManager`, `StoreFacts`,
`KeyNames`).
Two levels over one store whose keys expire and one nondecreasing millisecond clock.

- `Protocol` is a step machine: any number of requests (issue, issue a pair, exchange, revoke one, revoke a
  subject), each interleaved with the others one Redis command at a time. A command may fail, before it takes
  effect (`Abort`) or after (`Exec`, then `Abort`: a lost answer). UUIDs are drawn fresh at the step that first
  writes them. A key may be deleted by name by any client. Signing and key lookup can fail but are otherwise
  abstract here.
- `RedisStore.RedisClient` and `JwtManager` are the same operations as methods with the source's early returns.
  Each method's contract says that it moves its own request through the machine, under interference by other
  requests and the clock between any two commands, so every theorem about runs holds of what it returns. What becomes
  of each command a client sends (answered, lost before it takes effect, answer lost) is an input, so the contracts
  say exactly when an operation succeeds and why it fails.
- Exact verification, the exact winners of an exchange, the bound on the holders of a family, the death of every member
  a `ZRANGE` saw, and exactly which unexpired members it sees (`ProtocolSubject.ListedIff`) hold in every legal run.
- Some histories cost a group index its claim to know every live member. The ghost set `flawed` collects those
  groups. `ProtocolSmooth` says in terms of settings and events which runs keep a family or a subject out of it,
  as an equivalence, and restates final revocation and the count without the ghost set. `ProtocolSubject` needs
  no such set: what a revocation reaches is decided member by member.
- `ProtocolRuns` and `ProtocolIssues` build runs step by step, and `ProtocolSeal` uses them for the converses: runs
  that lead to a working pair of a family that was revoked, and the exact conditions that exclude them.

**JWKS cache** (`JwkCache`, `JwkClient`, `JwkFlight`). The class keeps the three fields of the cache, reads the
clock before every decision and logs every trip to the key service; the properties of runs are stated on that log. The
keys the service holds and whether it fails at a moment are inputs.
`JwkFlight` interleaves any number of lookups one read, write or lock operation at a time. Single flight, the trip
bound, agreement with a direct lookup and bounded staleness are proved for every such interleaving, and
`OnlyTheHolderWrites` justifies treating the locked section of a lookup as one piece in the class.

**One-time codes** (`Base32`, `Totp`, `Replay`). The shift register of the base32 reader, HOTP truncation and
formatting, the validation window, and the reservation of codes over runs of interfering requests. HMAC is a
function parameter that yields at least 20 bytes.

**Limiter keys** (`RateLimit`, `Text`). Bitwise address ranges, /56 grouping, and which address of a forwarded
header is believed.

**Token text** (`TokenText`). Payload members, segments, signatures. JSON, base64url and signatures are parameters
with their usual laws.

## What the proofs brought up

- `EXPIREAT` sets the deadline of a group; the comment above it (`src/redis.rs:227-229`) wants the maximum. A
  shorter-lived token of a subject therefore drops the index early (`IndexLastsIff`, `ShortTokenDropsIndex`). In a
  family the refresh token that follows restores the deadline, unless the exchange stops in between
  (`InterruptedExchange`).
- The record of a refresh token has a millisecond deadline and its index entry a whole-second one, so the
  record outlives the index by up to a second (`RecordOutlivesIndexIff`), and a family revocation in that second
  misses it (`LastSecondSurvivor`). `RevocationIsFinal` carries that exception.
- `HSETNX` on a record that is gone succeeds, so there is not always one winner: an exchange gets past the mark
  exactly when it is the first or the key is gone (`WinsIff`). Wins are bounded by one plus the disappearances of
  the record (`OneWinner`), and the bound is met (`SweptTokenExchanges`).
- For the same reason a family need not stay one chain. Its unused refresh tokens with clients and its issues under way are at
  most one plus the marks that were set on a record gone since it was read (`HolderBound`), so at most one until the
  first deletion or expiry of one of its records (`OneHolderWhileIntact`), and after that there can be two (`TwoHolders`).
  Such a mark also leaves a key without a lifetime in the store (`LateMarkStays`).
- A subject revocation reaches a live token exactly when the subject index has been there ever since the token was
  entered (`SubjectCoverage`). What can lose it is a shorter-lived token, a lapse inside the token's own window, a sweep
  that ran past its entry, or deletion of the group key (`SubjectRevocationCovers`); failed calls cannot.
- A revoked family can come back. An exchange that read its record before the sweep wins the mark after it and
  hands out a working pair (`SweptTokenExchanges`, from every run in which a client holds an unused, indexed refresh
  token of an unflawed family, if the settings let the default issue through; `FirstPair` gives such a run from the
  empty store). A family stays dead in every continuation exactly when no
  request is issuing into it, none holds a record of it that it has not marked yet, and no refresh token of it is
  left over from after the `ZRANGE` or in its last second (`SweepSealsIff`).
- Replay retention counts from the reservation, not from the validation. Two requests held up for `li` and `lj`
  between the two can be let through on one counter exactly when `li < lj` (`ReplayIff`). The retention is the
  documented product exactly when it fits into 64 bits (`ReplayWindowExact`).
- `base32_decode` casts a character to one byte, so characters beyond ASCII whose low byte is a letter are
  accepted (`AcceptedIff`, `WideCharacterAccepted`).
- The documentation of `public_key` names `JWKS_CACHE_STALE_MAX_SECONDS` (`src/jwk.rs:269`); the code, and the
  model, use the TTL plus `JWKS_CACHE_STALE_GRACE_SECONDS`.
- A forged beginning of the forwarded header can move the key when every address the proxies appended is itself
  trusted; `ForgedEntriesIgnoredIff` gives the exact condition.

## Model

| member | source | states |
|---|---|---|
| `Redis.ApplyJti` | src/redis.rs:183-217 | over all commands, a `jti` appears only by SETEX with a positive lifetime and disappears only by a DEL that names it |
| `Redis.ApplyUsed` | src/redis.rs:411-419 | over all commands, only HSETNX sets the mark, and only HSET and HSETNX create the hash |
| `Redis.ApplyRecord` | src/redis.rs:305-350 | a refresh record is written only by HSET and lost only by DEL or a zero EXPIRE; HSETNX never changes what is read |
| `KeyNames.NamesDistinct` | src/models/jwt.rs:111-138 | key builders never collide, as long as a `jti` does not start with a builder's prefix |
| `KeyNames.BuiltIff` | src/models/jwt.rs:111-138 | a text names a key other than a plain `jti` exactly when it starts with one of the four prefixes |
| `ProtocolCover.RunInv` | src/jwt.rs:57-247 | the invariant of every legal run: known identifiers, exact token records, one chain per unflawed family, live members of unflawed groups indexed, their index outliving them |
| `ProtocolTheorems.VerificationExact` | src/models/jwt.rs:416-441 | a handed-out token verifies iff issuer and audience fit, it is not expired, and no DEL of the run named its `jti` |
| `Claims.ValidSpan` | src/models/jwt.rs:421-429 | claims are valid for their issuer and each audience from the later of `nbf` and `iat` until second `exp` begins, to the millisecond |
| `ProtocolTheorems.HandedOutVerified` | src/models/jwt.rs:366-370 | every token that was handed out passed its own verification, with its record stored, in some state of the run |
| `ProtocolTheorems.RemovedMeansDeleted` | src/redis.rs:467-485 | a key counts as removed exactly when some executed DEL of the run named it |
| `ProtocolTheorems.NeverAgain` | src/models/jwt.rs:416-441 | once a handed-out token fails verification it fails for everyone at every later point |
| `ProtocolTheorems.RefusedStays` | src/models/jwt.rs:416-441 | an expired or deleted `jti` is refused at every later point of the run |
| `ProtocolTheorems.HandedOutIndexed` | src/models/jwt.rs:338-372 | every token handed out was entered into its subject index, every pair into one family index |
| `ProtocolTheorems.GoneStays` | src/redis.rs:305-401 | the record of a refresh token never changes and never comes back |
| `ProtocolTheorems.History` | src/redis.rs:231-301 | along a run nothing known is forgotten and the score of an index entry never changes |
| `ProtocolRevocation.SeenMembersDie` | src/redis.rs:272-286 | under every interleaving, from the success of the revocation on, no access token the ZRANGE saw verifies and no refresh record it saw is found by a new read |
| `ProtocolRevocation.PastMembersDead` | src/redis.rs:272-286 | a member whose score has passed or whose record is gone is dead for good in that sense, up to the last second of a refresh record |
| `ProtocolRevocation.UnseenMembersDead` | src/redis.rs:272-286 | a member of an unflawed group that the ZRANGE did not see is dead already in that sense, up to the last second of a refresh record |
| `ProtocolRevocation.RevocationIsFinal` | src/jwt.rs:147-160 | after a successful sweep of an unflawed group none of its access tokens verifies and none of its refresh records is found by a new read, at any later point of any run, up to the last second of a record; an exchange past its read is not covered |
| `ProtocolSeal.SealedIff` | src/jwt.rs:128-183 | nothing is issued into a family in any continuation of a run iff its name is taken, no client has a stored refresh token of it, and no request is issuing into it or has read a record of it without marking it yet |
| `ProtocolSeal.SweepSealsIff` | src/jwt.rs:147-160 | a successful sweep of an unflawed family seals it iff, when it succeeds, no request is issuing into it or holds an unmarked record of it, and no refresh token is left over from after the ZRANGE or in its last second |
| `ProtocolSeal.StoredIsLeftover` | src/redis.rs:272-286 | every refresh token still stored after such a sweep was handed out after the ZRANGE or is in its last second |
| `ProtocolSeal.SweptTokenExchanges` | src/jwt.rs:134-183 | from every run with a client holding an unused, indexed refresh token of an unflawed family, under settings that let the default issue through, a continuation in which it is swept and dead, is won a second time with one disappearance, and hands out a working pair of the killed family |
| `ProtocolSeal.MarkRevives` | src/redis.rs:415-419 | an exchange that has read its record can still win in some continuation, even if the mark is set now |
| `ProtocolSeal.FirstPair` | src/jwt.rs:84-110 | from the empty store, a run that leaves a client with such a token in an unflawed family |
| `ProtocolIssues.IssueAlone` | src/jwt.rs:162-183 | a default issue that nobody interrupts ends in a pair whose access token verifies and whose refresh token is stored, unused and indexed |
| `ProtocolSmooth.FamilyUnflawedIff` | src/jwt.rs:128-247 | with access lifetimes at most the refresh lifetime, a family stays unflawed over a run iff every event of it is harmless: no abort and no lapse in a window, no record vanished before its mark, no access token expired before its deadline is set, no member added during a sweep, the group key not deleted |
| `ProtocolSmooth.SubjectUnflawedIff` | src/redis.rs:231-238 | a subject stays unflawed over a run iff deadlines are set in order of expiry and there is no abort or lapse in a window, no member added during a sweep, no deletion of the group key |
| `ProtocolSmooth.ShortRun` | src/models/jwt.rs:295-330 | settings that bound every lifetime by the refresh lifetime bound that of every token under way |
| `ProtocolSmooth.FamilyKillIsFinal` | src/jwt.rs:147-160 | final revocation of a family under those conditions on settings and events |
| `ProtocolSmooth.SubjectCount` | src/redis.rs:279-286 | the returned count bounds the live tokens killed, under conditions on events only |
| `ProtocolRevocation.ClosedForever` | src/jwt.rs:128-183 | a closed family stays closed and nothing is ever issued into it again |
| `ProtocolSubject.EnteredOnce` | src/jwt.rs:57-247 | no command ever enters a member into a group that has had it before |
| `ProtocolSubject.ListedIff` | src/redis.rs:231-301 | in every run, a member whose score is still to come is in its index iff the index has existed in every state since the member was entered |
| `ProtocolSubject.KeptMembersDie` | src/redis.rs:268-301 | a successful sweep is final for every member whose index was kept until the ZRANGE, flawed or not, up to the last second of a refresh record |
| `ProtocolSubject.SubjectCoverage` | src/models/jwt.rs:342-354 | a handed-out token that still verifies is seen by an uninterrupted subject sweep, and refused after it, iff the index of its subject has existed in every state since its entry |
| `ProtocolSubject.SubjectRevocationCovers` | src/models/jwt.rs:342-354 | it is seen and refused, and the index outlasts it, if while it was live and indexed no deadline below its expiry was set, its own window did not outlast the index, no sweep that missed it dropped the index and nobody deleted the key |
| `ProtocolSmooth.OrderedIsSmooth` | src/redis.rs:227-238 | deadlines set in order of expiry, without lapse, lost sweep or deletion, meet that condition for every token of the subject, whatever calls fail |
| `ProtocolSmooth.SubjectKillCovers` | src/models/jwt.rs:342-354 | so an uninterrupted sweep of such a subject kills every token of it that was handed out and verifies |
| `ProtocolRevocation.PruneSafe` | src/redis.rs:274-277 | pruning by score never drops a token that would still verify |
| `ProtocolRevocation.CountMeaning` | src/redis.rs:279-286 | the members counted by a subject revocation, less those revoked one by one, are exactly the live tokens |
| `ProtocolRevocation.CountBounds` | src/redis.rs:279-286 | the returned count bounds the live tokens killed and equals their number iff none was revoked singly |
| `ProtocolRotation.WinsIff` | src/redis.rs:403-430 | an exchange gets past the mark iff none did before or the key of the token is gone |
| `ProtocolRotation.OneWinner` | src/redis.rs:403-430 | exchanges of one refresh token that get past the mark number at most one plus the disappearances of its record, a bound that `SweptTokenExchanges` meets |
| `ProtocolRotation.OneWinnerWhilePresent` | src/redis.rs:403-430 | while the record stays present at most one exchange gets past the mark, and none once one did |
| `ProtocolRotation.JunkIsAbsent` | src/redis.rs:376-388 | a hash left with only `used` is read as absent and cannot be won |
| `ProtocolRotation.HolderBound` | src/jwt.rs:134-183 | over every run, unused refresh tokens of a family with clients and issues under way number at most one plus the marks set on a record of it that had vanished since it was read |
| `ProtocolRotation.LateMarkStays` | src/redis.rs:411-419 | such a mark leaves a key that reads as absent, refuses further marks and has no lifetime |
| `ProtocolRotation.OneHolder` | src/jwt.rs:134-183 | while no such mark was set two of them are the same one, whatever failed, lapsed or was revoked |
| `ProtocolRotation.OneHolderWhileIntact` | src/jwt.rs:134-183 | so they are at most one until a record of the family is first deleted or expires |
| `ProtocolSeal.TwoHolders` | src/jwt.rs:134-183 | from every run with a client holding an unused refresh token, a continuation in which two exchanges of it are both issuing into its family |
| `ProtocolRotation.FlawedHasCause` | src/redis.rs:231-301 | a group is flawed only through one of the listed events of the run |
| `StoreFacts.IndexLastsIff` | src/redis.rs:227-238 | adding a member keeps the index as long-lived as its members iff no other member expires later |
| `StoreFacts.ShortTokenDropsIndex` | src/redis.rs:227-238 | a concrete subject whose long-lived token is alive and in no index |
| `StoreFacts.RecordOutlivesIndexIff` | src/jwt.rs:223-244 | a refresh record outlives its index entry iff it was not stored on a whole second, and by less than a second |
| `StoreFacts.LastSecondSurvivor` | src/jwt.rs:223-244 | a concrete refresh token that a family revocation in its last second misses |
| `StoreFacts.InterruptedExchange` | src/jwt.rs:178-183 | an exchange that stops after its access token entered the index leaves a family that reuse detection no longer reaches |
| `RedisStore.RedisClient.StoreJti` | src/redis.rs:183-200 | success exactly for a positive lifetime and a command without fault, and then a record that lasts as long; the request moves on to the index |
| `RedisStore.RedisClient.CheckJti` | src/redis.rs:202-217 | an answer exactly when the command met no fault, and it says whether the `jti` is stored |
| `RedisStore.RedisClient.DeleteJti` | src/redis.rs:467-485 | success exactly when the command met no fault; it deletes that key and records the deletion |
| `RedisStore.RedisClient.AddToGroup` | src/redis.rs:231-257 | ZADD and EXPIREAT, two commands, with interference between; success exactly without a fault, and the request moves past the entry or ends with a store error |
| `RedisStore.RedisClient.RevokeGroup` | src/redis.rs:268-301 | success exactly without a fault; then there is one ZRANGE event of this request in the run, the count is what it saw, all of that was deleted, and the commands were three or four |
| `RedisStore.RedisClient.StoreRefresh` | src/redis.rs:305-350 | HSET and EXPIRE, two commands, with interference between; success exactly without a fault |
| `RedisStore.RedisClient.GetRefresh` | src/redis.rs:357-401 | an incomplete record reads as absent, and absence ends the exchange as not valid; the read is an event of the run |
| `RedisStore.RedisClient.MarkRefreshUsed` | src/redis.rs:411-430 | the answer is yes exactly when the key was absent or not marked; the winner goes on to issue, a loser to revoke the family |
| `JwtManager.GenerateToken` | src/jwt.rs:57-78 | key, claims, record, index and self-check in order with every early return: a missing key gives a key error and nothing else does, unacceptable claims, lifetime or audience exactly the unprocessable answer, a failed signature the only bad signature, a fault always a store error and a store error only for a fault, a zero lifetime or a failed self-check; success means the claims the plan asked for, dated at the call, under the drawn `jti`, after four commands |
| `JwtManager.DraftIff` | src/models/jwt.rs:224-314 | a plan is acceptable iff its custom claims are within both limits and free of reserved names, its lifetime is within bounds or configured, and it has an audience |
| `JwtManager.GenerateTokenPair` | src/jwt.rs:84-110 | the request ends with exactly the outcome the caller gets, with the errors of an issue for the same reasons, and a pair fulfils the plan under the drawn identifiers after ten commands |
| `JwtManager.RefreshTokenPair` | src/jwt.rs:128-183 | unless a command fails, the token is looked up, a record found is marked, and a mark found set kills the family of that record; not valid is the answer iff there was no record or the family was killed; a kill is one sweep of the run after which all the ZRANGE saw is dead, and all members whose index was kept; the winner ends as an issue does, for the same reasons, and a pair has the subject and audience of the record that was read, under the drawn identifiers |
| `JwtManager.IssueRefresh` | src/jwt.rs:190-247 | the family index gets the access token, then the record is stored, then the refresh token is entered under an expiry read from the clock; success exactly without a fault |
| `JwtManager.RevokeSubjectTokens` | src/handlers.rs:314-331 | success exactly without a fault; it means one sweep of the run with that count, after which all the ZRANGE saw is dead, and every member whose index was kept |
| `JwtManager.RevokeToken` | src/handlers.rs:269-290 | success exactly without a fault, and after it no token with this `jti` verifies for anyone |
| `JwtManager.VerifyToken` | src/jwt.rs:258-269 | for any claims, an answer means valid claims at the check and a `jti` stored at the lookup, and there is none exactly when the claims were valid and the lookup met a fault; for a handed-out token, yes means never deleted before and no means it does not verify |
| `JwkCache.RefinesDirectLookup` | src/jwk.rs:276-341 | while the key service holds one key set every Ok or NotFound equals a direct lookup; any other answer is how the service failed the trip of this very call, and there is none while it does not fail |
| `JwkCache.MissMakesTrip` | src/jwk.rs:291-319 | without a fresh key an answer rests on a trip of its own or on a throttle interval that was running when it asked, and then a key is served only after a failed trip |
| `JwkCache.FindFirst` | src/jwk.rs:429-437 | of several keys with one `kid` the first is found |
| `JwkCache.RemovedKeyFades` | src/jwk.rs:384-437 | a removed key is not served one latency plus TTL plus grace later, and the grace counts only after a failed trip |
| `JwkCache.NewKeyAppears` | src/jwk.rs:291-317 | a new key is refused as unknown only for the throttle interval or one latency, and in an outage for at most the TTL on top |
| `JwkCache.TripsApart` | src/jwk.rs:454-490 | two consecutive trips are a throttle interval apart when the cache is fresh at the second, or the last trip failed and the wanted key is servable |
| `JwkCache.TripsTakeTime` | src/jwk.rs:454-490 | so `n` further trips on a fresh cache take at least `n` intervals, however many lookups there are |
| `JwkCache.ReadinessMatchesAbility` | src/jwk.rs:398-426 | with the key service down, the readiness probe holds iff some key is served, and then every key of the snapshot is |
| `JwkCache.AfterLatest` | src/jwk.rs:467-490 | the snapshot in memory is the answer of the latest successful trip |
| `JwkClient.JwkService.constructor` | src/jwk.rs:183-212 | a cold cache and an empty log |
| `JwkClient.JwkService.LookupFresh` | src/jwk.rs:429-437 | a hit is the first key with that `kid` in a snapshot younger than the TTL |
| `JwkClient.JwkService.LookupStale` | src/jwk.rs:412-426 | the same for a snapshot younger than the largest servable age |
| `JwkClient.JwkService.CacheIsFresh` | src/jwk.rs:441-447 | whether the snapshot is younger than the TTL |
| `JwkClient.JwkService.HasServable` | src/jwk.rs:398-407 | the readiness answer at its own reading of the clock |
| `JwkClient.JwkService.RefreshRecentlyFailed` | src/jwk.rs:371-376 | true exactly when the last trip of the log failed less than an interval ago |
| `JwkClient.JwkService.AllowRefreshOnMiss` | src/jwk.rs:454-464 | allowed exactly when the last trip of the log started an interval ago or there was none; the attempt is marked |
| `JwkClient.JwkService.FetchAndStore` | src/jwk.rs:467-490 | one more trip on the log, within the trip bound, and the cache is again what the log says |
| `JwkClient.JwkService.PublicKeyLocked` | src/jwk.rs:291-340 | at most one trip of its own, exactly one with the cache off; the answer is justified by the log at one moment of the call |
| `JwkClient.JwkService.PublicKey` | src/jwk.rs:276-341 | the same with other lookups in between; a key that stays fresh is a hit without a trip; without a fresh key the call makes its own trip unless the throttle interval was running during it, and then serves a key only if the last trip failed; with nothing in between it decides as the single-instant specification does |
| `JwkFlight.OnlyTheHolderWrites` | src/jwk.rs:285-289 | cache and log change only by steps of the task that holds the refresh lock |
| `JwkFlight.RunInv` | src/jwk.rs:276-341 | the invariant of any interleaving of lookups |
| `JwkFlight.SingleFlight` | src/jwk.rs:285-289 | with any number of lookups at most one trip is in flight, and all trips obey the trip bound |
| `JwkFlight.OneTripPerBurst` | src/jwk.rs:277-289 | in a burst for one `kid` on a cold cache whose first trip brings it, exactly one trip starts before the TTL runs out and every answer by then is that key |
| `JwkFlight.AnswersFounded` | src/jwk.rs:276-341 | every answer of any interleaving is justified by the log as it was then, and the log is a faithful history of the key service |
| `JwkFlight.InterleavedMisses` | src/jwk.rs:291-319 | in any interleaving a lookup answered without a fresh key made its own trip, unless the throttle interval was still running after it began, and then it serves a key only if the last trip failed |
| `JwkFlight.NoDeadlock` | src/jwk.rs:285-289 | in any interleaving, while a lookup is unanswered some lookup can take a step |
| `JwkFlight.FreshHitAnswers` | src/jwk.rs:277-280 | a fresh hit is answered at once, whoever holds the lock |
| `JwkFlight.InterleavedLookupsAreDirect` | src/jwk.rs:276-341 | while the key service holds one key set, every answer about a key in any interleaving is the direct lookup, any other the error of the lookup's own trip; if it never fails, every answer is the direct lookup |
| `JwkFlight.InterleavedStaleness` | src/jwk.rs:384-437 | in any interleaving a removed key is not served one latency plus TTL plus grace later, and the grace counts only after a failed trip |
| `JwkFlight.OffMeansOwnTrip` | src/jwk.rs:277-341 | with a TTL of zero every lookup answered in any interleaving made the last trip of its log itself, for its own key |
| `Base32.Base32Decode` | src/auth.rs:114-136 | the 64-bit shift register yields exactly the whole bytes of the concatenated five-bit symbols, or nothing when a character is not accepted |
| `Base32.RegisterEmit` | src/auth.rs:126-132 | a byte read from a register that has overflowed is still the right eight bits of all symbols so far |
| `Base32.RoundTrip` | src/auth.rs:114-136 | any text that equals an encoding up to case, whitespace and padding decodes to the encoded bytes |
| `Base32.DecodesIff` | src/auth.rs:120-125 | a text decodes iff every character is accepted |
| `Base32.AcceptedIff` | src/auth.rs:121-125 | the accepted characters, for ASCII the documented alphabet, beyond it those the byte cast lets in |
| `Text.WhitespaceExact` | src/auth.rs:121 | the twenty-five characters that count as whitespace |
| `Text.TrimExact` | src/rate_limit.rs:149-151 | trimming takes off the whitespace at both ends and nothing else |
| `Base32.WideCharacterAccepted` | src/auth.rs:124-125 | a concrete character outside the alphabet that reads as a letter |
| `Totp.TruncateMeaning` | src/auth.rs:165-170 | truncation stays inside the digest, is below 2^31 and is the low 31 bits of the four bytes at the offset |
| `Totp.CodeShape` | src/auth.rs:172-173 | whenever the digest can be built there is a code: exactly `digits` decimal digits, whose value is the low 31 bits of the digest at the offset modulo 10^digits |
| `Totp.HotpIff` | src/auth.rs:151-174 | a text is the computed code iff it has that form, and there is none only without a digest |
| `Totp.CounterBytesExact` | src/auth.rs:162 | different counters are different HMAC messages |
| `Totp.Validate` | src/auth.rs:306-328 | accepts iff for some active secret and some 64-bit counter at most `skew` from the current one there is a digest and the presented text is its code in that form |
| `Totp.WindowSpan` | src/auth.rs:312-314 | the seconds during which a counter is accepted, also where the window is cut off at zero |
| `Totp.ReplayWindowExact` | src/auth.rs:295-297 | the computed retention is step times (2 skew + 1) iff that fits into 64 bits |
| `Totp.ShareCounterIff` | src/auth.rs:289-328 | two moments share an accepted counter iff they are at most 2 skew steps apart |
| `Totp.RetentionSuffices` | src/auth.rs:289-297 | validations a retention apart are never justified by the same secret and counter |
| `Totp.RetentionNeeded` | src/auth.rs:289-297 | a counter is accepted at two moments only one second short of the retention apart |
| `Replay.AuthMiddleware.ClaimTotpCode` | src/redis.rs:440-463 | one command: an answer exactly when it met no fault and the lifetime is positive; yes means a new reservation, no that the fingerprint was stored, an error that it may or may not have taken effect |
| `Replay.AuthMiddleware.Call` | src/auth.rs:544-588 | let through iff the code validates and was not found reserved; a reservation is tried exactly for a validated code with the protection on and a fingerprint; unless its command met a fault or the retention is zero, a stored fingerprint is refused and a free one reserved; reservations are of validated codes only and a retention apart, over every run |
| `Replay.NoSharedCounter` | src/auth.rs:289-297 | two requests let through on one code are a retention apart and, with no longer hold-up, justified by no common secret and counter |
| `Replay.ReplayIff` | src/auth.rs:556-588 | for any usable code, two requests held up `li` and `lj`, the second ending within 64-bit seconds, can be let through on one counter in a sound log iff `li < lj` |
| `Replay.LatencyReplay` | src/auth.rs:556-588 | for every such pair with `li < lj`, a sound log of two genuine reservations that one secret and counter justify both |
| `Replay.LiveExact` | src/redis.rs:440-463 | a fingerprint is stored exactly while one of its reservations is not over |
| `RateLimit.PrefixMatchNumeric` | src/rate_limit.rs:126-138 | the masked comparison holds iff the addresses as numbers agree after division by the size of the range |
| `RateLimit.PrefixMatchLaws` | src/rate_limit.rs:126-138 | matching is an equivalence and a shorter prefix accepts more |
| `RateLimit.MaskDivides` | src/rate_limit.rs:136-137 | octets agree under the mask iff they agree without their low bits |
| `RateLimit.ParsedRange` | src/rate_limit.rs:148-167 | `a/p` with any whitespace around its parts is accepted iff both read and `p` fits the canonical address, and is then exactly the addresses of that family that agree in the first `p` bits |
| `RateLimit.ParsedAddress` | src/rate_limit.rs:148-167 | an address alone, with any whitespace around it, is the range of just its canonical form, and other text is none |
| `RateLimit.ContainsExact` | src/rate_limit.rs:169-176 | a range contains the addresses of its family that agree with it after division by its size |
| `RateLimit.CanonicalExact` | src/rate_limit.rs:101-109 | a mapped address becomes the IPv4 address in its last four octets, every other address stays |
| `RateLimit.WholeAddress` | src/rate_limit.rs:154-165 | a range without a prefix length contains exactly its own address |
| `RateLimit.IsTrustedIff` | src/rate_limit.rs:180-182 | an address is trusted iff some range of the list contains it |
| `RateLimit.GroupV6` | src/rate_limit.rs:114-123 | clearing octets in place leaves the first seven and zeros |
| `RateLimit.GroupExact` | src/rate_limit.rs:114-123 | IPv4 addresses stay; of an IPv6 address seven octets stay and nine become zero |
| `RateLimit.GroupIsPrefix56` | src/rate_limit.rs:111-123 | two IPv6 peers share a key iff they match at prefix 56 |
| `RateLimit.ForwardedAddress` | src/rate_limit.rs:185-196 | an entry that is an address, with any whitespace around it, reads as its canonical form; without a colon other text reads as nothing |
| `RateLimit.ForwardedPort` | src/rate_limit.rs:185-196 | any other entry reads as the canonical form of the address before its last colon, if there is one |
| `RateLimit.ClientFromForwarded` | src/rate_limit.rs:204-221 | the nested loops and the search yield the rightmost untrusted address, else the leftmost |
| `RateLimit.ResolveKeyIp` | src/rate_limit.rs:226-239 | the key of a peer and its header is the specified one |
| `RateLimit.PeersShareKeyIff` | src/rate_limit.rs:226-239 | where the header is not believed or shows no address, requests share a key iff their canonical peers are one IPv4 address or in one /56 |
| `RateLimit.AllTrustedLeftmost` | src/rate_limit.rs:215-220 | when every address of a believed header is trusted, the key is the group of the leftmost |
| `RateLimit.KeyOfLine` | src/rate_limit.rs:204-239 | from the header text: the key is the group of the address of an untrusted entry when every address right of it, in its line and in later lines, is trusted |
| `RateLimit.KeyIsRightmostUntrusted` | src/rate_limit.rs:198-239 | the key of a believed header is the group of its rightmost untrusted address |
| `RateLimit.TrustedHopsIgnored` | src/rate_limit.rs:198-221 | trusted hops inserted anywhere never move the key of a request that shows an untrusted address |
| `RateLimit.ForgedEntriesIgnoredIff` | src/rate_limit.rs:223-239 | prepended entries never move the key iff the peer is untrusted or the rest holds an untrusted address |
| `RateLimit.ForgedTextIgnored` | src/rate_limit.rs:204-239 | the same for arbitrary whole header lines and arbitrary text of the line written before the part the proxies append |
| `TokenText.ValidateCustomClaims` | src/models/jwt.rs:224-257 | accepted iff empty, or within both limits and free of reserved names |
| `TokenText.FlattenInvertibleIff` | src/models/jwt.rs:173-205 | a payload reads back as its claims iff no custom claim has a reserved name; otherwise it does not read at all |
| `TokenText.ReadsIff` | src/models/jwt.rs:173-205 | a payload reads iff each registered claim is given once and has its type; the claims are then those values and the other members |
| `TokenText.IssuedPayloadReadsBack` | src/models/jwt.rs:283-368 | whatever claims an issue request gets through, the payload reads back as them |
| `TokenText.IssueThenVerify` | src/models/jwt.rs:589-707 | a signed token whose key still resolves verifies to its own header and claims iff its algorithm is supported, its type is JWT, its key set address is the current one and the claims are live; otherwise it is not valid |
| `TokenText.RefusedWith` | src/models/jwt.rs:632-707 | not valid iff the token is signed and its claims read, bad signature iff its key does not resolve or a readable signature does not verify, broken for the rest |
| `TokenText.DigestsAgree` | src/models/jwt.rs:595-602 | signing and verifying take the digest the algorithm is named after, none for EdDSA |
| `TokenText.SegmentsAround` | src/models/jwt.rs:639-644 | text after the third segment is ignored and two segments are not enough |
| `TokenText.AcceptedWasIssued` | src/models/jwt.rs:632-707 | with keys that verify issued signing inputs only, whatever is accepted is the header and claims of an issued token, with a supported algorithm, type JWT, the current key set address and live claims |
| `TokenText.RegistersWhatWasIssued` | src/jwt.rs:190-209 | the family registration reads the claims of the token just issued |

## Left out

- HTTP routing, request and response bodies, error mapping, the other access levels, logging, metrics, tracing.
- OpenSSL, base64url, JSON and UUID internals: function parameters with laws, and fresh names.
- The token bucket of the limiter: its code belongs to a library; only the choice of its key is modelled.
- Private-key selection and the reconstruction of OpenSSL keys (`src/key.rs`, `src/jwk.rs:494-604`): case tables over foreign calls.
- Reading settings from the environment: settings are parameters, with the bounds the readers enforce.
- Clock skew between the service and Redis, and requests cancelled half-way: one clock, and a request runs on or ends with an error.
- Eviction of keys by Redis under memory pressure, and integer overflow of lifetimes in Redis.
- Order of members inside a ZSET: `ZRANGE` is a set, since it only feeds one `DEL`.
- Duplicate names among custom claims: a JSON object of the source holds each name once.
- RedisStore.RedisClient.Interfere: the body only lets time pass; what callers rely on is its contract, which allows any legal steps of other requests.
- ProtocolRevocation.RevocationIsFinal: excepts a refresh token in the last, partial second of its record, and does not cover an exchange that read its record before the sweep, because the code lets both through (`StoreFacts.LastSecondSurvivor`, `ProtocolSeal.SweptTokenExchanges`).
- ProtocolSubject.KeptMembersDie: the same exceptions, for the same reason.
- ProtocolRevocation.SeenMembersDie: does not cover an exchange that read its record before the sweep, for the same reason.
- ProtocolSeal.SealedIff: counts deletion of a key by name among what clients can do, so a marked record does not stop an exchange that has read it.
- Replay.AuthMiddleware.Call: no request deletes a stored fingerprint; `DELETE /tokens/{jti}` with the name of such a key in place of a `jti` would.
- Replay.NoSharedCounter: a request let through while the store is unavailable is not protected, by design of the source (`src/auth.rs:574-585`).
