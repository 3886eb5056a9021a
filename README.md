# Idempotency token guard over a Redis store, in Dafny

This project models the core of a Spring Boot / Redis demo application. It covers:

- **the token guard** of `TokenServiceImpl`. `createToken` turns a UUID into a token and stores the token under itself for 10000 seconds. `checkToken` reads the token from the `token` header, or from the `token` parameter when the header is empty. It refuses a request with no token, then a token the store does not hold ("重复请求"). Otherwise it deletes the key, and del's own answer decides whether the request passes ("token delete fail" if not).
- **the string/key layer of `RedisUtils`**. `RedisUtils.RedisStore` is a class whose fields are the server's keys (value plus an optional absolute deadline), its clock, and whether the server is reachable. A ghost `trace` records every command the wrapper sends. Each wrapper method keeps its own local logic: `time > 0` selects SETEX, `del` branches on the key count, `get(null)` short-circuits, and a swallowed exception becomes `false` or `null`. The methods without a try/catch return `Raised` when the call throws.
- **concurrent checks** (`GuardInterleaving`). Any number of `checkToken` calls run against one store, each as its two atomic store steps: probe, then delete. Keys may expire and the connection may drop between any two steps. This is the race the comment in `checkToken` warns about.
- **`RedisConfig`**: the cache key generator (simple class name, `:`, method name, `:`, then each non-null argument's JSON with `:` replaced by `=`), and the cache TTL table (300/400/500 seconds for three named caches, 600 for all others).

`RedisStore.AdvanceClock` models the server clock: time passes and expired keys vanish. `RedisStore.SetReachable` models an outage beginning or ending. Both are environment steps, not wrapper methods. The random UUID is an input to `CreateToken`. `JSON.toJSONString` is the function parameter `toJson`. `getClass().getSimpleName()` and `method.getName()` are string inputs.

Two consequences of the code are worth stating:

- `hasKey` turns a store failure into `false`, so an outage already in effect when `hasKey` runs is reported as "重复请求". An outage that begins between `hasKey` and `del` surfaces as `del`'s exception (`StoreFailure`, `GuardInterleaving.OutageAfterProbeRaises`). The uninterrupted `TokenService.Guard` never returns `StoreFailure`.
- An expired key and a key consumed by a concurrent call end in the same two errors: "重复请求" at the probe, "token delete fail" at the delete.

## Model

| member | source | states |
|---|---|---|
| `RedisUtils.RedisStore.Set` | src/main/java/com/dw/study/utils/RedisUtils.java:44-52 | stores the value without expiry and answers true when the server is reachable; otherwise answers false and changes nothing; sends one SET |
| `RedisUtils.RedisStore.SetWithTime` | src/main/java/com/dw/study/utils/RedisUtils.java:62-74 | as written: a positive time stores the value with deadline now+time, a non-positive time stores it without expiry; answers true whenever the time is non-positive, even if nothing was stored |
| `RedisUtils.RedisStore.SetWithTimeReported` | src/main/java/com/dw/study/utils/RedisUtils.java:62-74 | corrected: the same store change, answering true exactly when the write happened |
| `RedisUtils.SetWithTimeDuringOutage` | src/main/java/com/dw/study/utils/RedisUtils.java:62-74 | with time <= 0 during an outage, the as-written wrapper answers true, the corrected one false, and the key is not stored |
| `RedisUtils.RedisStore.GetAndSet` | src/main/java/com/dw/study/utils/RedisUtils.java:83-91 | returns the previous value (null if none) and leaves the new value stored without expiry; on failure returns null and changes nothing |
| `RedisUtils.RedisStore.SetIfAbsent` | src/main/java/com/dw/study/utils/RedisUtils.java:100-107 | writes and answers true exactly when the server is reachable and the key is absent; otherwise false with the store unchanged |
| `RedisUtils.RedisStore.Get` | src/main/java/com/dw/study/utils/RedisUtils.java:166-168 | a null key gives null without any command; otherwise GET's value, or null for a missing key, or a propagated failure |
| `RedisUtils.RedisStore.MultiGet` | src/main/java/com/dw/study/utils/RedisUtils.java:176-181 | a null or empty collection gives null without any command; otherwise one value-or-null per key in order, or a propagated failure |
| `RedisUtils.RedisStore.Del` | src/main/java/com/dw/study/utils/RedisUtils.java:189-202 | a null or empty list answers false with no command and no change; otherwise the listed keys are removed and nothing else changes, and the answer is the single key's removal or "count > 0" |
| `RedisUtils.DeleteKeys` | src/main/java/com/dw/study/utils/RedisUtils.java:191-198 | after DEL, a key is present iff it was present and not listed; surviving keys keep their entries |
| `RedisUtils.PresentCount` | src/main/java/com/dw/study/utils/RedisUtils.java:194-195 | the count the batch DEL reports is positive iff some listed key is present |
| `RedisUtils.DelReply` | src/main/java/com/dw/study/utils/RedisUtils.java:191-198 | both branches of `del` answer true iff at least one listed key was present |
| `RedisUtils.RedisStore.HasKey` | src/main/java/com/dw/study/utils/RedisUtils.java:210-217 | answers whether the key is present; a store failure answers false instead of raising |
| `RedisUtils.Remaining` | src/main/java/com/dw/study/utils/RedisUtils.java:225-227 | in a store whose deadlines all lie ahead, TTL answers -2 exactly for a missing key, -1 exactly for a key without expiry, and a positive number exactly for a key with a deadline |
| `RedisUtils.RedisStore.GetKeyExpire` | src/main/java/com/dw/study/utils/RedisUtils.java:225-227 | -1 exactly for a key without expiry, -2 exactly for a missing key, otherwise the positive seconds left; failures propagate |
| `RedisUtils.RedisStore.ExpireKey` | src/main/java/com/dw/study/utils/RedisUtils.java:236-246 | time <= 0: true with no command and no change; time > 0: the key's deadline becomes now+time if present; answers true unless the command throws |
| `RedisUtils.Purge` | src/main/java/com/dw/study/utils/RedisUtils.java:62-69 | once the clock passes a deadline, that key is gone; all other entries are kept unchanged |
| `RedisUtils.WrittenKeyExpires` | src/main/java/com/dw/study/utils/RedisUtils.java:62-69 | a key written with a positive TTL survives exactly while less than the TTL has elapsed; keys without expiry survive |
| `RedisUtils.RedisStore.AdvanceClock` | src/main/java/com/dw/study/utils/RedisUtils.java:62-69 | environment step: the clock moves forward and exactly the keys whose deadline has been reached disappear, so every deadline still lies ahead |
| `RedisUtils.RedisStore.SetReachable` | src/main/java/com/dw/study/utils/RedisUtils.java:44-52 | environment step: the server becomes reachable or unreachable; while unreachable every command throws, which the try/catch blocks turn into `false` or `null` |
| `TokenService.StripDashes` | src/main/java/com/dw/study/ApiIdepotent/service/TokenServiceImpl.java:27 | the token is never longer than the UUID text |
| `TokenService.StripDashesDropsDashCount` | src/main/java/com/dw/study/ApiIdepotent/service/TokenServiceImpl.java:27 | the token is shorter than the text by exactly its number of dashes |
| `TokenService.StripDashesRemovesAll` | src/main/java/com/dw/study/ApiIdepotent/service/TokenServiceImpl.java:27 | the token contains no `-` |
| `TokenService.StripDashesConcat` | src/main/java/com/dw/study/ApiIdepotent/service/TokenServiceImpl.java:27 | removing dashes works piecewise over concatenation |
| `TokenService.StripDashesKeepsDashFree` | src/main/java/com/dw/study/ApiIdepotent/service/TokenServiceImpl.java:27 | text without a dash is unchanged |
| `TokenService.StripDashesIdempotent` | src/main/java/com/dw/study/ApiIdepotent/service/TokenServiceImpl.java:27 | stripping twice is stripping once |
| `TokenService.CanonicalUuidToken` | src/main/java/com/dw/study/ApiIdepotent/service/TokenServiceImpl.java:27 | the token of a canonical UUID is its five hex groups joined: 32 hex digits |
| `TokenService.SelectToken` | src/main/java/com/dw/study/ApiIdepotent/service/TokenServiceImpl.java:35-42 | a non-empty header is used, otherwise a non-empty parameter, otherwise no token; a selected token is never empty |
| `TokenService.ProbeStore` | src/main/java/com/dw/study/ApiIdepotent/service/TokenServiceImpl.java:35-46 | the probe finds the token present iff one is selected, the store is reachable and holds the key |
| `TokenService.ConsumeStore` | src/main/java/com/dw/study/ApiIdepotent/service/TokenServiceImpl.java:48-55 | the delete step accepts iff the store is reachable and holds the key, removing exactly that key; any refusal leaves the store as it was; with the store reachable and the key gone, the refusal is the delete failure |
| `TokenService.Guard` | src/main/java/com/dw/study/ApiIdepotent/service/TokenServiceImpl.java:33-57 | an uninterrupted check ends in exactly one way: missing token (store unchanged), repeated request (store unchanged, also on outage), or acceptance (only the token's key removed); it never reports the delete failure or a store failure |
| `TokenService.HeaderTakesPriority` | src/main/java/com/dw/study/ApiIdepotent/service/TokenServiceImpl.java:35-38 | with a non-empty header, the parameter does not affect the outcome |
| `TokenService.AcceptedAtMostOnce` | src/main/java/com/dw/study/ApiIdepotent/service/TokenServiceImpl.java:44-56 | after an accepted check, any later check presenting the same token is a repeated request |
| `TokenService.ExpiredTokenRefused` | src/main/java/com/dw/study/ApiIdepotent/service/TokenServiceImpl.java:28-46 | once 10000 seconds have passed since the token was stored, a check presenting it is a repeated request |
| `TokenService.TokenServiceImpl.CreateToken` | src/main/java/com/dw/study/ApiIdepotent/service/TokenServiceImpl.java:26-30 | calls `set` with time 10000 and returns the UUID without dashes, stored under itself with deadline now+10000 and no other key changed (nothing stored on an outage); sends one SETEX |
| `TokenService.TokenServiceImpl.CheckToken` | src/main/java/com/dw/study/ApiIdepotent/service/TokenServiceImpl.java:33-57 | verdict and new store are those of the guard; no command without a token, EXISTS alone when absent, EXISTS then DEL when present |
| `TokenService.IssueThenCheckTwice` | src/main/java/com/dw/study/ApiIdepotent/service/TokenServiceImpl.java:26-57 | issue, check, check again: a 32-character token, first accepted, second a repeated request, key gone |
| `GuardInterleaving.Advance` | src/main/java/com/dw/study/ApiIdepotent/service/TokenServiceImpl.java:43-55 | a call's step always leaves the start state, a finished call stays finished, the probe never changes the store, and the store changes only when a delete accepts, removing just that token's key |
| `GuardInterleaving.Step` | src/main/java/com/dw/study/ApiIdepotent/service/TokenServiceImpl.java:49-52 | one event moves at most the running call; other calls' phases, and every finished call, stay as they were |
| `GuardInterleaving.RunAll` | src/main/java/com/dw/study/ApiIdepotent/service/TokenServiceImpl.java:49-52 | after any sequence of events a finished call still holds its verdict |
| `GuardInterleaving.SoloRunIsGuard` | src/main/java/com/dw/study/ApiIdepotent/service/TokenServiceImpl.java:43-56 | a call's two steps run back to back give exactly the sequential guard's verdict and store |
| `GuardInterleaving.AtMostOnce` | src/main/java/com/dw/study/ApiIdepotent/service/TokenServiceImpl.java:48-55 | under any interleaving of calls, expiries and outages, accepted calls for a token plus its presence never exceed one |
| `GuardInterleaving.FreshCallsAcceptAtMostOnce` | src/main/java/com/dw/study/ApiIdepotent/service/TokenServiceImpl.java:44-56 | any number of concurrent checks accept a token at most once |
| `GuardInterleaving.ExactlyOnce` | src/main/java/com/dw/study/ApiIdepotent/service/TokenServiceImpl.java:44-56 | with the store up and no expiry, concurrent checks of an issued token that all finish accept it exactly once; every other one is a repeated request or a delete failure |
| `GuardInterleaving.TwoStepRace` | src/main/java/com/dw/study/ApiIdepotent/service/TokenServiceImpl.java:48-55 | two calls both pass hasKey and the second deletes first: the first is refused with the delete failure, the second accepted |
| `GuardInterleaving.OutageAfterProbeRaises` | src/main/java/com/dw/study/ApiIdepotent/service/TokenServiceImpl.java:44-55 | a call that passed `hasKey` and then meets an outage ends with `del`'s exception, not "重复请求", and the token stays stored |
| `GuardInterleaving.UncheckedConsumeAcceptsTwice` | src/main/java/com/dw/study/ApiIdepotent/service/TokenServiceImpl.java:49-52 | a delete step that ignored del's answer would accept both racing calls; the real step refuses the second |
| `RedisConfig.ReplaceColons` | src/main/java/com/dw/study/config/RedisConfig.java:87 | same length; each `:` becomes `=`, every other character is kept |
| `RedisConfig.ArgsKeyConcat` | src/main/java/com/dw/study/config/RedisConfig.java:84-89 | argument contributions are concatenated in order with no separator |
| `RedisConfig.Contribution` | src/main/java/com/dw/study/config/RedisConfig.java:85-88 | a null argument adds nothing; any other adds text as long as its JSON and free of `:` |
| `RedisConfig.ArgsKey` | src/main/java/com/dw/study/config/RedisConfig.java:84-90 | the argument part of a key contains no `:` |
| `RedisConfig.NullArgumentIgnored` | src/main/java/com/dw/study/config/RedisConfig.java:85 | a null argument contributes nothing, wherever it stands |
| `RedisConfig.AllNullArgsKeyEmpty` | src/main/java/com/dw/study/config/RedisConfig.java:79-91 | with no arguments or only null ones the argument part is empty, so the key is `Class:method:` |
| `RedisConfig.NullPositionCollision` | src/main/java/com/dw/study/config/RedisConfig.java:84-90 | moving a null argument past any run of other arguments leaves the key unchanged, so argument lists differing only in where nulls stand collide |
| `RedisConfig.Generate` | src/main/java/com/dw/study/config/RedisConfig.java:78-92 | the key is the class-and-method prefix followed by the argument part; it starts with `Class:method:` and has no `:` after it |
| `RedisConfig.RedisCacheConfiguration` | src/main/java/com/dw/study/config/RedisConfig.java:126-139 | the configuration uses the given TTL and does not cache null values |
| `RedisConfig.ConfigFor` | src/main/java/com/dw/study/config/RedisConfig.java:112-115 | a named configuration wins for its cache, and a cache that is not named gets the defaults |
| `RedisConfig.DocumentedTtl` | src/main/java/com/dw/study/config/RedisConfig.java:107-113 | every TTL lies between 300 and the 600-second default, and the default applies exactly to the caches not named in the table |
| `RedisConfig.BuildCacheManager` | src/main/java/com/dw/study/config/RedisConfig.java:104-118 | exactly the three named caches are configured; every cache's TTL is the documented 300/400/500 seconds, or 600 by default; none caches null values |

## Left out

- `RedisUtils` string section: `multiSet`, `multiSetIfAbsent`, `append`, `increment(long)`, `renameKey` and `renameOldKeyIfAbsent` are not used by the guard. `multiSet`, `multiSetIfAbsent` and `append` only add `set`'s try/catch (a failure answers false). `multiSetIfAbsent` also discards MSETNX's answer and returns true even when nothing was written, the same pattern as the `set(key, value, time)` finding below. `increment(long)`, `renameKey` and `renameOldKeyIfAbsent` are bare delegations. `increment(double)` works on floating point.
- `RedisUtils` hash, list, set and geo sections: single delegations to server commands, and the geo part uses floating-point coordinates.
- Null keys are modelled only where the wrapper itself checks for them (`get`, the `del` array). Elsewhere keys are strings.
- Times and deadlines are unbounded integers. Overflow of Java's `long` is not modelled.
- `getKeyExpire` reports whole seconds left. The rounding the template applies when it converts TTLs to seconds is not modelled.
- Value serialisation is not modelled: a stored value is the Java value's text (the JSON serialiser would write a `String` as a quoted JSON string). Serialisers, connection factories and the `redisTemplate` bean are not modelled.
- TokenService.TokenServiceImpl.CheckToken: the class method runs its two store calls with nothing in between. The interleavings its comment warns about are modelled by `GuardInterleaving`, whose steps are the same `ProbeStore` and `ConsumeStore` functions the method is specified by.
- RedisUtils.RedisStore.Set: a failed command is taken to have had no effect on the server. A command the server applied but whose reply was lost (a time-out) is not modelled; `set` would then answer false with the key stored.
- RedisUtils.RedisStore.SetWithTime: as for `Set`, a failure changes nothing; a lost reply after the write is not modelled.
- RedisUtils.RedisStore.GetAndSet: as for `Set`, a failure changes nothing; a lost reply after the write is not modelled.
- RedisUtils.RedisStore.SetIfAbsent: as for `Set`, a failure changes nothing; a lost reply after the write is not modelled.
- RedisUtils.RedisStore.Del: a failure changes nothing. A DEL applied on the server whose reply was lost (the call throws with the key gone) is not modelled.
- RedisUtils.RedisStore.ExpireKey: as for `Set`, a failure changes nothing; a lost reply after the deadline was set is not modelled.
- TokenService.ConsumeStore: any refusal, including the store failure, leaves the store as it was; a lost-reply DEL is not modelled. In `GuardInterleaving` a `Lapse` step of the token's key followed by the delete reaches the same end state (key gone, call not accepted), so `AtMostOnce` covers that case.
- `GuardInterleaving` treats each store command as atomic, as Redis executes it. It has no step that re-issues a token that is already in use.
- `RedisLockUtil` (Redisson locks), the interceptor and its annotation lookup, the web configuration, the `ITokenService` interface and the demo controllers are not part of this model. They depend on library behaviour, reflection, sleeping or printing, or only call into the modelled guard.
- RedisCacheManager's own behaviour (creating caches on demand, serving entries) is not modelled. `ConfigFor` only captures "named configuration, else the defaults".

## Findings

| source | as written | input that shows it | evidently intended | confidence | as-written member | corrected member |
|---|---|---|---|---|---|---|
| src/main/java/com/dw/study/utils/RedisUtils.java:62-74 | for `time <= 0` it calls `set(key, value)`, discards the boolean that call returns (false on failure), and returns true | `time = 0` while the server is unreachable: answers true, nothing stored | return the result of the inner `set`, so `true` means the value was written | medium; not executed | `RedisUtils.RedisStore.SetWithTime`, shown by `RedisUtils.SetWithTimeDuringOutage` | `RedisUtils.RedisStore.SetWithTimeReported` (the variant callers should rely on; `CreateToken` passes a positive time, where both behave the same) |
