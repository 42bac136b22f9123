# Weixin access-token cache and QR-login credential, in Dafny

This project models two pieces of the life-helper server.

- **The Weixin access-token cache** (`WeixinTokenService`). The server caches the token it needs for calls to the Weixin (WeChat) server API. It keeps the token in a key-value store under the single key `"weixin:token"`, with a lifetime. Three entry points use it:
  - `getToken` is cache-aside. It returns the cached token, or fetches a new one and caches it.
  - `refreshTokenInRedis` always fetches and overwrites.
  - A scheduled task refreshes the token unless two things hold: its remaining lifetime is above 1000 seconds, and a liveness probe with it succeeds.
- **The scan-to-login credential** (`QrcodeCredential`). This is the record behind a QR-code login ticket. It covers the integer status codes `CREATED=0`, `SCANNED=1`, `CONFIRMED=2`, `CONSUMED=3` and `INVALID=-1`, the field defaults of a new record, and the `invalid()` factory that answers "not found".

Files:

- `wrappers.dfy` (module `Wrappers`) holds three types. `Option` stands for a nullable Java reference. `Result` stands for a call that returns or throws. `Outcome` stands for a `void` call that returns or throws.
- `weixin_token.dfy` (module `WeixinToken`) models the cache policy.
  - The store is an immutable `map<string, Entry>`. An entry holds a value and its lifetime in seconds. A key whose lifetime has run out is simply absent.
  - Upstream calls are not made. Their answers are parameters:
    - `Fetch` is what the token endpoint answered: `Issued(accessToken, expiresIn)` or `FetchThrew`, where `FetchThrew` means the call threw any exception.
    - `Probe` is what the liveness probe did: `Completed` or `Threw`.
    - The timed task also receives the store's remaining-lifetime reading.
  - Each service method is a pure function that returns a `Step`. A `Step` holds the new store, the result, and whether a fetch and a probe happened.
  - `GetTokenRun` chains consecutive `getToken` calls. It is used to state the cache-aside promise across calls.
- `qrcode_credential.dfy` (module `QrcodeCredential`) models the credential record.
  - The status is a closed enumeration. `Code` and `FromCode` convert it to and from the integer codes.
  - The creation timestamp is a parameter, not a clock read.

## Model

| member | source | states |
|---|---|---|
| WeixinToken.CachedToken | src/main/java/com/inlym/lifehelper/external/weixin/WeixinTokenService.java:42-46 | Reads only key `"weixin:token"`. It returns the stored value when the key is live and null (`None`) otherwise. |
| WeixinToken.RefreshToken | src/main/java/com/inlym/lifehelper/external/weixin/WeixinTokenService.java:63-73 | Always fetches. On success, key `"weixin:token"` holds the fetched token with lifetime `expiresIn` seconds, and that token is returned. No other key changes. A failing fetch escapes before anything is written. |
| WeixinToken.RefreshIgnoresPriorEntry | src/main/java/com/inlym/lifehelper/external/weixin/WeixinTokenService.java:63-73 | A refresh's result, and the entry it caches, do not depend on what the store held before. |
| WeixinToken.GetToken | src/main/java/com/inlym/lifehelper/external/weixin/WeixinTokenService.java:53-56 | Fetches if and only if the key is absent. A present value, even the empty string, is returned as is, and the store is unchanged. On a miss, the fetched token is returned and cached with the upstream lifetime. A failed fetch is passed on and leaves the store as it was. A returned token is always the one the store holds afterwards. |
| WeixinToken.CheckTokenValid | src/main/java/com/inlym/lifehelper/external/weixin/WeixinTokenService.java:80-97 | The probe runs if and only if the cached token is present and non-empty. The result is true if and only if the probe ran and completed. A throwing probe yields false and is not passed on. The store is untouched and nothing is fetched. |
| WeixinToken.RefreshTimedTask | src/main/java/com/inlym/lifehelper/external/weixin/WeixinTokenService.java:103-114 | Requires a non-null lifetime reading. Refreshes if and only if the lifetime is at most 1000 or the liveness check is false. The probe never runs when the lifetime is at most 1000. With no refresh, the store is unchanged and the cycle returns normally. With a refresh, the store is the refreshed one, and only a failed fetch escapes. |
| WeixinToken.MissingTokenAlwaysRefreshes | src/main/java/com/inlym/lifehelper/external/weixin/WeixinTokenService.java:103-114 | With no token cached, a cycle fetches and never probes, whatever lifetime reading the store gives. |
| WeixinToken.TimedTaskThenGetToken | src/main/java/com/inlym/lifehelper/external/weixin/WeixinTokenService.java:103-114 | After a timed-task cycle that returns normally, a token is cached. The next `getToken` returns that token without fetching. |
| WeixinToken.GetTokenRun | src/main/java/com/inlym/lifehelper/external/weixin/WeixinTokenService.java:53-56 | Consecutive `getToken` calls give one result per call and fetch at most once per call. They change nothing but the token key. |
| WeixinToken.CachedRunNeverFetches | src/main/java/com/inlym/lifehelper/external/weixin/WeixinTokenService.java:53-56 | With a token cached, any number of `getToken` calls makes no fetch and leaves the store unchanged. Every call returns the cached token. |
| WeixinToken.EmptyCacheRunFetchesUntilSuccess | src/main/java/com/inlym/lifehelper/external/weixin/WeixinTokenService.java:53-73 | From an empty cache, consecutive `getToken` calls fetch until one fetch succeeds, and never after. Calls before it report the failure. Every call from it on returns that same token, which is the one left cached. |
| QrcodeCredential.Code | src/main/java/com/inlym/lifehelper/login/scanlogin/pojo/QrcodeCredential.java:53-68 | The code of `CREATED`, `SCANNED`, `CONFIRMED` or `CONSUMED` is its position in the lifecycle (0 to 3). `INVALID` gets the only negative code, -1. |
| QrcodeCredential.FromCode | src/main/java/com/inlym/lifehelper/login/scanlogin/pojo/QrcodeCredential.java:53-68 | Decoding is defined exactly on -1, 0, 1, 2 and 3. A code decodes to a status if and only if that status encodes to it. |
| QrcodeCredential.CodeRoundTrip | src/main/java/com/inlym/lifehelper/login/scanlogin/pojo/QrcodeCredential.java:53-68 | Encoding a status and then decoding it gives the status back. |
| QrcodeCredential.CodeOrder | src/main/java/com/inlym/lifehelper/login/scanlogin/pojo/QrcodeCredential.java:54-67 | The five codes are pairwise distinct. They increase along the lifecycle, and `INVALID` is below every lifecycle code. |
| QrcodeCredential.NewCredential | src/main/java/com/inlym/lifehelper/login/scanlogin/pojo/QrcodeCredential.java:17-39 | A new credential has status `CREATED` (code 0) and its creation time is the construction timestamp. It has no ticket, no URL, user 0, and no scan, confirm or consume time. |
| QrcodeCredential.InvalidCredential | src/main/java/com/inlym/lifehelper/login/scanlogin/pojo/QrcodeCredential.java:46-50 | `invalid()` has status `INVALID` (code -1) and no ticket, user, or scan, confirm or consume time. Setting its status back to `CREATED` gives exactly the fresh credential, so only the status differs. |

## Left out

- The key-value store and the HTTP client are not called. The store is a map. Fetch results, probe outcomes and the lifetime reading are parameters.
- Expiry over time is the store's job, so it is not modelled: an expired key is simply absent. The store's special lifetime readings for a missing key and for a key with no expiry are not modelled either.
- WeixinToken.RefreshToken: a non-positive `expiresIn` is cached as given. The store would refuse to write such a lifetime, and that refusal is not modelled. The same difference carries over to WeixinToken.GetToken, WeixinToken.RefreshTimedTask, WeixinToken.TimedTaskThenGetToken, WeixinToken.MissingTokenAlwaysRefreshes and WeixinToken.EmptyCacheRunFetchesUntilSuccess: with such a lifetime they report a cached token where the program would throw at the write and the next `getToken` would fetch again.
- A token endpoint that answers with a null token or a null lifetime is not modelled. A fetch either issues a token or fails.
- A store that is unreachable is not modelled. Neither is logging.
- The ten-minute schedule of the timed task is not modelled. Neither are races between concurrent `getToken` callers and the refresher, which depend on the framework and the store. `GetTokenRun` describes sequential calls only.
- The probe's own request is not modelled. It is an unrelated upstream call whose only role here is to complete or throw.
- Ticket transitions (scan, confirm, consume/poll) are not modelled. Neither are ticket lifetimes or exactly-once consumption. The credential record does not define them, and the code that does is not part of this model.
- The credential's generated getters, setters and equality are not modelled. In the record, the status is one of the five statuses, not an arbitrary `int`.
- The clock read for the creation time is not modelled. The timestamp is a parameter.
- The WeChat code-login pipeline, the weather controller, the place mapper, the location DTO and the client-IP annotation are not modelled. They are framework glue or calls into services that are not part of this model.
- WeixinToken.RefreshTimedTask: only the probe's exception is caught. A failing refresh escapes the cycle, so the function returns `Fail`. How the scheduler handles that exception is not modelled.
