# BB-Oracle client core in Dafny

This project models the stateful core of BB-Oracle, a Python client for the Best Buy REST API. The core has three parts:

- **Token lifecycle** (`auth.py`, module `Authentication`). An `AuthManager` holds an optional JWT, which is a token string and a creation time. It answers whether a token is present. It computes the expiry, which is the creation time plus one hour plus an offset of -120 s, so 3480 s after creation. It decides expiry with a strict `>`. It replaces the JWT wholesale on refresh. It raises `JWTNotGenerated` when asked for the expiry or the token string while no token is present. The credentials holder `Auth` from `project.py` is modelled only as far as `_generate_jwt` uses it: `creds_loaded`, plus `load_credentials` with the file read as a parameter.
- **Request gate** (`api_manager.py`, module `Api`). An `APIManager` keeps the time of the last request and owns an `AuthManager`. Before each request it throttles and then refreshes the token when it is not authenticated. `send_request` then stamps the request time and hands the request to the transport.
- **URL builder** (`url_builder.py`, module `UrlBuilder`). A URL is `"https://api.bestbuy.com/"` followed by the path components joined with `"/"`. It is recompiled on every read of `url`.

`common.dfy` holds the shared types: `Option`, the `Error` kinds, `Result`, `Outcome`, and the clock unit.

Time is a whole number of milliseconds. `AuthManager` queries take the current time as `now`. `ApiManager` owns a `clock` field, and `time.sleep` advances it (`Advance`). External collaborators are parameters:

- The username/password exchange is `exchange: (string, string) -> Option<string>`. `None` means the exchange raised.
- The credentials file entry is `credsFile: Option<Creds>`. `None` means the read raised.
- The transport's outcome is `sentOk` (whether sending the request succeeded) or `reply` (the usage response, `None` when sending raised). A failed send raises a transport error.

Python exceptions become `Err`/`Raised` values.

The model follows what the code does, including four places that look unintended. Comments in the Dafny mark each one:

- The `JWT` constructor ignores its `creation_t` argument and stamps the current time (`NewJwt`).
- The throttle sleeps for the time already **elapsed** since the previous request, not for the time remaining to one second. As a result, requests are **not** kept one second apart: `ThrottleDoesNotSpaceRequests` shows this. A request made at the same instant as the previous one is not delayed at all.
- `is_expired` raises `JWTNotGenerated` when there is no token, instead of answering "expired".
- The expiry hard-codes one hour instead of reading `JWT_LIFE_LENGTH` (auth.py:38). The class docstring at auth.py:35 gives yet another formula.

## Model

| member | source | states |
|---|---|---|
| `Authentication.NewJwt` | auth.py:16-18 | The new JWT carries the given token, and its creation time is the current instant, not the `creation_t` argument. |
| `Authentication.NewJwtIgnoresCreationT` | auth.py:16-18 | Two JWTs built at the same instant with different `creation_t` arguments are equal. |
| `Authentication.Auth.constructor` | project.py:65-69 | Username and password start unset, so the credentials are not loaded. |
| `Authentication.Auth.CredsLoaded` | project.py:71-79 | True iff both the username and the password are set. |
| `Authentication.Auth.LoadCredentials` | project.py:81-92 | A failed read raises and leaves both fields unchanged. A successful read stores the file's username and password, and the credentials are then loaded. |
| `Authentication.AuthManager.constructor` | auth.py:40-50 | A fresh manager has no JWT, has `expireOffset == -120`, and has no token present. |
| `Authentication.AuthManager.JwtIsGenerated` | auth.py:52-60 | True iff a JWT is present, its token is not `None`, and the token is non-empty. |
| `Authentication.AuthManager.GetExpireTime` | auth.py:62-71 | Raises `JwtNotGenerated` exactly when no token is present (no JWT, a `None` token, or an empty one). Otherwise returns creation time + 3480 s, which is one hour plus the -120 s offset. |
| `Authentication.AuthManager.IsExpired` | auth.py:73-81 | Raises `JwtNotGenerated` exactly when no token is present, instead of answering true. Otherwise it is true iff `now` is strictly after the expiry, that is, more than 3480 s after creation. |
| `Authentication.AuthManager.GetTokenStr` | auth.py:117-127 | Succeeds exactly when a token is present, and then returns the JWT's non-empty token. Otherwise raises `JwtNotGenerated`. |
| `Authentication.ExpiryBoundary` | auth.py:69-81 | The token is not expired at exactly the expiry instant and is expired one millisecond later. For every time, the expiry answer is "strictly after the expiry". |
| `Authentication.AuthManager.GenerateJwt` | auth.py:106-115 | Loads credentials only when they are not loaded yet: already-loaded credentials are kept and the file is not read. A failed load raises the read error before any exchange and leaves the credentials as they were. The exchange is called with the stored username and password, and its result is returned; on success the credentials are loaded. |
| `Authentication.AuthManager.RefreshToken` | auth.py:91-104 | On success, installs a new JWT with the exchanged token and creation time `now`. On failure, raises the same error and leaves the JWT as it was. With a non-empty token, `GetTokenStr` then returns it and the token is not expired at `now`. The credentials are loaded from the file only if they were not loaded, and after a success they are loaded. |
| `Authentication.AuthManager.InitToken` | auth.py:83-89 | Same effect as a refresh, on the JWT and on the credentials. |
| `Api.Delay` | api_manager.py:31-43 | No sleep when there is no previous request. The sleep is always under one second, and any sleep equals the time elapsed since the previous request. When less than one second has elapsed, the sleep is exactly that elapsed time. |
| `Api.GapAfterDelay` | api_manager.py:38-43 | After the throttle, the gap since the previous request is twice the elapsed time when that was under one second. Otherwise the gap is unchanged. |
| `Api.ThrottleDoesNotSpaceRequests` | api_manager.py:38-43 | If less than half a second has elapsed, the gap after the throttle is still under one second. A request at the same instant as the previous one is not delayed. |
| `Api.ApiManager.constructor` | api_manager.py:27-28 | Sets the auth manager and no previous request time. |
| `Api.ApiManager.Create` | api_manager.py:24-29 | The constructor with paths, environment and auth manager passed: no previous request, then one refresh with no sleep. On success, the token exchanged at construction time is installed. On failure, construction raises that error and the JWT is unchanged. Credentials are loaded on demand, and after a successful construction they are loaded, so later refreshes do not read the file again. |
| `Api.ApiManager.Advance` | api_manager.py:43 | `time.sleep(d)` moves the clock forward by exactly `d`. |
| `Api.ApiManager.MaxFreqDelay` | api_manager.py:31-43 | The clock moves forward by exactly `Delay(lastReqTime, clock)`. `lastReqTime` is unchanged. |
| `Api.ApiManager.IsAuthenticated` | api_manager.py:62-69 | True iff the token string is available and the token is not expired at the current clock. The conjunction short-circuits, so it never raises. When true, the clock is at most 3480 s after the token's creation. |
| `Api.ApiManager.RefreshJwt` | api_manager.py:54-60 | Throttles, then refreshes at the clock it reached. On success, the new JWT is stamped with that clock. On failure, the JWT is unchanged. Credentials are loaded on demand. `lastReqTime` is never modified. |
| `Api.ApiManager.PreRequestRoutine` | api_manager.py:46-52 | Refreshes iff not authenticated after the first throttle. The refresh throttles a second time, and the clock moves forward by both delays. Raises only if that refresh raises. Without a refresh the JWT and the credentials are unchanged; with one, the JWT is the new token stamped at the clock reached (or unchanged on failure) and the credentials are loaded on demand. After success, the client is authenticated iff a token is present. `lastReqTime` is unchanged. |
| `Api.ApiManager.SendRequest` | api_manager.py:87-102 | The clock, the JWT and the credentials end as after the pre-request routine: one or two throttles from the old state, the token refreshed only when not authenticated after the first. If the routine raises, that error is returned and `lastReqTime` is unchanged. Otherwise `lastReqTime` is the clock reached after the routine, the send's outcome (done or a transport error) is returned, and the client is authenticated iff a token is present. |
| `Api.ApiManager.RequestUsage` | api_manager.py:72-85 | The clock, the JWT and the credentials end as after the pre-request routine. Returns the routine's error, or else the usage reply or a transport error. Never stamps `lastReqTime`. |
| `Api.BackToBackRequests` | api_manager.py:38-43 | Two requests sent with no time passing in between: the first is stamped at the clock reached after its routine, and when both get past their routines the second is stamped at the same instant, because its throttle sleeps for the zero time elapsed. |
| `UrlBuilder.BuildUrl` | url_builder.py:39-46 | The URL always starts with `https://api.bestbuy.com/`. No components give exactly that base. One component gives the base followed by that component. |
| `UrlBuilder.JoinLength` | url_builder.py:45 | Joining n ≥ 1 parts gives the sum of their lengths plus n−1 separators. |
| `UrlBuilder.SplitJoin` | url_builder.py:45 | Splitting a join on its one-character separator recovers the parts, when no part contains the separator. |
| `UrlBuilder.UrlLength` | url_builder.py:44-46 | For n ≥ 1 components, the URL length is 24 (the base) plus the component lengths plus n−1 slashes. |
| `UrlBuilder.UrlPathSplits` | url_builder.py:44-46 | For a non-empty list of components that contain no `/`, splitting the path after the base on `/` gives back the components. |
| `UrlBuilder.SearchContactUrl` | url_builder.py:10-12 | Components `search`, `contact` give `https://api.bestbuy.com/search/contact`. |
| `UrlBuilder.BestBuyUrlBuilder.constructor` | url_builder.py:26-30 | The components are the arguments, and the compiled URL is built from them. |
| `UrlBuilder.BestBuyUrlBuilder.SetPath` | url_builder.py:32-37 | Replaces the components with the arguments rather than appending to them. The stored URL is not recompiled. |
| `UrlBuilder.BestBuyUrlBuilder.CompileUrl` | url_builder.py:39-46 | Stores the URL built from the current components, which are unchanged. |
| `UrlBuilder.BestBuyUrlBuilder.Url` | url_builder.py:48-58 | Returns the URL of the current components, so a read reflects only the latest `SetPath`. The components are unchanged, so two reads in a row return the same string. |

## Left out

- Reading `paths.json`, the environment file and the credentials file (`Paths`, `Environment`, the file part of `Auth.load_credentials`) is I/O. The credentials read is the parameter `credsFile`: its value is the entry for the current environment, or `None` when the read raises.
- `Authentication.Auth.LoadCredentials` does not model a partial load. In the source, a file whose entry has a username but no password still sets the username before raising.
- The constructor of `APIManager` when `paths` or `env` is not passed: lines 25-26 then read `Paths` and `Environment` from files and may raise there, before any refresh. When no auth manager is passed, line 27 builds `AuthManager(Auth(...))` with no file read. `Create` models the call with all three passed.
- `Environment.get_environment` (project.py:130) passes an argument that `initialize_environment` does not accept. It is I/O either way and is not part of this model.
- Logging (`project_logging.py`) and the script entry point (`main.py`) are not part of this model.
- `user_name_pwd_authentication` is a foreign network call and is the parameter `exchange`.
- `lookup_requests.Usage` and `req_obj.send_request()` are network transport. They are the outcome parameters `reply` and `sentOk`. The request objects, their headers and the parsed JSON are not part of this model.
- `datetime.now()`, `time.sleep` and the float `total_seconds()` become an integer millisecond clock. Network calls and file reads take no time in the model.
- `Api.Delay` requires the previous request time to be no later than the current time. In the source, a wall clock that moved backwards makes the elapsed time negative, and `time.sleep` would raise. The model's clock never moves backwards.
- `Authentication.AuthManager`: `expire_offset` is a constant. In the source it is a public attribute that callers could reassign, but nothing in the repository does.
- `JWT_LIFE_LENGTH` (auth.py:38) is declared as `JwtLifeLength`. It is unused, as in the source.
- The docstring example at url_builder.py:6-7 passes a list as a single argument, which the join cannot handle. Components are modelled only as the sequence given to `SetPath` or to the constructor.
- The code is single-threaded, so no concurrency is modelled.
