# Weather average API: the TTL cache and the request-side cache rules

This project models the part of the weather backend that has real logic:

- **The process-local TTL cache.** `InMemoryTTL` is a dictionary from key to (expiry, value). `set` stamps `now + (ttl or default)`. `get` returns the value while `now` has not passed the expiry. A row found stale is popped on read.
- **The local path of the `Cache` facade.** Here `aget` is the local `get`, and `aset` applies `ttl or default_ttl` and calls the local `set`.
- **Two versions of the request handler `get_average_weather`:**
  - `app/main.py` checks the configurable days cap and uses the key `avg:<city.lower()>:<days>`. A result lives 120 seconds.
  - `app/weather.py` has no cap. Its key is `avg:v1:<COUNTRY>:<city stripped, lower-cased>:<days>:end=<yesterday>`, so the key rolls over once a day. A result lives 1800 seconds.
- **The flow both handlers share:** read the cache, answer a hit without computing, compute on a miss, store the result and answer it. A `ValueError` from the aggregation maps to 400 with its message. Any other failure maps to 502 with a fixed detail.

Modules (one per concern; every file is part of one Dafny program):

| file | module | models |
|---|---|---|
| wrappers.dfy | `Wrappers` | `Option` (Python `None` or a value) |
| text.dfy | `Text` | `str.lower`, `str.upper`, `str.strip`, `str(int)`, zero-padded numerals |
| calendar.dfy | `Calendar` | `datetime.date` values and `date.isoformat()` |
| cache.dfy | `TtlCache` | `InMemoryTTL` and `Cache` (classes over a `map`), with the store semantics as functions |
| api.dfy | `Api` | the response body, the aggregation outcome, HTTP responses, the shared error mapping |
| main_handler.dfy | `MainHandler` | `get_average_weather` of `app/main.py` |
| weather_handler.dfy | `WeatherHandler` | `get_average_weather` of `app/weather.py` |

Modelling choices:

- **The clock.** `time.time()` becomes an integer instant. A handler reads the clock twice, so it takes two instants: `now` for the cache read and `later` for the cache write.
- **The anchor date.** `dt.date.today() - dt.timedelta(days=1)` is supplied by the caller as `yesterday`, a valid calendar date.
- **`compute_average_temperature`** is a function-typed parameter. It returns `Computed(canonical, average)`, `ValueError(message)` or `OtherError`. Because it is a pure oracle, "the aggregation is not invoked on a hit" is stated this way: the answer on a hit is the same for every oracle.
- **Truthiness of a cached value.** The cached value is always a three-field payload dict, which Python treats as true. So `if cached:` is exactly "the cache returned a value".
- **Shared error mapping.** Both handlers map errors through one function, `Api.ErrorResponse`.
- **The average.** The average temperature is a `real` that is only carried, never computed.

Points where the code is not what a reader might expect, and what the model does:

- **The days cap.** `app/main.py:52` reads `settings.max_days`, but `app/settings.py` defines no such field (`app/schemas.py:6` reads it too). The cap is therefore an `Option<int>` parameter. `None` and `0` both disable it, as `settings.max_days and settings.max_days > 0` does.
- **The two handlers' keys differ.** The key in `app/main.py:55` only lower-cases the city and has neither country nor date anchor. The key in `app/weather.py:35` strips and lower-cases the city and carries the upper-cased country and yesterday's date. Each handler is modelled with its own key.
- **`app/weather.py` is a second copy of the handler.** It imports `compute_average_temperature` from itself (`app/weather.py:7`). The aggregation is not part of this model.

## Model

| member | source | states |
|---|---|---|
| `TtlCache.EffectiveTtl` | app/cache.py:23 | `ttl or default`: the given ttl unless it is `None` or `0` (its cases are in `SetStamps`) |
| `TtlCache.Lookup` | app/cache.py:13-20 | what `get` returns, as a function of the store and the instant (its properties are in the lemmas below) |
| `TtlCache.AfterGet` | app/cache.py:13-20 | the store `get` leaves: a stale row popped, otherwise unchanged |
| `TtlCache.AfterSet` | app/cache.py:22-23 | the store `set` leaves: the key overwritten with its new expiry and value |
| `TtlCache.InMemoryTtl.constructor` | app/cache.py:9-11 | a new cache keeps the given default ttl and an empty store |
| `TtlCache.InMemoryTtl.Get` | app/cache.py:13-20 | returns the stored value exactly when the key is present and `now <= expiry`; pops the key when its row is stale and otherwise leaves the store as it was |
| `TtlCache.InMemoryTtl.Set` | app/cache.py:22-23 | the key maps to `(now + (ttl or self.ttl), value)` and every other key is as before |
| `TtlCache.Cache.constructor` | app/cache.py:26-28 | the facade's local backend is fresh, empty and built with the facade's default ttl |
| `TtlCache.Cache.AGet` | app/cache.py:36-40 | without a shared backend, `aget` has exactly the result and the effect of the local `get` |
| `TtlCache.Cache.ASet` | app/cache.py:42-48 | without a shared backend, `aset(k, v, ttl)` leaves the store as `local.set(k, v, ttl or default_ttl)` leaves it, which is also what `local.set(k, v, ttl)` leaves |
| `TtlCache.GetMissing` | app/cache.py:14-15 | a key never set reads as `None` and the read leaves the store unchanged |
| `TtlCache.SetThenGet` | app/cache.py:17-23 | after `set(k, v, ttl)` at `t`, a `get(k)` at any `now <= t + ttl` returns exactly `v` and changes nothing |
| `TtlCache.ExpiryBoundary` | app/cache.py:17 | the expiry instant itself still returns the value (the comparison is strict); the next instant returns `None` |
| `TtlCache.StaleGetEvicts` | app/cache.py:17-19 | a read at `now > expiry` returns `None` and removes exactly that key |
| `TtlCache.GetTouchesOnlyItsKey` | app/cache.py:13-20 | a read never adds keys and never changes any key other than the one read |
| `TtlCache.LiveGetUnchanged` | app/cache.py:13-20 | a read that returns a value leaves the store unchanged |
| `TtlCache.GetIdempotent` | app/cache.py:13-20 | reading twice at the same instant returns the same result and leaves the same store as reading once |
| `TtlCache.AbsentStaysAbsent` | app/cache.py:17 | once a key reads as absent it stays absent at every later instant, before or after the eviction |
| `TtlCache.SetStamps` | app/cache.py:22-23 | `set` stores expiry `t + ttl` for a non-zero ttl, `t + default` for `None` or `0`, and leaves other keys unchanged |
| `TtlCache.SetOverwrites` | app/cache.py:23 | a second `set` on a key replaces both its expiry and its value, so a later `get` returns the new value or nothing, never the old one |
| `TtlCache.EffectiveTtlIdempotent` | app/cache.py:43-48 | applying `ttl or default` a second time with the same default changes nothing, so the facade's defaulting and the local one agree |
| `TtlCache.LookupOtherKey` | app/cache.py:13-23 | two stores that differ at most under one key read alike under every other key |
| `Text.Lower` | app/main.py:55 | `str.lower` keeps the length and lower-cases each character (ASCII letters) |
| `Text.Upper` | app/weather.py:35 | `str.upper` keeps the length and upper-cases each character (ASCII letters) |
| `Text.LowerCharAgree` | app/main.py:55 | two characters lower-case alike iff they are equal or are the upper and lower case of one ASCII letter (32 code points apart) |
| `Text.LowerIdentifiesCaseVariants` | app/main.py:55 | two strings lower-case to the same string iff they have equal length and agree position by position up to the case of ASCII letters |
| `Text.UpperIdentifiesCaseVariants` | app/weather.py:35 | two strings upper-case to the same string iff they differ only in letter case |
| `Text.Strip` | app/weather.py:35 | `str.strip` returns a string with no whitespace at either end |
| `Text.StripShape` | app/weather.py:35 | `strip` removes only whitespace, and only from the two ends; what it keeps is one contiguous piece of the input |
| `Text.StripOf` | app/weather.py:35 | a trimmed string framed by any whitespace strips to exactly itself |
| `Text.StripIgnoresSurroundingSpace` | app/weather.py:35 | adding whitespace around a string does not change what `strip` returns |
| `Text.LowerStripCommute` | app/weather.py:35 | lower-casing then stripping gives the same result as stripping then lower-casing |
| `Text.NatToString` | app/main.py:55 | `str(n)` for `n >= 0` is a non-empty run of digits with no leading zero |
| `Text.ParseNatToString` | app/main.py:55 | reading back the decimal numeral of `n` gives `n` |
| `Text.IntToString` | app/main.py:55 | `str(n)` is non-empty, starts with `-` exactly for a negative `n`, is otherwise digits, and its digits read back as `n` (as `-n` after the sign) |
| `Text.IntToStringInjective` | app/main.py:55 | two integers have the same `str` iff they are equal |
| `Text.IntToStringHasNoColon` | app/main.py:55 | a decimal numeral contains no `:`, so it cannot run into the key's separators |
| `Text.ParsePadDigits` | app/weather.py:34 | a zero-padded numeral of a number below `10^width` reads back as that number |
| `Calendar.IsoFormat` | app/weather.py:34 | `date.isoformat()` is ten characters, digits with dashes at positions 4 and 7, and its three digit fields read back as the date's year, month and day |
| `Calendar.IsoFormatInjective` | app/weather.py:34 | two dates have the same ISO text iff they are the same date |
| `Api.ErrorResponse` | app/main.py:62-65 | a `ValueError` becomes 400 with its message; any other failure becomes 502 with the fixed upstream detail |
| `MainHandler.ExceedsCap` | app/main.py:52 | the cap test: a cap is present, positive, and below `days` (its boundaries are in `CapBoundary`) |
| `MainHandler.CapDetail` | app/main.py:53 | the 422 detail, with the cap written by `str` (its content is fixed by the definition, no contract) |
| `MainHandler.Key` | app/main.py:55 | the key `avg:<city.lower()>:<days>` (what it identifies is in `KeyIdentifiesRequest`) |
| `MainHandler.Handle` | app/main.py:47-69 | the handler's flow as a function of the store: cap, key, read, hit or compute, error mapping, store with ttl 120 (its properties are in the lemmas below) |
| `MainHandler.GetAverageWeather` | app/main.py:47-69 | the response and the new store are those of `Handle`: cap check, key, read, compute on a miss, store with ttl 120 |
| `MainHandler.CapBoundary` | app/main.py:52 | `days == max_days` passes, `max_days + 1` is rejected for a positive cap, and a cap of `0` or none accepts any `days` |
| `MainHandler.CapCheckedFirst` | app/main.py:52-56 | the answer is 422 iff `max_days > 0 && days > max_days`; then the store is untouched and the answer does not depend on the aggregation |
| `MainHandler.KeyIdentifiesRequest` | app/main.py:55 | two requests share a key iff their cities are equal up to case and their days are equal |
| `MainHandler.HitServesCached` | app/main.py:56-58 | a live cached payload is answered as is, the store is untouched, and the answer is the same whatever the aggregation would return |
| `MainHandler.MissStoresResult` | app/main.py:60-69 | on a miss the answer carries the canonical city, the requested days and the computed average, and the key holds exactly that payload with expiry `later + 120`, served up to that instant and not after; no other key changes |
| `MainHandler.FailureStoresNothing` | app/main.py:60-65 | a failed aggregation gives 400 or 502 as mapped, and afterwards nothing is stored under the key |
| `MainHandler.HandleTouchesOnlyItsKey` | app/main.py:55-68 | a request changes the store under its own key only |
| `MainHandler.RepeatIsServedFromCache` | app/main.py:55-69 | after a computed answer, the same request with any case variant of the city within 120 ticks gets the same answer from the cache, whatever the aggregation would now say |
| `WeatherHandler.Key` | app/weather.py:34-35 | the key `avg:v1:<COUNTRY>:<city stripped, lower-cased>:<days>:end=<yesterday>` (what it identifies is in the lemmas below) |
| `WeatherHandler.Handle` | app/weather.py:28-49 | the handler's flow as a function of the store: anchored key, read, hit or compute, error mapping, store with ttl 1800 |
| `WeatherHandler.GetAverageWeather` | app/weather.py:28-49 | the response and the new store are those of `Handle`: anchored key, read, compute on a miss, store with ttl 1800 |
| `WeatherHandler.KeyNormalizes` | app/weather.py:35 | whitespace around the city, the letter case of the city, and the letter case of the country do not change the key |
| `WeatherHandler.AbsentCountryIsEmpty` | app/weather.py:35 | no country and an empty country give the same key |
| `WeatherHandler.KeyDeterminesWindow` | app/weather.py:34-35 | two requests that share a key have the same anchor date and the same days |
| `WeatherHandler.WindowSuffix` | app/weather.py:35 | the `:<days>:end=<date>` tail of a key determines its days and its date, whatever comes before it |
| `WeatherHandler.AnchorRollsOver` | app/weather.py:34-35 | with everything else fixed, two different anchor dates give different keys |
| `WeatherHandler.HitServesCached` | app/weather.py:37-38 | a live cached payload is answered as is, the store is untouched, and the answer does not depend on the aggregation |
| `WeatherHandler.MissStoresResult` | app/weather.py:40-49 | on a miss the computed payload is answered and stored under the key with ttl `60 * 30`; no other key changes |
| `WeatherHandler.FailureStoresNothing` | app/weather.py:40-45 | a failed aggregation gives 400 or 502 as mapped, and afterwards nothing is stored under the key |
| `WeatherHandler.HandleTouchesOnlyItsKey` | app/weather.py:35-48 | a request changes the store under its own key only |
| `WeatherHandler.NextDayMisses` | app/weather.py:33-37 | what a request stores is never served to a request with another anchor date |

## Left out

- The shared (redis) backend is not modelled: connecting, `setex`/`get` through `asyncio.to_thread`, and JSON encoding and decoding. These are foreign-library calls. The model treats the client as always absent.
- The FastAPI parts are thin framework plumbing with no logic: app construction, routing, CORS middleware and `/healthz`.
- `Query` validation belongs to the framework. The `days >= 1` guarantee is a `requires` on the handlers. The two-character limit on `country` is not modelled, so the key functions accept any string.
- `compute_average_temperature` (geocoding, the per-day fallback, averaging and rounding) is not defined in any file of this model. It is an oracle parameter.
- `time.time()`, `date.today()` and `timedelta` are clock reads and calendar arithmetic. They are replaced by integer instants and a supplied `yesterday` date. Floating-point instants and the float average are not modelled.
- `app/settings.py` only reads environment variables. The days cap and the default ttl are parameters.
- `AverageWeatherResponse(**cached)` re-validates a payload that the handler itself stored. The model answers the cached payload as it is.
- Text.Lower: only ASCII letters are lower-cased. Python's full Unicode case mapping, including mappings that change the length, is not modelled.
- Text.Upper: only ASCII letters are upper-cased, for the same reason.
- Async scheduling and concurrency are not modelled. Two concurrent requests may both miss and both compute; that is tolerated by the design and not a property of the code.
