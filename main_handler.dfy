/**
 * `get_average_weather` of the first handler: the days cap, the
 * case-insensitive cache key, and the hit / miss / store protocol over the
 * cache, with the aggregation call as an oracle `compute`.
 */
module MainHandler {
  import opened Wrappers
  import opened Text
  import opened TtlCache
  import opened Api

  /** Lifetime of a stored result, in clock ticks (seconds). */
  const RESULT_TTL := 120

  /** The configurable cap: a positive maximum rejects longer windows; absent or 0 disables it. */
  predicate ExceedsCap(maxDays: Option<int>, days: int) {
    maxDays.Some? && maxDays.value > 0 && days > maxDays.value
  }

  function CapDetail(maxDays: int): string {
    "For 'days': must be \U{2264} " + IntToString(maxDays) + "."
  }

  /** `avg:<city.lower()>:<days>`. */
  function Key(city: string, days: int): string {
    "avg:" + Lower(city) + ":" + IntToString(days)
  }

  /**
   * One request: the response and the store it leaves. `now` is when the
   * cache is read, `later` when a fresh result is written.
   */
  function Handle(store: Store<Payload>, defaultTtl: int, city: string, days: int, maxDays: Option<int>,
                  now: int, later: int, compute: (string, int) -> Outcome): (Response, Store<Payload>)
  {
    if ExceedsCap(maxDays, days) then
      (HttpError(422, CapDetail(maxDays.value)), store)
    else
      var key := Key(city, days);
      var read := AfterGet(store, key, now);
      match Lookup(store, key, now)
      case Some(cached) => (Success(cached), read)
      case None =>
        var outcome := compute(city, days);
        if !outcome.Computed? then
          (ErrorResponse(outcome), read)
        else
          var payload := Payload(outcome.canonical, days, outcome.average);
          (Success(payload), AfterSet(read, key, payload, Some(RESULT_TTL), defaultTtl, later))
  }

  method GetAverageWeather(cache: Cache<Payload>, city: string, days: int, maxDays: Option<int>,
                           now: int, later: int, compute: (string, int) -> Outcome)
    returns (resp: Response)
    requires cache.Valid()
    requires days >= 1
    modifies cache.local
    ensures (resp, cache.local.store) == Handle(old(cache.local.store), cache.defaultTtl, city, days, maxDays, now, later, compute)
  {
    if ExceedsCap(maxDays, days) {
      return HttpError(422, CapDetail(maxDays.value));
    }
    var key := Key(city, days);
    var cached := cache.AGet(key, now);
    if cached.Some? {
      return Success(cached.value);
    }
    var outcome := compute(city, days);
    if !outcome.Computed? {
      return ErrorResponse(outcome);
    }
    var payload := Payload(outcome.canonical, days, outcome.average);
    cache.ASet(key, payload, Some(RESULT_TTL), later);
    return Success(payload);
  }

  // ---------------------------------------------------------------------
  // The cap
  // ---------------------------------------------------------------------

  /** The cap's edges: `days == max` passes, `max + 1` fails, and a cap of 0 or none passes everything. */
  lemma CapBoundary(maxDays: int, days: int)
    ensures !ExceedsCap(Some(maxDays), maxDays)
    ensures maxDays > 0 ==> ExceedsCap(Some(maxDays), maxDays + 1)
    ensures !ExceedsCap(Some(0), days) && !ExceedsCap(None, days)
  {
  }

  /**
   * A request gets 422 exactly when it exceeds the cap; then the cache is
   * neither read nor written and the aggregation is not consulted.
   */
  lemma CapCheckedFirst(store: Store<Payload>, defaultTtl: int, city: string, days: int, maxDays: Option<int>,
                        now: int, later: int, compute: (string, int) -> Outcome, other: (string, int) -> Outcome)
    ensures Handle(store, defaultTtl, city, days, maxDays, now, later, compute).0.HttpError?
         && Handle(store, defaultTtl, city, days, maxDays, now, later, compute).0.status == 422
        <==> ExceedsCap(maxDays, days)
    ensures ExceedsCap(maxDays, days) ==>
              Handle(store, defaultTtl, city, days, maxDays, now, later, compute)
              == (HttpError(422, CapDetail(maxDays.value)), store)
              == Handle(store, defaultTtl, city, days, maxDays, now, later, other)
  {
  }

  // ---------------------------------------------------------------------
  // The key
  // ---------------------------------------------------------------------

  /** Two requests share a key exactly when their cities agree up to case and their days agree. */
  lemma {:induction false} KeyIdentifiesRequest(city1: string, days1: int, city2: string, days2: int)
    ensures Key(city1, days1) == Key(city2, days2) <==> CaseVariant(city1, city2) && days1 == days2
  {
    LowerIdentifiesCaseVariants(city1, city2);
    if Key(city1, days1) == Key(city2, days2) {
      IntToStringHasNoColon(days1);
      IntToStringHasNoColon(days2);
      assert "avg:" + Lower(city1) + ":" + IntToString(days1) == ("avg:" + Lower(city1)) + [':'] + IntToString(days1);
      assert "avg:" + Lower(city2) + ":" + IntToString(days2) == ("avg:" + Lower(city2)) + [':'] + IntToString(days2);
      SplitAtLast("avg:" + Lower(city1), IntToString(days1), "avg:" + Lower(city2), IntToString(days2), ':');
      assert Lower(city1) == ("avg:" + Lower(city1))[4..];
      assert Lower(city2) == ("avg:" + Lower(city2))[4..];
      IntToStringInjective(days1, days2);
    }
  }

  // ---------------------------------------------------------------------
  // Hit, miss and failure
  // ---------------------------------------------------------------------

  /** A live entry is answered from the cache: the store is untouched and the aggregation is not consulted. */
  lemma HitServesCached(store: Store<Payload>, defaultTtl: int, city: string, days: int, maxDays: Option<int>,
                        now: int, later: int, compute: (string, int) -> Outcome, other: (string, int) -> Outcome,
                        cached: Payload)
    requires !ExceedsCap(maxDays, days)
    requires Lookup(store, Key(city, days), now) == Some(cached)
    ensures Handle(store, defaultTtl, city, days, maxDays, now, later, compute)
         == (Success(cached), store)
         == Handle(store, defaultTtl, city, days, maxDays, now, later, other)
  {
  }

  /**
   * On a miss the answer is the freshly computed payload: the canonical city,
   * the requested days, and the key holds it, expiring exactly `RESULT_TTL` ticks after the write.
   */
  lemma MissStoresResult(store: Store<Payload>, defaultTtl: int, city: string, days: int, maxDays: Option<int>,
                         now: int, later: int, compute: (string, int) -> Outcome, t: int)
    requires !ExceedsCap(maxDays, days)
    requires Lookup(store, Key(city, days), now) == None
    requires compute(city, days).Computed?
    requires t <= later + RESULT_TTL
    ensures var (resp, after) := Handle(store, defaultTtl, city, days, maxDays, now, later, compute);
            && resp.Success?
            && resp.payload.city == compute(city, days).canonical
            && resp.payload.days == days
            && resp.payload.averageTemperatureC == compute(city, days).average
            && Key(city, days) in after
            && after[Key(city, days)] == Entry(later + RESULT_TTL, resp.payload)
            && Lookup(after, Key(city, days), t) == Some(resp.payload)
            && Lookup(after, Key(city, days), later + RESULT_TTL + 1) == None
            && after - {Key(city, days)} == store - {Key(city, days)}
  {
  }

  /** A failed aggregation is mapped to 400 or 502 and leaves nothing under the key. */
  lemma FailureStoresNothing(store: Store<Payload>, defaultTtl: int, city: string, days: int, maxDays: Option<int>,
                             now: int, later: int, compute: (string, int) -> Outcome)
    requires !ExceedsCap(maxDays, days)
    requires Lookup(store, Key(city, days), now) == None
    requires !compute(city, days).Computed?
    ensures var (resp, after) := Handle(store, defaultTtl, city, days, maxDays, now, later, compute);
            && resp == ErrorResponse(compute(city, days))
            && (compute(city, days).ValueError? ==> resp == HttpError(400, compute(city, days).message))
            && (compute(city, days).OtherError? ==> resp == HttpError(502, UPSTREAM_ERROR_DETAIL))
            && Key(city, days) !in after
            && after - {Key(city, days)} == store - {Key(city, days)}
  {
  }

  /** A request changes the store under its own key only. */
  lemma HandleTouchesOnlyItsKey(store: Store<Payload>, defaultTtl: int, city: string, days: int, maxDays: Option<int>,
                                now: int, later: int, compute: (string, int) -> Outcome)
    ensures Handle(store, defaultTtl, city, days, maxDays, now, later, compute).1 - {Key(city, days)}
         == store - {Key(city, days)}
  {
  }

  /**
   * After a freshly computed answer, a repeat of the request with any case variant of the
   * city, up to `RESULT_TTL` ticks later, gets the same payload from the cache
   * whatever the aggregation would now say.
   */
  lemma RepeatIsServedFromCache(store: Store<Payload>, defaultTtl: int, city: string, days: int, maxDays: Option<int>,
                                now: int, later: int, compute: (string, int) -> Outcome,
                                city2: string, now2: int, later2: int, compute2: (string, int) -> Outcome)
    requires !ExceedsCap(maxDays, days)
    requires Lookup(store, Key(city, days), now) == None
    requires compute(city, days).Computed?
    requires CaseVariant(city, city2)
    requires now2 <= later + RESULT_TTL
    ensures var (resp, after) := Handle(store, defaultTtl, city, days, maxDays, now, later, compute);
            Handle(after, defaultTtl, city2, days, maxDays, now2, later2, compute2) == (resp, after)
  {
    KeyIdentifiesRequest(city, days, city2, days);
  }
}
