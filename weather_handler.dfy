/**
 * `get_average_weather` of the second handler: a versioned key anchored to
 * the last day of the archive window, and the same hit / miss / store
 * protocol with a longer lifetime. This handler has no days cap. The anchor
 * (the day before today) is supplied by the caller.
 */
module WeatherHandler {
  import opened Wrappers
  import opened Text
  import opened Calendar
  import opened TtlCache
  import opened Api

  /** Lifetime of a stored result: `60 * 30` seconds. */
  const RESULT_TTL := 60 * 30

  /** `avg:v1:<(country or '').upper()>:<city.strip().lower()>:<days>:end=<yesterday ISO>`. */
  function Key(city: string, days: int, country: Option<string>, yesterday: CalendarDate): string {
    "avg:v1:" + Upper(country.GetOr("")) + ":" + Lower(Strip(city)) + ":" + IntToString(days) + ":end=" + IsoFormat(yesterday)
  }

  /** One request: the response and the store it leaves. */
  function Handle(store: Store<Payload>, defaultTtl: int, city: string, days: int, country: Option<string>,
                  yesterday: CalendarDate, now: int, later: int,
                  compute: (string, int, Option<string>) -> Outcome): (Response, Store<Payload>)
  {
    var key := Key(city, days, country, yesterday);
    var read := AfterGet(store, key, now);
    match Lookup(store, key, now)
    case Some(cached) => (Success(cached), read)
    case None =>
      var outcome := compute(city, days, country);
      if !outcome.Computed? then
        (ErrorResponse(outcome), read)
      else
        var payload := Payload(outcome.canonical, days, outcome.average);
        (Success(payload), AfterSet(read, key, payload, Some(RESULT_TTL), defaultTtl, later))
  }

  method GetAverageWeather(cache: Cache<Payload>, city: string, days: int, country: Option<string>,
                           yesterday: CalendarDate, now: int, later: int,
                           compute: (string, int, Option<string>) -> Outcome)
    returns (resp: Response)
    requires cache.Valid()
    requires days >= 1
    modifies cache.local
    ensures (resp, cache.local.store)
         == Handle(old(cache.local.store), cache.defaultTtl, city, days, country, yesterday, now, later, compute)
  {
    var key := Key(city, days, country, yesterday);
    var cached := cache.AGet(key, now);
    if cached.Some? {
      return Success(cached.value);
    }
    var outcome := compute(city, days, country);
    if !outcome.Computed? {
      return ErrorResponse(outcome);
    }
    var payload := Payload(outcome.canonical, days, outcome.average);
    cache.ASet(key, payload, Some(RESULT_TTL), later);
    return Success(payload);
  }

  // ---------------------------------------------------------------------
  // The key
  // ---------------------------------------------------------------------

  /**
   * Normalisation: surrounding whitespace and letter case of the city, and
   * letter case of the country, do not change the key.
   */
  lemma {:induction false} KeyNormalizes(w1: string, city1: string, w2: string, city2: string,
                                         country1: string, country2: string, days: int, yesterday: CalendarDate)
    requires AllSpace(w1) && AllSpace(w2)
    requires CaseVariant(city1, city2) && CaseVariant(country1, country2)
    ensures Key(w1 + city1 + w2, days, Some(country1), yesterday) == Key(city2, days, Some(country2), yesterday)
  {
    StripIgnoresSurroundingSpace(w1, city1, w2);
    LowerStripCommute(city1);
    LowerStripCommute(city2);
    LowerIdentifiesCaseVariants(city1, city2);
    UpperIdentifiesCaseVariants(country1, country2);
  }

  /** No country and an empty country give the same key. */
  lemma AbsentCountryIsEmpty(city: string, days: int, yesterday: CalendarDate)
    ensures Key(city, days, None, yesterday) == Key(city, days, Some(""), yesterday)
  {
  }

  /**
   * The key determines the anchor date and the days: two requests that share a
   * key ask for the same window, so a key rolls over when the date does.
   */
  lemma {:induction false} KeyDeterminesWindow(city1: string, days1: int, country1: Option<string>, yesterday1: CalendarDate,
                                               city2: string, days2: int, country2: Option<string>, yesterday2: CalendarDate)
    requires Key(city1, days1, country1, yesterday1) == Key(city2, days2, country2, yesterday2)
    ensures yesterday1 == yesterday2 && days1 == days2
  {
    var p1 := "avg:v1:" + Upper(country1.GetOr("")) + ":" + Lower(Strip(city1));
    var p2 := "avg:v1:" + Upper(country2.GetOr("")) + ":" + Lower(Strip(city2));
    WindowSuffix(p1, days1, yesterday1, p2, days2, yesterday2);
  }

  /** The `:<days>:end=<date>` tail of a key can be read back whatever precedes it. */
  lemma WindowSuffix(p1: string, days1: int, yesterday1: CalendarDate, p2: string, days2: int, yesterday2: CalendarDate)
    requires p1 + ":" + IntToString(days1) + ":end=" + IsoFormat(yesterday1)
          == p2 + ":" + IntToString(days2) + ":end=" + IsoFormat(yesterday2)
    ensures yesterday1 == yesterday2 && days1 == days2
  {
    var d1, d2 := IntToString(days1), IntToString(days2);
    var e1, e2 := IsoFormat(yesterday1), IsoFormat(yesterday2);
    assert p1 + ":" + d1 + ":end=" + e1 == (p1 + [':'] + d1) + (":end=" + e1);
    assert p2 + ":" + d2 + ":end=" + e2 == (p2 + [':'] + d2) + (":end=" + e2);
    SameSuffix(p1 + [':'] + d1, ":end=" + e1, p2 + [':'] + d2, ":end=" + e2);
    assert e1 == (":end=" + e1)[5..] == (":end=" + e2)[5..] == e2;
    IsoFormatInjective(yesterday1, yesterday2);
    IntToStringHasNoColon(days1);
    IntToStringHasNoColon(days2);
    SplitAtLast(p1, d1, p2, d2, ':');
    IntToStringInjective(days1, days2);
  }

  /** With everything else fixed, two different anchor dates give two different keys. */
  lemma AnchorRollsOver(city: string, days: int, country: Option<string>, yesterday1: CalendarDate, yesterday2: CalendarDate)
    requires yesterday1 != yesterday2
    ensures Key(city, days, country, yesterday1) != Key(city, days, country, yesterday2)
  {
    if Key(city, days, country, yesterday1) == Key(city, days, country, yesterday2) {
      KeyDeterminesWindow(city, days, country, yesterday1, city, days, country, yesterday2);
    }
  }

  // ---------------------------------------------------------------------
  // Hit, miss and failure
  // ---------------------------------------------------------------------

  /** A live entry is answered from the cache: the store is untouched and the aggregation is not consulted. */
  lemma HitServesCached(store: Store<Payload>, defaultTtl: int, city: string, days: int, country: Option<string>,
                        yesterday: CalendarDate, now: int, later: int,
                        compute: (string, int, Option<string>) -> Outcome, other: (string, int, Option<string>) -> Outcome,
                        cached: Payload)
    requires Lookup(store, Key(city, days, country, yesterday), now) == Some(cached)
    ensures Handle(store, defaultTtl, city, days, country, yesterday, now, later, compute)
         == (Success(cached), store)
         == Handle(store, defaultTtl, city, days, country, yesterday, now, later, other)
  {
  }

  /** On a miss the computed payload is answered and stored under the key for `RESULT_TTL` ticks. */
  lemma MissStoresResult(store: Store<Payload>, defaultTtl: int, city: string, days: int, country: Option<string>,
                         yesterday: CalendarDate, now: int, later: int,
                         compute: (string, int, Option<string>) -> Outcome, t: int)
    requires Lookup(store, Key(city, days, country, yesterday), now) == None
    requires compute(city, days, country).Computed?
    requires t <= later + RESULT_TTL
    ensures var key := Key(city, days, country, yesterday);
            var (resp, after) := Handle(store, defaultTtl, city, days, country, yesterday, now, later, compute);
            && resp.Success?
            && resp.payload.city == compute(city, days, country).canonical
            && resp.payload.days == days
            && resp.payload.averageTemperatureC == compute(city, days, country).average
            && after == AfterSet(AfterGet(store, key, now), key, resp.payload, Some(RESULT_TTL), defaultTtl, later)
            && Lookup(after, key, t) == Some(resp.payload)
            && after - {key} == store - {key}
  {
  }

  /** A failed aggregation is mapped to 400 or 502 and leaves nothing under the key. */
  lemma FailureStoresNothing(store: Store<Payload>, defaultTtl: int, city: string, days: int, country: Option<string>,
                             yesterday: CalendarDate, now: int, later: int,
                             compute: (string, int, Option<string>) -> Outcome)
    requires Lookup(store, Key(city, days, country, yesterday), now) == None
    requires !compute(city, days, country).Computed?
    ensures var key := Key(city, days, country, yesterday);
            var (resp, after) := Handle(store, defaultTtl, city, days, country, yesterday, now, later, compute);
            && resp == ErrorResponse(compute(city, days, country))
            && (compute(city, days, country).ValueError? ==> resp == HttpError(400, compute(city, days, country).message))
            && (compute(city, days, country).OtherError? ==> resp == HttpError(502, UPSTREAM_ERROR_DETAIL))
            && key !in after
            && after - {key} == store - {key}
  {
  }

  /** A request changes the store under its own key only. */
  lemma HandleTouchesOnlyItsKey(store: Store<Payload>, defaultTtl: int, city: string, days: int, country: Option<string>,
                                yesterday: CalendarDate, now: int, later: int,
                                compute: (string, int, Option<string>) -> Outcome)
    ensures var key := Key(city, days, country, yesterday);
            Handle(store, defaultTtl, city, days, country, yesterday, now, later, compute).1 - {key} == store - {key}
  {
    var key := Key(city, days, country, yesterday);
    var read := AfterGet(store, key, now);
    GetTouchesOnlyItsKey(store, key, now);
    var outcome := compute(city, days, country);
    if Lookup(store, key, now).None? && outcome.Computed? {
      var payload := Payload(outcome.canonical, days, outcome.average);
      SetStamps(read, key, payload, Some(RESULT_TTL), defaultTtl, later);
    }
  }

  /**
   * A freshly stored answer is not served for a different anchor date: the
   * next day's request misses and is recomputed.
   */
  lemma NextDayMisses(store: Store<Payload>, defaultTtl: int, city: string, days: int, country: Option<string>,
                      yesterday: CalendarDate, now: int, later: int, compute: (string, int, Option<string>) -> Outcome,
                      today: CalendarDate, now2: int)
    requires yesterday != today
    requires Lookup(store, Key(city, days, country, today), now2) == None
    ensures var after := Handle(store, defaultTtl, city, days, country, yesterday, now, later, compute).1;
            Lookup(after, Key(city, days, country, today), now2) == None
  {
    AnchorRollsOver(city, days, country, yesterday, today);
    var after := Handle(store, defaultTtl, city, days, country, yesterday, now, later, compute).1;
    HandleTouchesOnlyItsKey(store, defaultTtl, city, days, country, yesterday, now, later, compute);
    LookupOtherKey(store, after, Key(city, days, country, yesterday), Key(city, days, country, today), now2);
  }
}
