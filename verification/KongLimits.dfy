/** Which rate limits a migration keeps. */
module KongLimits {
  import opened Wrappers
  import opened Dicts
  import opened KongModel
  import Json

  // ----- what Kong limits -----

  /** The periods of Kong's `rate-limiting`. */
  datatype Period = Second | Minute | Hour | Day | Month | Year

  function PeriodName(period: Period): string {
    match period
    case Second => "second"
    case Minute => "minute"
    case Hour => "hour"
    case Day => "day"
    case Month => "month"
    case Year => "year"
  }

  /** Kong counts thirty days to the month. */
  function Seconds(period: Period): int {
    match period
    case Second => 1
    case Minute => 60
    case Hour => 3600
    case Day => 86400
    case Month => 2592000
    case Year => 31536000
  }

  /** So many requests in a window of so many seconds. */
  datatype Limit = Limit(window: Json.Json, requests: Json.Json)

  /** The value is there, and not null. */
  predicate IsSet(config: seq<Item<Json.Json>>, key: string) {
    Get(config, key).Some? && Get(config, key).value != Json.Null
  }

  function PeriodLimit(config: seq<Item<Json.Json>>, period: Period): Limit
    requires IsSet(config, PeriodName(period))
  {
    Limit(Json.Int(Seconds(period)), Get(config, PeriodName(period)).value)
  }

  /** One value, or several in an array. */
  function Values(config: seq<Item<Json.Json>>, key: string): seq<Json.Json> {
    if !IsSet(config, key) then []
    else if Get(config, key).value.Array? then Get(config, key).value.items else [Get(config, key).value]
  }

  /** The pairs of Kong's `rate-limiting-advanced`. */
  function PairLimits(config: seq<Item<Json.Json>>): set<Limit> {
    var limits, windows := Values(config, "limit"), Values(config, "window_size");
    set i | 0 <= i < |limits| && i < |windows| && limits[i] != Json.Null :: Limit(windows[i], limits[i])
  }

  /** All that a configuration of either plugin limits. */
  function Demanded(config: seq<Item<Json.Json>>): set<Limit> {
    (set period: Period | IsSet(config, PeriodName(period)) :: PeriodLimit(config, period)) + PairLimits(config)
  }

  // ----- what is left of it -----

  /** What a STOA limit imposes; null imposes nothing. */
  function Imposed(limit: seq<Item<Json.Json>>): set<Limit> {
    if Get(limit, "window").Some? && IsSet(limit, "requests")
    then {Limit(Get(limit, "window").value, Get(limit, "requests").value)} else {}
  }

  /** A period of minutes, hours or seconds that no key of an earlier one hides, not even null. */
  predicate InSight(config: seq<Item<Json.Json>>, period: Period) {
    && (period == Minute || period == Hour || period == Second)
    && (period != Minute ==> PeriodName(Minute) !in Keys(config))
    && (period == Second ==> PeriodName(Hour) !in Keys(config))
  }

  /** No limit is made up. All are kept if and only if there is none, or just one and it is set
      by minutes, hours or seconds in sight. */
  lemma LimitsAreKept(config: seq<Item<Json.Json>>)
    ensures Imposed(RateLimit(config)) <= Demanded(config)
    ensures Imposed(RateLimit(config)) == Demanded(config) <==>
      |Demanded(config)| == 0
      || (|Demanded(config)| == 1 && exists period :: InSight(config, period) && IsSet(config, PeriodName(period)))
  {
    if period :| InSight(config, period) && PeriodName(period) in Keys(config) {
      LimitInSight(config, period);
      if IsSet(config, PeriodName(period)) {
        assert PeriodLimit(config, period) in Demanded(config);
        OnlyElement(Demanded(config), PeriodLimit(config, period));
      } else {
        NothingElseInSight(config, period);
      }
    } else {
      NothingInSight(config);
    }
  }

  lemma OnlyElement<T>(s: set<T>, x: T)
    requires x in s
    ensures |s| > 0 && (|s| == 1 <==> s == {x})
  {
    assert s == {x} + (s - {x}) && |s| == 1 + |s - {x}|;
  }

  lemma NothingElseInSight(config: seq<Item<Json.Json>>, period: Period)
    requires InSight(config, period) && PeriodName(period) in Keys(config) && !IsSet(config, PeriodName(period))
    ensures forall other | InSight(config, other) :: !IsSet(config, PeriodName(other))
  {
  }

  lemma LimitInSight(config: seq<Item<Json.Json>>, period: Period)
    requires InSight(config, period) && PeriodName(period) in Keys(config)
    ensures Imposed(RateLimit(config)) == if IsSet(config, PeriodName(period)) then {PeriodLimit(config, period)} else {}
  {
    var requests, seconds := Get(config, PeriodName(period)).value, Seconds(period);
    FirstInSight(config, period);
    LimitedFields(requests, seconds);
    WhatIsImposed([Item("by", Json.String("token"))] + Limited(requests, seconds), requests, seconds);
  }

  lemma FirstInSight(config: seq<Item<Json.Json>>, period: Period)
    requires InSight(config, period) && PeriodName(period) in Keys(config)
    ensures RateLimit(config)
         == [Item("by", Json.String("token"))] + Limited(Get(config, PeriodName(period)).value, Seconds(period))
  {
  }

  lemma WhatIsImposed(limit: seq<Item<Json.Json>>, requests: Json.Json, seconds: int)
    requires Get(limit, "requests") == Some(requests) && Get(limit, "window") == Some(Json.Int(seconds))
    ensures Imposed(limit) == if requests != Json.Null then {Limit(Json.Int(seconds), requests)} else {}
  {
  }

  lemma NothingInSight(config: seq<Item<Json.Json>>)
    requires forall period | InSight(config, period) :: PeriodName(period) !in Keys(config)
    ensures Imposed(RateLimit(config)) == {}
  {
    LimitedFields(Json.Null, 0);
    assert InSight(config, Minute) && InSight(config, Hour) && InSight(config, Second);
    assert RateLimit(config) == [Item("by", Json.String("token"))];
  }

  lemma LimitedFields(requests: Json.Json, seconds: int)
    ensures var limit := [Item("by", Json.String("token"))] + Limited(requests, seconds);
      Get(limit, "requests") == Some(requests) && Get(limit, "window") == Some(Json.Int(seconds))
    ensures Get([Item("by", Json.String("token"))], "requests").None? && Get([Item("by", Json.String("token"))], "window").None?
  {
    var token: Item<Json.Json> := Item("by", Json.String("token"));
    var rest, last := Limited(requests, seconds), [Item("window", Json.Int(seconds))];
    assert "by"[0] != "requests"[0] && "by"[0] != "window"[0] && "requests"[0] != "window"[0];
    assert ([token] + rest)[1..] == rest && rest[1..] == last && [token][1..] == [];
    assert Get(last, "window") == Some(Json.Int(seconds));
    assert Get(rest, "window") == Get(last, "window");
    assert Get([token] + rest, "window") == Get(rest, "window");
    assert Get([token] + rest, "requests") == Get(rest, "requests");
  }

  // ----- limits that are lost -----

  lemma KeysDiffer(p: Period, q: Period)
    ensures PeriodName(p) == PeriodName(q) ==> p == q
    ensures PeriodName(p) != "limit" && PeriodName(p) != "window_size"
  {
    assert "minute"[1] == 'i' && "month"[1] == 'o';
    assert PeriodName(p)[0] != 'l' && PeriodName(p)[0] != 'w';
    assert PeriodName(p)[0] == PeriodName(q)[0] ==> p == q || PeriodName(p)[1] != PeriodName(q)[1];
  }

  lemma OnePeriod(period: Period, value: Json.Json)
    requires value != Json.Null
    ensures Demanded([Item(PeriodName(period), value)]) == {Limit(Json.Int(Seconds(period)), value)}
  {
    var key := PeriodName(period);
    var config := [Item(key, value)];
    KeysDiffer(period, period);
    forall other | IsSet(config, PeriodName(other)) ensures other == period {
      KeysDiffer(period, other);
    }
    assert PairLimits(config) == {};
    assert PeriodLimit(config, period) == Limit(Json.Int(Seconds(period)), value);
  }

  /** A limit by the day, by the month or by the year is not mapped at all. */
  lemma LongPeriodIsLost(period: Period, requests: nat)
    requires period == Day || period == Month || period == Year
    ensures var config := [Item(PeriodName(period), Json.Int(requests))];
      Demanded(config) == {Limit(Json.Int(Seconds(period)), Json.Int(requests))} && Imposed(RateLimit(config)) == {}
  {
    var config := [Item(PeriodName(period), Json.Int(requests))];
    OnePeriod(period, Json.Int(requests));
    forall other | InSight(config, other) ensures PeriodName(other) !in Keys(config) {
      KeysDiffer(period, other);
    }
    NothingInSight(config);
  }

  lemma TwoKeys(a: string, v: Json.Json, b: string, w: Json.Json)
    requires a != b
    ensures var config := [Item(a, v), Item(b, w)];
      Get(config, a) == Some(v) && Get(config, b) == Some(w) && Keys(config) == {a, b}
  {
    var config := [Item(a, v), Item(b, w)];
    assert config[1..] == [Item(b, w)] && config[0].key == a && config[1].key == b;
  }

  /** Of a limit by the minute and one by the hour, the one by the hour is lost. */
  lemma HourIsLost(minute: nat, hour: nat)
    ensures var config := [Item("minute", Json.Int(minute)), Item("hour", Json.Int(hour))];
      Limit(Json.Int(3600), Json.Int(hour)) in Demanded(config) && Imposed(RateLimit(config)) == {Limit(Json.Int(60), Json.Int(minute))}
  {
    var config := [Item(PeriodName(Minute), Json.Int(minute)), Item(PeriodName(Hour), Json.Int(hour))];
    KeysDiffer(Minute, Hour);
    TwoKeys(PeriodName(Minute), Json.Int(minute), PeriodName(Hour), Json.Int(hour));
    LimitInSight(config, Minute);
    assert PeriodLimit(config, Hour) in Demanded(config);
  }

  /** A limit by the hour is hidden by a null for the minute. */
  lemma NullHidesTheHour(hour: nat)
    ensures var config := [Item("minute", Json.Null), Item("hour", Json.Int(hour))];
      Limit(Json.Int(3600), Json.Int(hour)) in Demanded(config) && Imposed(RateLimit(config)) == {}
  {
    var config := [Item(PeriodName(Minute), Json.Null), Item(PeriodName(Hour), Json.Int(hour))];
    KeysDiffer(Minute, Hour);
    TwoKeys(PeriodName(Minute), Json.Null, PeriodName(Hour), Json.Int(hour));
    LimitInSight(config, Minute);
    assert PeriodLimit(config, Hour) in Demanded(config);
  }

  /** The keys of the advanced plugin are not read. */
  lemma PairIsLost(requests: nat, seconds: nat)
    ensures var config := [Item("limit", Json.Array([Json.Int(requests)])), Item("window_size", Json.Array([Json.Int(seconds)]))];
      Limit(Json.Int(seconds), Json.Int(requests)) in Demanded(config) && Imposed(RateLimit(config)) == {}
  {
    var config := [Item("limit", Json.Array([Json.Int(requests)])), Item("window_size", Json.Array([Json.Int(seconds)]))];
    assert "limit"[0] != "window_size"[0];
    TwoKeys("limit", Json.Array([Json.Int(requests)]), "window_size", Json.Array([Json.Int(seconds)]));
    assert Values(config, "limit")[0] == Json.Int(requests) && Values(config, "window_size")[0] == Json.Int(seconds);
    assert Limit(Json.Int(seconds), Json.Int(requests)) in PairLimits(config);
    forall period | InSight(config, period) ensures PeriodName(period) !in Keys(config) {
      KeysDiffer(period, period);
    }
    NothingInSight(config);
  }

  // ----- tenants -----

  /** A tenant gets the limit of its last rate-limit plugin, and none without one. */
  lemma {:induction false} LastLimitWins(ps: seq<Plugin>, k: nat)
    requires k <= |ps| && (k < |ps| ==> IsRateLimiter(ps[k]))
    requires forall j | k < j < |ps| :: !IsRateLimiter(ps[j])
    requires k == |ps| ==> forall j | 0 <= j < |ps| :: !IsRateLimiter(ps[j])
    ensures TenantLimit(ps) == if k < |ps| then Some(RateLimit(ps[k].config)) else None
  {
    if ps != [] && k != |ps| - 1 {
      LastLimitWins(ps[..|ps| - 1], if k == |ps| then k - 1 else k);
    }
  }
}
