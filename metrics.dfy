/** Key metrics of a tuner: which metrics it tracks (the `metrics` keyword of
    `Tuner.__init__`), how `stats['best']` is seeded, and how `record_results`
    recomputes `best` and `latest` from one instance's results. */
module Metrics {
  import opened Wrappers

  type MetricName = string

  /** The direction in which a key metric improves. */
  datatype Direction = Min | Max

  /** One entry of the user's `metrics` argument: either an object that is not a
      tuple, or a `(name, direction)` tuple whose direction is still unchecked. */
  datatype UserMetric = NotTuple | Tuple(name: MetricName, direction: string)

  /** A key metric as the tuner keeps it. */
  datatype KeyMetric = KeyMetric(name: MetricName, direction: Direction)

  /** The tuner's statistics: `stats['best']`, `stats['latest']` and
      `stats['direction']`. */
  datatype Stats = Stats(
    best: map<MetricName, real>,
    latest: map<MetricName, real>,
    direction: map<MetricName, Direction>)

  /** The two dictionaries one call of `record_results` produces. */
  datatype Update = Update(best: map<MetricName, real>, latest: map<MetricName, real>)

  /** The metrics tracked when the user gives none. */
  const DefaultKeyMetrics: seq<KeyMetric> :=
    [KeyMetric("loss", Min), KeyMetric("val_loss", Min),
     KeyMetric("acc", Max), KeyMetric("val_acc", Max)]

  /** `sys.maxsize` on a 64-bit interpreter: the initial best of a minimised metric. */
  const MaxSize: real := 9223372036854775807.0

  function DirectionName(d: Direction): string {
    match d
    case Min => "min"
    case Max => "max"
  }

  /** The key metric kept for one user entry, if it is kept at all. */
  function Validate(u: UserMetric): (r: Option<KeyMetric>)
    ensures r.Some? <==> u.Tuple? && (u.direction == "min" || u.direction == "max")
    ensures r.Some? ==> r.value.name == u.name && DirectionName(r.value.direction) == u.direction
  {
    if u.NotTuple? then None
    else if u.direction == "min" then Some(KeyMetric(u.name, Min))
    else if u.direction == "max" then Some(KeyMetric(u.name, Max))
    else None
  }

  function Kept(u: UserMetric): seq<KeyMetric> {
    match Validate(u)
    case Some(k) => [k]
    case None => []
  }

  /** The user entries that pass validation, in their original order. */
  function KeptMetrics(user: seq<UserMetric>): seq<KeyMetric>
    decreases |user|
  {
    if user == [] then [] else KeptMetrics(user[..|user| - 1]) + Kept(user[|user| - 1])
  }

  /** The names of a list of key metrics. */
  function Names(km: seq<KeyMetric>): set<MetricName> {
    set i | 0 <= i < |km| :: km[i].name
  }

  /** The direction of the last key metric called `n`: the entry a dictionary keyed
      by name keeps when names repeat. */
  function LastDirection(km: seq<KeyMetric>, n: MetricName): Direction
    requires n in Names(km)
    decreases |km|
  {
    var last := km[|km| - 1];
    if last.name == n then last.direction
    else
      NamesLast(km);
      LastDirection(km[..|km| - 1], n)
  }

  /** The value a key metric's best starts from. */
  function Sentinel(d: Direction): real {
    if d == Min then MaxSize else -1.0
  }

  /** `x` is at least as good as `y` for a metric with direction `d`. */
  predicate AtLeastAsGood(d: Direction, x: real, y: real) {
    if d == Min then x <= y else x >= y
  }

  function MinReal(a: real, b: real): real { if a <= b then a else b }

  function MaxReal(a: real, b: real): real { if a >= b then a else b }

  /** The new best of a metric: `min` or `max` of the current best and the value. */
  function Improve(d: Direction, current: real, value: real): (r: real)
    ensures AtLeastAsGood(d, r, current) && AtLeastAsGood(d, r, value)
    ensures r == current || r == value
  {
    if d == Min then MinReal(current, value) else MaxReal(current, value)
  }

  // ---------------------------------------------------------------------------
  // Selecting the key metrics

  /** The constructor's key-metric loop: a falsy (absent or empty) `metrics`
      argument gives the default list, anything else is filtered. */
  method SelectKeyMetrics(user: seq<UserMetric>) returns (km: seq<KeyMetric>)
    ensures |user| == 0 ==> km == DefaultKeyMetrics
    ensures |user| > 0 ==> km == KeptMetrics(user)
  {
    if |user| > 0 {
      km := [];
      for i := 0 to |user|
        invariant km == KeptMetrics(user[..i])
      {
        assert user[..i + 1][..i] == user[..i];
        var tm := user[i];
        if tm.NotTuple? {
          continue;
        }
        if tm.direction != "min" && tm.direction != "max" {
          continue;
        }
        km := km + [KeyMetric(tm.name, if tm.direction == "min" then Min else Max)];
      }
      assert user[..|user|] == user;
    } else {
      km := DefaultKeyMetrics;
    }
  }

  /** Filtering distributes over concatenation, so kept entries keep their order. */
  lemma {:induction false} KeptMetricsAppend(a: seq<UserMetric>, b: seq<UserMetric>)
    ensures KeptMetrics(a + b) == KeptMetrics(a) + KeptMetrics(b)
    decreases |b|
  {
    if b == [] {
      assert a + b == a;
    } else {
      var b' := b[..|b| - 1];
      assert (a + b)[..|a + b| - 1] == a + b';
      assert (a + b)[|a + b| - 1] == b[|b| - 1];
      KeptMetricsAppend(a, b');
    }
  }

  /** A key metric is kept exactly when the user gave it as a tuple with a valid
      direction. */
  lemma {:induction false} KeptMetricsMembers(user: seq<UserMetric>, k: KeyMetric)
    ensures k in KeptMetrics(user) <==> Tuple(k.name, DirectionName(k.direction)) in user
    decreases |user|
  {
    if user != [] {
      var init := user[..|user| - 1];
      KeptMetricsMembers(init, k);
      assert user == init + [user[|user| - 1]];
      var t := Tuple(k.name, DirectionName(k.direction));
      assert t in user <==> t in init || t == user[|user| - 1];
    }
  }

  /** No entry is added or dropped beyond validation: the list is as long as the
      input exactly when every entry is valid. */
  lemma {:induction false} KeptMetricsLength(user: seq<UserMetric>)
    ensures |KeptMetrics(user)| <= |user|
    ensures |KeptMetrics(user)| == |user| <==> forall i :: 0 <= i < |user| ==> Validate(user[i]).Some?
    decreases |user|
  {
    if user != [] {
      var init := user[..|user| - 1];
      KeptMetricsLength(init);
      if forall i :: 0 <= i < |user| ==> Validate(user[i]).Some? {
        assert forall i :: 0 <= i < |init| ==> Validate(init[i]).Some? by {
          forall i | 0 <= i < |init| ensures Validate(init[i]).Some? {
            assert init[i] == user[i];
          }
        }
      } else if Validate(user[|user| - 1]).Some? {
        var i :| 0 <= i < |user| && Validate(user[i]).None?;
        assert init[i] == user[i];
      }
    }
  }

  /** A non-empty `metrics` argument in which nothing is valid leaves the tuner with
      no key metrics at all: the default list is not used. */
  lemma {:induction false} NoValidMetricsGivesNone(user: seq<UserMetric>)
    requires forall i :: 0 <= i < |user| ==> Validate(user[i]).None?
    ensures KeptMetrics(user) == []
    decreases |user|
  {
    if user != [] {
      var init := user[..|user| - 1];
      assert forall i :: 0 <= i < |init| ==> init[i] == user[i];
      NoValidMetricsGivesNone(init);
    }
  }

  // ---------------------------------------------------------------------------
  // Seeding the statistics

  lemma NamesLast(km: seq<KeyMetric>)
    requires |km| > 0
    ensures Names(km) == Names(km[..|km| - 1]) + {km[|km| - 1].name}
  {
  }

  lemma NamesSnoc(km: seq<KeyMetric>, i: nat)
    requires i < |km|
    ensures Names(km[..i + 1]) == Names(km[..i]) + {km[i].name}
    ensures forall n :: n in Names(km[..i + 1]) ==>
      LastDirection(km[..i + 1], n) == if n == km[i].name then km[i].direction else LastDirection(km[..i], n)
  {
    var a := km[..i + 1];
    assert a[..i] == km[..i] && a[i] == km[i];
    NamesLast(a);
    forall n | n in Names(a)
      ensures LastDirection(a, n) == if n == km[i].name then km[i].direction else LastDirection(km[..i], n)
    {
    }
  }

  /** The constructor's statistics loop: every key metric gets a direction (the last
      one given for its name) and a best equal to that direction's sentinel;
      `latest` starts empty. */
  method SeedStatistics(km: seq<KeyMetric>) returns (s: Stats)
    ensures s.latest == map[]
    ensures s.best.Keys == Names(km) && s.direction.Keys == Names(km)
    ensures forall n :: n in s.direction ==>
      s.direction[n] == LastDirection(km, n) && s.best[n] == Sentinel(s.direction[n])
  {
    var best: map<MetricName, real> := map[];
    var direction: map<MetricName, Direction> := map[];
    for i := 0 to |km|
      invariant best.Keys == Names(km[..i]) && direction.Keys == Names(km[..i])
      invariant forall n :: n in direction ==>
        direction[n] == LastDirection(km[..i], n) && best[n] == Sentinel(direction[n])
    {
      NamesSnoc(km, i);
      var m := km[i];
      direction := direction[m.name := m.direction];
      if m.direction == Min {
        best := best[m.name := MaxSize];
      } else {
        best := best[m.name := -1.0];
      }
    }
    assert km[..|km|] == km;
    s := Stats(best, map[], direction);
  }

  lemma DefaultNames()
    ensures Names(DefaultKeyMetrics) == {"loss", "val_loss", "acc", "val_acc"}
  {
    var d := DefaultKeyMetrics;
    assert d[0].name == "loss" && d[1].name == "val_loss";
    assert d[2].name == "acc" && d[3].name == "val_acc";
  }

  // ---------------------------------------------------------------------------
  // Recording results, as the source does it

  /** The dictionaries `record_results` builds from the previous best and one
      result set, or `Failure(n)` when `self.stats['best'][n]` raises `KeyError`. */
  function Statistics(km: seq<KeyMetric>, best: map<MetricName, real>, results: map<MetricName, real>)
    : Result<Update, MetricName>
    decreases |km|
  {
    if km == [] then Success(Update(map[], map[]))
    else
      match Statistics(km[..|km| - 1], best, results)
      case Failure(n) => Failure(n)
      case Success(u) =>
        var m := km[|km| - 1];
        if m.name !in results then Success(u)
        else if m.name !in best then Failure(m.name)
        else Success(Update(
          u.best[m.name := Improve(m.direction, best[m.name], results[m.name])],
          u.latest[m.name := results[m.name]]))
  }

  lemma {:induction false} FailureSticks(km: seq<KeyMetric>, k: nat, best: map<MetricName, real>, results: map<MetricName, real>)
    requires k <= |km|
    requires Statistics(km[..k], best, results).Failure?
    ensures Statistics(km, best, results) == Statistics(km[..k], best, results)
    decreases |km|
  {
    if k < |km| {
      var init := km[..|km| - 1];
      assert init[..k] == km[..k];
      FailureSticks(init, k, best, results);
    } else {
      assert km[..k] == km;
    }
  }

  /** The loop of `record_results` over the key metrics. */
  method ComputeStatistics(km: seq<KeyMetric>, best: map<MetricName, real>, results: map<MetricName, real>)
    returns (r: Result<Update, MetricName>)
    ensures r == Statistics(km, best, results)
  {
    var latestResults: map<MetricName, real> := map[];
    var bestResults: map<MetricName, real> := map[];
    for i := 0 to |km|
      invariant Statistics(km[..i], best, results) == Success(Update(bestResults, latestResults))
    {
      assert km[..i + 1][..i] == km[..i];
      var metricName := km[i].name;
      if metricName in results {
        if metricName !in best {
          FailureSticks(km, i + 1, best, results);
          return Failure(metricName);
        }
        var currentBest := best[metricName];
        var resVal := results[metricName];
        latestResults := latestResults[metricName := resVal];
        if km[i].direction == Min {
          bestResults := bestResults[metricName := MinReal(currentBest, resVal)];
        } else {
          bestResults := bestResults[metricName := MaxReal(currentBest, resVal)];
        }
      }
    }
    assert km[..|km|] == km;
    return Success(Update(bestResults, latestResults));
  }

  /** `record_results` fails exactly when a key metric is present in the results but
      missing from the previous best, and it names such a metric. */
  lemma {:induction false} StatisticsFailure(km: seq<KeyMetric>, best: map<MetricName, real>, results: map<MetricName, real>)
    ensures Statistics(km, best, results).Failure? <==> !(Names(km) * results.Keys <= best.Keys)
    ensures Statistics(km, best, results).Failure? ==>
      var n := Statistics(km, best, results).error;
      n in Names(km) && n in results && n !in best
    decreases |km|
  {
    if km != [] {
      NamesLast(km);
      StatisticsFailure(km[..|km| - 1], best, results);
    }
  }

  /** After a successful `record_results`, `best` and `latest` hold exactly the key
      metrics present in the results; `latest` is the recorded value and `best` the
      better of the previous best and that value. */
  lemma {:induction false} StatisticsSuccess(km: seq<KeyMetric>, best: map<MetricName, real>, results: map<MetricName, real>)
    requires Statistics(km, best, results).Success?
    ensures var u := Statistics(km, best, results).value;
      u.best.Keys == Names(km) * results.Keys && u.latest.Keys == Names(km) * results.Keys
    ensures var u := Statistics(km, best, results).value;
      forall n :: n in u.latest ==> u.latest[n] == results[n]
    ensures var u := Statistics(km, best, results).value;
      forall n :: n in u.best ==>
        n in best
        && AtLeastAsGood(LastDirection(km, n), u.best[n], best[n])
        && AtLeastAsGood(LastDirection(km, n), u.best[n], results[n])
        && (u.best[n] == best[n] || u.best[n] == results[n])
    decreases |km|
  {
    if km != [] {
      var init, m := km[..|km| - 1], km[|km| - 1];
      NamesLast(km);
      StatisticsSuccess(init, best, results);
      var u0, u := Statistics(init, best, results).value, Statistics(km, best, results).value;
      if m.name in results {
        assert u.best == u0.best[m.name := Improve(m.direction, best[m.name], results[m.name])];
        assert u.latest == u0.latest[m.name := results[m.name]];
      } else {
        assert u == u0;
      }
    }
  }

  /** Right after seeding, every key metric has a best, so the first record cannot fail. */
  lemma SeededStatisticsSucceed(km: seq<KeyMetric>, best: map<MetricName, real>, results: map<MetricName, real>)
    requires Names(km) <= best.Keys
    ensures Statistics(km, best, results).Success?
  {
    StatisticsFailure(km, best, results);
  }

  /** The sentinels are finite: on the first record after seeding, a metric's best is
      the recorded value only if that value is at least as good as the sentinel
      (at most `sys.maxsize` for `min`, at least -1 for `max`); otherwise the sentinel
      stays. */
  lemma FirstRecordBest(km: seq<KeyMetric>, best: map<MetricName, real>, results: map<MetricName, real>, n: MetricName)
    requires best.Keys == Names(km)
    requires forall m :: m in best ==> best[m] == Sentinel(LastDirection(km, m))
    requires n in Names(km) && n in results
    ensures Statistics(km, best, results).Success?
    ensures var b := Statistics(km, best, results).value.best; var d := LastDirection(km, n);
      n in b && b[n] == if AtLeastAsGood(d, results[n], Sentinel(d)) then results[n] else Sentinel(d)
  {
    SeededStatisticsSucceed(km, best, results);
    StatisticsSuccess(km, best, results);
  }

  /** The best values after a series of `record_results` calls, each starting from
      the previous call's best. */
  function Replay(km: seq<KeyMetric>, best: map<MetricName, real>, history: seq<map<MetricName, real>>)
    : Result<map<MetricName, real>, MetricName>
    decreases |history|
  {
    if history == [] then Success(best)
    else
      match Replay(km, best, history[..|history| - 1])
      case Failure(n) => Failure(n)
      case Success(b) =>
        match Statistics(km, b, history[|history| - 1])
        case Failure(n) => Failure(n)
        case Success(u) => Success(u.best)
  }

  /** A key metric recorded in every call never gets a worse best: it is at least as
      good as its starting value and as every value recorded. */
  lemma {:induction false} BestNeverWorse(
    km: seq<KeyMetric>, best: map<MetricName, real>, history: seq<map<MetricName, real>>, n: MetricName)
    requires n in Names(km) && n in best
    requires forall k :: 0 <= k < |history| ==> n in history[k]
    requires Replay(km, best, history).Success?
    ensures var b := Replay(km, best, history).value; var d := LastDirection(km, n);
      n in b
      && AtLeastAsGood(d, b[n], best[n])
      && forall k :: 0 <= k < |history| ==> AtLeastAsGood(d, b[n], history[k][n])
    decreases |history|
  {
    if history != [] {
      var init := history[..|history| - 1];
      assert forall k :: 0 <= k < |init| ==> init[k] == history[k];
      BestNeverWorse(km, best, init, n);
      var b := Replay(km, best, init).value;
      StatisticsSuccess(km, b, history[|history| - 1]);
    }
  }

  /** The source as written: with the default key metrics, a first record that only
      reports `loss` drops `val_loss` from `best`, and a second record that reports
      `val_loss` then raises `KeyError` for it. */
  lemma AbsentMetricBreaksNextRecord(best: map<MetricName, real>)
    requires Names(DefaultKeyMetrics) <= best.Keys
    ensures Replay(DefaultKeyMetrics, best, [map["loss" := 0.5]]).Success?
    ensures Replay(DefaultKeyMetrics, best, [map["loss" := 0.5], map["loss" := 0.4, "val_loss" := 0.3]])
      == Failure("val_loss")
  {
    DefaultNames();
    var km := DefaultKeyMetrics;
    var first := map["loss" := 0.5];
    var second := map["loss" := 0.4, "val_loss" := 0.3];
    SeededStatisticsSucceed(km, best, first);
    var u := Statistics(km, best, first).value;
    StatisticsSuccess(km, best, first);
    assert u.best.Keys == {"loss"};
    assert [first, second][..1] == [first];
    StatisticsFailure(km, u.best, second);
    assert "val_loss" in Names(km) * second.Keys && "val_loss" !in u.best;
  }

  // ---------------------------------------------------------------------------
  // Recording results with absent metrics retained

  /** The evidently intended update: metrics present in the results are updated
      against their previous best; every other entry of `best` and `latest` is kept. */
  function Retained(km: seq<KeyMetric>, best: map<MetricName, real>, latest: map<MetricName, real>,
                    results: map<MetricName, real>): Update
    decreases |km|
  {
    if km == [] then Update(best, latest)
    else
      var u := Retained(km[..|km| - 1], best, latest, results);
      var m := km[|km| - 1];
      if m.name !in results then u
      else
        var current := if m.name in best then best[m.name] else Sentinel(m.direction);
        Update(u.best[m.name := Improve(m.direction, current, results[m.name])],
               u.latest[m.name := results[m.name]])
  }

  /** The retaining update never loses a metric and overwrites `latest` only for
      the metrics reported. */
  lemma {:induction false} RetainedSpec(km: seq<KeyMetric>, best: map<MetricName, real>, latest: map<MetricName, real>,
                                        results: map<MetricName, real>)
    ensures var u := Retained(km, best, latest, results);
      u.best.Keys == best.Keys + Names(km) * results.Keys
      && u.latest.Keys == latest.Keys + Names(km) * results.Keys
    ensures var u := Retained(km, best, latest, results);
      forall n :: n in u.latest ==>
        u.latest[n] == if n in Names(km) && n in results then results[n] else latest[n]
    decreases |km|
  {
    if km != [] {
      var init, m := km[..|km| - 1], km[|km| - 1];
      NamesLast(km);
      RetainedSpec(init, best, latest, results);
      var u0, u := Retained(init, best, latest, results), Retained(km, best, latest, results);
      if m.name in results {
        assert u.latest == u0.latest[m.name := results[m.name]];
      } else {
        assert u == u0;
      }
    }
  }

  /** The retaining update improves `best` only for the metrics reported, and there
      it is at least as good as both the reported value and the previous best. */
  lemma {:induction false} RetainedBest(km: seq<KeyMetric>, best: map<MetricName, real>, latest: map<MetricName, real>,
                                        results: map<MetricName, real>)
    ensures var u := Retained(km, best, latest, results);
      forall n :: n in u.best ==>
        if n in Names(km) && n in results then
          AtLeastAsGood(LastDirection(km, n), u.best[n], results[n])
          && (n in best ==> AtLeastAsGood(LastDirection(km, n), u.best[n], best[n]))
        else n in best && u.best[n] == best[n]
    decreases |km|
  {
    if km != [] {
      var init, m := km[..|km| - 1], km[|km| - 1];
      NamesLast(km);
      RetainedSpec(init, best, latest, results);
      RetainedBest(init, best, latest, results);
      var u0, u := Retained(init, best, latest, results), Retained(km, best, latest, results);
      if m.name in results {
        var current := if m.name in best then best[m.name] else Sentinel(m.direction);
        assert u.best == u0.best[m.name := Improve(m.direction, current, results[m.name])];
      } else {
        assert u == u0;
      }
    }
  }

  /** A series of retaining updates. */
  function ReplayRetained(km: seq<KeyMetric>, start: Update, history: seq<map<MetricName, real>>): Update
    decreases |history|
  {
    if history == [] then start
    else
      var u := ReplayRetained(km, start, history[..|history| - 1]);
      Retained(km, u.best, u.latest, history[|history| - 1])
  }

  /** With absent metrics retained, the best of every key metric is at least as good as
      its seeded value and as every value ever recorded for it, whichever calls
      reported it. */
  lemma {:induction false} RetainedBestDominatesHistory(
    km: seq<KeyMetric>, start: Update, history: seq<map<MetricName, real>>, n: MetricName)
    requires n in Names(km) && n in start.best
    ensures var b := ReplayRetained(km, start, history).best; var d := LastDirection(km, n);
      n in b
      && AtLeastAsGood(d, b[n], start.best[n])
      && forall k :: 0 <= k < |history| && n in history[k] ==> AtLeastAsGood(d, b[n], history[k][n])
    decreases |history|
  {
    if history != [] {
      var init := history[..|history| - 1];
      assert forall k :: 0 <= k < |init| ==> init[k] == history[k];
      RetainedBestDominatesHistory(km, start, init, n);
      var u := ReplayRetained(km, start, init);
      RetainedSpec(km, u.best, u.latest, history[|history| - 1]);
      RetainedBest(km, u.best, u.latest, history[|history| - 1]);
    }
  }

  /** The retaining update is what the source computes for the metrics reported; it
      differs only in keeping the others. */
  lemma {:induction false} RetainedAgreesOnReported(km: seq<KeyMetric>, best: map<MetricName, real>,
                                                    latest: map<MetricName, real>, results: map<MetricName, real>)
    requires Statistics(km, best, results).Success?
    ensures var s := Statistics(km, best, results).value; var u := Retained(km, best, latest, results);
      (forall n :: n in s.best ==> n in u.best && u.best[n] == s.best[n])
      && (forall n :: n in s.latest ==> n in u.latest && u.latest[n] == s.latest[n])
    decreases |km|
  {
    if km != [] {
      RetainedAgreesOnReported(km[..|km| - 1], best, latest, results);
    }
  }
}
