/** The `Tuner` object: its counters, its instance map and its statistics, with
    `new_instance`, `record_results` and `get_model_by_id` as methods that update
    them in place. */
module TunerEngine {
  import opened Wrappers
  import opened Metrics
  import opened Generation

  /** The fields of a `*-results.json` file that the constructor reads. */
  datatype ResultRecord = ResultRecord(architecture: string, project: string, instance: Id)

  /** Why `record_results` raised `KeyError`: the instance is unknown, or a metric
      present in the results has no previous best. */
  datatype RecordError = UnknownInstance | MissingBest(name: MetricName)

  const DefaultMaxFailStreak: nat := 5

  predicate SameRun(r: ResultRecord, architecture: string, project: string) {
    r.architecture == architecture && r.project == project
  }

  /** What `_load_previously_trained_instances` keeps of the records already read
      from disk: every record of the same architecture and project, stored under its
      instance id, a later record replacing an earlier one. */
  function LoadedRecords(records: seq<ResultRecord>, architecture: string, project: string): map<Id, ResultRecord>
    decreases |records|
  {
    if records == [] then map[]
    else
      var previous := LoadedRecords(records[..|records| - 1], architecture, project);
      var data := records[|records| - 1];
      if SameRun(data, architecture, project) then previous[data.instance := data] else previous
  }

  /** `records[i]` is a record of this run with instance id `id`, and no later record
      of this run has that id. */
  predicate LastOfRun(records: seq<ResultRecord>, architecture: string, project: string, id: Id, i: int) {
    && 0 <= i < |records|
    && records[i].instance == id
    && SameRun(records[i], architecture, project)
    && forall j :: i < j < |records| && records[j].instance == id ==> !SameRun(records[j], architecture, project)
  }

  /** The ids kept are those of the records of this run. */
  lemma {:induction false} LoadedRecordsKeys(records: seq<ResultRecord>, architecture: string, project: string)
    ensures LoadedRecords(records, architecture, project).Keys
      == set i | 0 <= i < |records| && SameRun(records[i], architecture, project) :: records[i].instance
    decreases |records|
  {
    if records != [] {
      var n := |records| - 1;
      var init := records[..n];
      LoadedRecordsKeys(init, architecture, project);
      assert forall i :: 0 <= i < n ==> init[i] == records[i];
    }
  }

  /** Each kept id is mapped to the last record of this run with that id. */
  lemma {:induction false} LoadedRecordsLast(records: seq<ResultRecord>, architecture: string, project: string)
    ensures var previous := LoadedRecords(records, architecture, project);
      forall id :: id in previous ==>
        exists i :: LastOfRun(records, architecture, project, id, i) && records[i] == previous[id]
    decreases |records|
  {
    if records != [] {
      var n := |records| - 1;
      var init, data := records[..n], records[n];
      LoadedRecordsLast(init, architecture, project);
      var previous := LoadedRecords(records, architecture, project);
      forall id | id in previous
        ensures exists i :: LastOfRun(records, architecture, project, id, i) && records[i] == previous[id]
      {
        if id == data.instance && SameRun(data, architecture, project) {
          assert LastOfRun(records, architecture, project, id, n);
        } else {
          assert id in LoadedRecords(init, architecture, project);
          var i :| LastOfRun(init, architecture, project, id, i) && init[i] == LoadedRecords(init, architecture, project)[id];
          assert LastOfRun(records, architecture, project, id, i);
        }
      }
    }
  }

  /** The loop of `_load_previously_trained_instances`. */
  method LoadPreviouslyTrained(records: seq<ResultRecord>, architecture: string, project: string)
    returns (previous: map<Id, ResultRecord>)
    ensures previous == LoadedRecords(records, architecture, project)
    ensures previous.Keys == set i | 0 <= i < |records| && SameRun(records[i], architecture, project) :: records[i].instance
  {
    previous := map[];
    for k := 0 to |records|
      invariant previous == LoadedRecords(records[..k], architecture, project)
    {
      var data := records[k];
      assert records[..k + 1][..k] == records[..k];
      if data.architecture == architecture && data.project == project {
        previous := previous[data.instance := data];
      }
    }
    assert records[..|records|] == records;
    LoadedRecordsKeys(records, architecture, project);
  }

  class Tuner {
    // Configuration, fixed at construction.
    const maxFailStreak: nat
    const maxParams: nat
    const remainingBudget: int
    const keyMetrics: seq<KeyMetric>
    const previousInstances: map<Id, ResultRecord>

    // Run-wide counters.
    var numGeneratedModels: nat
    var numInvalidModels: nat
    var numCollisions: nat
    var numOverSizedModels: nat
    var numMdlPreviouslyTrained: nat

    var instances: map<Id, Instance>
    /** `current_instance_idx`; `None` stands for its initial value -1. */
    var currentInstanceIdx: Option<Id>
    /** `meta_data['tuner']`. */
    var meta: TunerMeta
    var stats: Stats

    ghost predicate Valid()
      reads this
    {
      && (forall id :: id in instances ==> instances[id].id == id)
      && (currentInstanceIdx.Some? ==> currentInstanceIdx.value in instances)
    }

    function Cfg(): Config
      reads this
    {
      Config(previousInstances.Keys, maxParams, maxFailStreak, remainingBudget)
    }

    function Counts(): Counters
      reads this
    {
      Counters(numGeneratedModels, numInvalidModels, numCollisions, numOverSizedModels, numMdlPreviouslyTrained)
    }

    function Bookkeeping(): Book
      reads this
    {
      Book(Counts(), instances, meta)
    }

    /** The parts of `__init__` this model covers: key metrics, seeded statistics,
        the previously trained instances, and counters starting at zero. */
    constructor (userMetrics: seq<UserMetric>, maxParams: nat, remainingBudget: int,
                 records: seq<ResultRecord>, architecture: string, project: string)
      ensures Valid()
      ensures this.maxFailStreak == DefaultMaxFailStreak && this.maxParams == maxParams
      ensures this.remainingBudget == remainingBudget
      ensures |userMetrics| == 0 ==> keyMetrics == DefaultKeyMetrics
      ensures |userMetrics| > 0 ==> keyMetrics == KeptMetrics(userMetrics)
      ensures stats.latest == map[]
      ensures stats.best.Keys == Names(keyMetrics) && stats.direction.Keys == Names(keyMetrics)
      ensures forall n :: n in stats.direction ==>
        stats.direction[n] == LastDirection(keyMetrics, n) && stats.best[n] == Sentinel(stats.direction[n])
      ensures previousInstances == LoadedRecords(records, architecture, project)
      ensures previousInstances.Keys
        == set i | 0 <= i < |records| && SameRun(records[i], architecture, project) :: records[i].instance
      ensures Counts() == Counters(0, 0, 0, 0, 0) && instances == map[] && currentInstanceIdx == None
      ensures meta == Snapshot(Cfg(), Counts())
    {
      this.maxFailStreak := DefaultMaxFailStreak;
      this.maxParams := maxParams;
      this.remainingBudget := remainingBudget;
      var km := SelectKeyMetrics(userMetrics);
      keyMetrics := km;
      var seeded := SeedStatistics(km);
      stats := seeded;
      var previous := LoadPreviouslyTrained(records, architecture, project);
      previousInstances := previous;
      numGeneratedModels, numInvalidModels, numCollisions := 0, 0, 0;
      numOverSizedModels, numMdlPreviouslyTrained := 0, 0;
      instances := map[];
      currentInstanceIdx := None;
      meta := TunerMeta(remainingBudget, 0, 0, 0, 0);
    }

    /** `get_model_by_id`: the registered instance with that id, if any. */
    function GetModelById(idx: Id): (r: Option<Instance>)
      reads this
      requires Valid()
      ensures r.Some? <==> idx in instances
      ensures r.Some? ==> r.value == instances[idx] && r.value.id == idx
    {
      if idx in instances then Some(instances[idx]) else None
    }

    /** `_update_metadata`. */
    method UpdateMetadata()
      modifies this`meta
      ensures meta == Snapshot(Cfg(), Counts())
    {
      meta := TunerMeta(remainingBudget, numGeneratedModels, numCollisions, numInvalidModels, numOverSizedModels);
    }

    /** One pass of the loop body of `new_instance` on the factory's answer
        `attempt`: the counters and the metadata are updated as `Step` says, and
        the pass either goes round again with the streaks `st'` (`stop` is `None`)
        or ends the loop with `stop`. An accepted instance is not registered
        here; the caller does that after the loop. */
    method Pass(attempt: Attempt, st: Streaks) returns (st': Streaks, stop: Option<Stop>)
      modifies this`numGeneratedModels, this`numInvalidModels, this`numCollisions
      modifies this`numOverSizedModels, this`numMdlPreviouslyTrained, this`meta
      ensures match Step(Cfg(), old(Bookkeeping()), st, attempt)
        case Next(b, s) => stop == None && st' == s && Bookkeeping() == b
        case Done(x, b) =>
          && stop == Some(x)
          && (if x.Accepted? then b == Bookkeeping().(instances := instances[x.instance.id := x.instance])
              else Bookkeeping() == b)
    {
      st' := st;
      stop := None;
      numGeneratedModels := numGeneratedModels + 1;
      if attempt.Raise? {
        numInvalidModels := numInvalidModels + 1;
        if numInvalidModels >= maxFailStreak {
          stop := Some(InvalidLimit);
        }
        return;
      }
      if attempt.Falsy? {
        return st', Some(NoModel);
      }
      var idx := attempt.id;
      if idx in previousInstances {
        numMdlPreviouslyTrained := numMdlPreviouslyTrained + 1;
        return;
      }
      if idx in instances {
        st' := st'.(collision := st'.collision + 1);
        numCollisions := numCollisions + 1;
        meta := meta.(collisions := numCollisions);
        if st'.collision >= maxFailStreak {
          stop := Some(CollisionLimit);
        }
        return;
      }
      UpdateMetadata();
      var instance := Instance(idx, attempt.numParams);
      var numParams := instance.numParams;
      if numParams > maxParams {
        st' := st'.(overSized := st'.overSized + 1);
        numOverSizedModels := numOverSizedModels + 1;
        if st'.overSized >= maxFailStreak {
          stop := Some(OverSizeLimit);
        }
        return;
      }
      stop := Some(Accepted(instance));
    }

    /** `new_instance`, calling the model factory once per element of `script`.
        The new counters, instances and metadata are those `Run` gives; an accepted
        instance becomes the current one and is returned. */
    method NewInstance(script: seq<Attempt>) returns (r: Option<Instance>, stop: Stop)
      requires Valid()
      modifies this
      ensures Valid()
      ensures var g := Run(old(Cfg()), old(Bookkeeping()), Streaks(0, 0), script);
        stop == g.stop && Bookkeeping() == g.book
      ensures r == if stop.Accepted? then Some(stop.instance) else None
      ensures currentInstanceIdx == if stop.Accepted? then Some(stop.instance.id) else old(currentInstanceIdx)
      ensures r.Some? ==> GetModelById(r.value.id) == r
      ensures stats == old(stats)
    {
      var failStreak := 0;
      var streaks := Streaks(0, 0);
      ghost var g := Run(Cfg(), Bookkeeping(), streaks, script);
      var i := 0;
      while i < |script|
        invariant 0 <= i <= |script|
        invariant instances == old(instances) && currentInstanceIdx == old(currentInstanceIdx)
        invariant stats == old(stats)
        invariant g == Run(Cfg(), Bookkeeping(), streaks, script[i..])
        decreases |script| - i
      {
        RunFrom(Cfg(), Bookkeeping(), streaks, script, i);
        failStreak := failStreak + 1;
        var pass;
        streaks, pass := Pass(script[i], streaks);
        i := i + 1;
        if pass.Some? {
          if !pass.value.Accepted? {
            return None, pass.value;
          }
          var instance := pass.value.instance;
          instances := instances[instance.id := instance];
          currentInstanceIdx := Some(instance.id);
          return Some(instances[instance.id]), pass.value;
        }
      }
      return None, ScriptEnded;
    }

    /** `record_results` for the instance `idx` (the current one when `idx` is falsy),
        given the `key_metrics` of that instance's results. On success `best` and
        `latest` are replaced by what `Statistics` computes; on `KeyError` nothing
        changes. */
    method RecordResults(idx: Option<Id>, results: map<MetricName, real>) returns (err: Option<RecordError>)
      requires Valid()
      modifies this`stats
      ensures Valid()
      ensures var key := if idx.None? || idx.value == "" then old(currentInstanceIdx) else idx;
        if key.None? || key.value !in instances then
          err == Some(UnknownInstance) && stats == old(stats)
        else
          match Statistics(keyMetrics, old(stats).best, results)
          case Failure(n) => err == Some(MissingBest(n)) && stats == old(stats)
          case Success(u) => err == None && stats == old(stats).(best := u.best, latest := u.latest)
    {
      var key := if idx.None? || idx.value == "" then currentInstanceIdx else idx;
      if key.None? || key.value !in instances {
        return Some(UnknownInstance);
      }
      var r := ComputeStatistics(keyMetrics, stats.best, results);
      match r
      case Failure(n) =>
        return Some(MissingBest(n));
      case Success(u) =>
        stats := stats.(best := u.best, latest := u.latest);
        return None;
    }
  }
}
