/** The retry policy of `Tuner.new_instance`, as a function of the tuner's
    bookkeeping and of the sequence of attempts the model factory produces.
    `Tuner.NewInstance` (tuner.dfy) is proved to compute `Run`. */
module Generation {

  /** A model identity: the truncated SHA-256 digest of the model's configuration,
      taken as given. */
  type Id = string

  /** What one call of the model factory yields: an exception, a falsy value, or a
      model with its identity and its parameter count. */
  datatype Attempt = Raise | Falsy | Built(id: Id, numParams: nat)

  /** A registered instance. */
  datatype Instance = Instance(id: Id, numParams: nat)

  /** The run-wide counters. */
  datatype Counters = Counters(
    generated: nat,          // num_generated_models
    invalid: nat,            // num_invalid_models
    collisions: nat,         // num_collisions
    overSized: nat,          // num_over_sized_models
    previouslyTrained: nat)  // num_mdl_previously_trained

  /** The fields of `meta_data['tuner']` the generation loop writes. */
  datatype TunerMeta = TunerMeta(
    remainingBudget: int,
    trainedModels: nat,
    collisions: nat,
    invalidModels: nat,
    overSizeModels: nat)

  /** What the loop reads but never changes. */
  datatype Config = Config(previous: set<Id>, maxParams: nat, maxFailStreak: nat, remainingBudget: int)

  /** What the loop changes. */
  datatype Book = Book(counters: Counters, instances: map<Id, Instance>, meta: TunerMeta)

  /** The per-call streaks that can end a call. */
  datatype Streaks = Streaks(collision: nat, overSized: nat)

  /** How a call ends: with an accepted instance, or with `None` for one of four
      reasons; `ScriptEnded` marks the end of the finite list of attempts. */
  datatype Stop =
    | Accepted(instance: Instance)
    | NoModel
    | InvalidLimit
    | CollisionLimit
    | OverSizeLimit
    | ScriptEnded

  datatype StepResult = Next(book: Book, streaks: Streaks) | Done(stop: Stop, book: Book)

  datatype Generation = Generation(stop: Stop, book: Book)

  /** `_update_metadata`: copy the counters into `meta_data['tuner']`. */
  function Snapshot(cfg: Config, c: Counters): TunerMeta {
    TunerMeta(cfg.remainingBudget, c.generated, c.collisions, c.invalid, c.overSized)
  }

  /** One iteration of the `while 1` loop. */
  function Step(cfg: Config, b: Book, st: Streaks, a: Attempt): StepResult {
    var c := b.counters.(generated := b.counters.generated + 1);
    match a
    case Raise =>
      var c' := c.(invalid := c.invalid + 1);
      if c'.invalid >= cfg.maxFailStreak then Done(InvalidLimit, b.(counters := c'))
      else Next(b.(counters := c'), st)
    case Falsy =>
      Done(NoModel, b.(counters := c))
    case Built(id, numParams) =>
      if id in cfg.previous then
        Next(b.(counters := c.(previouslyTrained := c.previouslyTrained + 1)), st)
      else if id in b.instances then
        var c' := c.(collisions := c.collisions + 1);
        var b' := b.(counters := c', meta := b.meta.(collisions := c'.collisions));
        if st.collision + 1 >= cfg.maxFailStreak then Done(CollisionLimit, b')
        else Next(b', st.(collision := st.collision + 1))
      else
        var meta := Snapshot(cfg, c);
        if numParams > cfg.maxParams then
          var b' := b.(counters := c.(overSized := c.overSized + 1), meta := meta);
          if st.overSized + 1 >= cfg.maxFailStreak then Done(OverSizeLimit, b')
          else Next(b', st.(overSized := st.overSized + 1))
        else
          var inst := Instance(id, numParams);
          Done(Accepted(inst), Book(c, b.instances[id := inst], meta))
  }

  /** The loop run over a list of attempts, one consumed per iteration. */
  function Run(cfg: Config, b: Book, st: Streaks, script: seq<Attempt>): Generation
    decreases |script|
  {
    if script == [] then Generation(ScriptEnded, b)
    else
      match Step(cfg, b, st, script[0])
      case Next(b', st') => Run(cfg, b', st', script[1..])
      case Done(stop, b') => Generation(stop, b')
  }

  /** `Run` on the attempts from `i` on is one `Step` followed by `Run` on the rest. */
  lemma RunFrom(cfg: Config, b: Book, st: Streaks, script: seq<Attempt>, i: nat)
    requires i < |script|
    ensures Run(cfg, b, st, script[i..]) ==
      match Step(cfg, b, st, script[i])
      case Next(b', st') => Run(cfg, b', st', script[i + 1..])
      case Done(stop, b') => Generation(stop, b')
  {
    assert script[i..][0] == script[i] && script[i..][1..] == script[i + 1..];
  }

  /** The number of factory calls a call makes. */
  function Delta(g: Generation, b: Book): int {
    g.book.counters.generated - b.counters.generated
  }

  // ---------------------------------------------------------------------------
  // Properties of one call

  /** An accepted id was in neither the previous run's ids nor this run's
      instances, its model is not oversized, and registering it is the only change
      to the instances; any other outcome leaves the instances unchanged. */
  lemma {:induction false} RunInstances(cfg: Config, b: Book, st: Streaks, script: seq<Attempt>)
    ensures var g := Run(cfg, b, st, script);
      match g.stop
      case Accepted(inst) =>
        inst.id !in b.instances && inst.id !in cfg.previous && inst.numParams <= cfg.maxParams
        && Built(inst.id, inst.numParams) in script
        && g.book.instances == b.instances[inst.id := inst]
      case _ => g.book.instances == b.instances
    decreases |script|
  {
    if script != [] {
      match Step(cfg, b, st, script[0])
      case Next(b', st') =>
        RunInstances(cfg, b', st', script[1..]);
        var g := Run(cfg, b', st', script[1..]);
        if g.stop.Accepted? {
          assert Built(g.stop.instance.id, g.stop.instance.numParams) in script[1..];
        }
      case Done(_, _) =>
    }
  }

  /** Every iteration increments `num_generated_models`, and every iteration is
      counted by exactly one other counter except the last one of a call that
      accepts a model or gets a falsy one; no counter ever decreases. */
  lemma {:induction false} RunCounters(cfg: Config, b: Book, st: Streaks, script: seq<Attempt>)
    ensures var g := Run(cfg, b, st, script);
      Accounted(b.counters, g.book.counters, if g.stop.Accepted? || g.stop.NoModel? then 1 else 0)
    ensures var g := Run(cfg, b, st, script);
      0 <= Delta(g, b) <= |script|
    ensures var g := Run(cfg, b, st, script);
      (g.stop.ScriptEnded? ==> Delta(g, b) == |script|) && (!g.stop.ScriptEnded? ==> Delta(g, b) >= 1)
    decreases |script|
  {
    if script != [] {
      StepCounters(cfg, b, st, script[0]);
      match Step(cfg, b, st, script[0])
      case Next(b', st') =>
        RunCounters(cfg, b', st', script[1..]);
        assert Run(cfg, b, st, script) == Run(cfg, b', st', script[1..]);
      case Done(_, _) =>
    }
  }

  /** No counter goes down from `c` to `c'`, and every generated model beyond `extra`
      is counted as invalid, a collision, oversized or previously trained. */
  predicate Accounted(c: Counters, c': Counters, extra: nat) {
    && c'.invalid >= c.invalid && c'.collisions >= c.collisions && c'.overSized >= c.overSized
    && c'.previouslyTrained >= c.previouslyTrained
    && c'.generated - c.generated
       == (c'.invalid - c.invalid) + (c'.collisions - c.collisions) + (c'.overSized - c.overSized)
          + (c'.previouslyTrained - c.previouslyTrained) + extra
  }

  /** One iteration counts its model exactly once. */
  lemma StepCounters(cfg: Config, b: Book, st: Streaks, a: Attempt)
    ensures match Step(cfg, b, st, a)
      case Next(b', _) => Accounted(b.counters, b'.counters, 0) && b'.counters.generated == b.counters.generated + 1
      case Done(stop, b') =>
        Accounted(b.counters, b'.counters, if stop.Accepted? || stop.NoModel? then 1 else 0)
        && b'.counters.generated == b.counters.generated + 1
  {
  }

  /** `meta_data['tuner']` mirrors the counters when a model is accepted, because
      `_update_metadata` ran in that last iteration. */
  lemma {:induction false} RunMetaOnAccept(cfg: Config, b: Book, st: Streaks, script: seq<Attempt>)
    ensures var g := Run(cfg, b, st, script);
      g.stop.Accepted? ==> g.book.meta == Snapshot(cfg, g.book.counters)
    decreases |script|
  {
    if script != [] {
      match Step(cfg, b, st, script[0])
      case Next(b', st') => RunMetaOnAccept(cfg, b', st', script[1..]);
      case Done(_, _) =>
    }
  }

  /** A call stops on a limit exactly when the counter behind it reaches
      `max_fail_streak`: the run-wide `num_invalid_models` for invalid models, the
      per-call streaks for collisions and oversized models. Until then every such
      counter stays below the limit. A counter that starts at or above the limit
      (`num_invalid_models` in every call after one that stopped on it) ends the
      call at its next increment, and does not move in a call that stops otherwise. */
  lemma {:induction false} RunStreakLimits(cfg: Config, b: Book, st: Streaks, script: seq<Attempt>)
    ensures var g := Run(cfg, b, st, script); var c, c' := b.counters, g.book.counters;
      var m := cfg.maxFailStreak;
      b.counters.invalid < m ==>
        (g.stop.InvalidLimit? ==> c'.invalid == m) && (!g.stop.InvalidLimit? ==> c'.invalid < m)
    ensures var g := Run(cfg, b, st, script); var c, c' := b.counters, g.book.counters;
      var m := cfg.maxFailStreak;
      (g.stop.InvalidLimit? ==> c'.invalid >= m)
      && (!g.stop.InvalidLimit? && c.invalid >= m ==> c'.invalid == c.invalid)
    ensures var g := Run(cfg, b, st, script); var c, c' := b.counters, g.book.counters;
      var m := cfg.maxFailStreak; var k := st.collision + (c'.collisions - c.collisions);
      (st.collision < m ==> (g.stop.CollisionLimit? ==> k == m) && (!g.stop.CollisionLimit? ==> k < m))
      && (g.stop.CollisionLimit? ==> k >= m)
      && (!g.stop.CollisionLimit? && st.collision >= m ==> c'.collisions == c.collisions)
    ensures var g := Run(cfg, b, st, script); var c, c' := b.counters, g.book.counters;
      var m := cfg.maxFailStreak; var k := st.overSized + (c'.overSized - c.overSized);
      (st.overSized < m ==> (g.stop.OverSizeLimit? ==> k == m) && (!g.stop.OverSizeLimit? ==> k < m))
      && (g.stop.OverSizeLimit? ==> k >= m)
      && (!g.stop.OverSizeLimit? && st.overSized >= m ==> c'.overSized == c.overSized)
    decreases |script|
  {
    if script != [] {
      match Step(cfg, b, st, script[0])
      case Next(b', st') => RunStreakLimits(cfg, b', st', script[1..]);
      case Done(_, _) =>
    }
  }

  /** `num_invalid_models` is never reset: once it has reached the limit, the next
      exception ends the call at once, in whatever call it happens. */
  lemma InvalidCountNotReset(cfg: Config, b: Book, st: Streaks, script: seq<Attempt>)
    requires script != [] && script[0] == Raise
    requires b.counters.invalid + 1 >= cfg.maxFailStreak
    ensures var g := Run(cfg, b, st, script);
      g.stop == InvalidLimit && g.book.instances == b.instances
      && g.book.counters == b.counters.(generated := b.counters.generated + 1, invalid := b.counters.invalid + 1)
  {
  }

  /** A falsy model ends the call at once: only `num_generated_models` changes. */
  lemma FalsyEndsCall(cfg: Config, b: Book, st: Streaks, script: seq<Attempt>)
    requires script != [] && script[0] == Falsy
    ensures var g := Run(cfg, b, st, script);
      g.stop == NoModel && g.book.instances == b.instances && g.book.meta == b.meta
      && g.book.counters == b.counters.(generated := b.counters.generated + 1)
  {
  }

  /** A model trained in a previous run changes only `num_generated_models` and
      `num_mdl_previously_trained`, and the call goes on with the same streaks. */
  lemma PreviouslyTrainedSkipped(cfg: Config, b: Book, st: Streaks, id: Id, numParams: nat)
    requires id in cfg.previous
    ensures Step(cfg, b, st, Built(id, numParams))
      == Next(b.(counters := b.counters.(generated := b.counters.generated + 1,
                                         previouslyTrained := b.counters.previouslyTrained + 1)), st)
  {
  }

  // ---------------------------------------------------------------------------
  // Scenarios

  /** A factory that always raises ends the call after exactly as many attempts as
      `num_invalid_models` lacks to reach the limit, leaving it at the limit. */
  lemma {:induction false} AlwaysRaising(cfg: Config, b: Book, st: Streaks, script: seq<Attempt>)
    requires forall k :: 0 <= k < |script| ==> script[k] == Raise
    requires b.counters.invalid < cfg.maxFailStreak
    requires |script| >= cfg.maxFailStreak - b.counters.invalid
    ensures var g := Run(cfg, b, st, script);
      g.stop == InvalidLimit && g.book.counters.invalid == cfg.maxFailStreak
      && Delta(g, b) == cfg.maxFailStreak - b.counters.invalid
      && g.book.instances == b.instances
    decreases |script|
  {
    var b' := b.(counters := b.counters.(generated := b.counters.generated + 1, invalid := b.counters.invalid + 1));
    assert Step(cfg, b, st, script[0]) == if b'.counters.invalid >= cfg.maxFailStreak then Done(InvalidLimit, b') else Next(b', st);
    if b'.counters.invalid < cfg.maxFailStreak {
      AlwaysRaising(cfg, b', st, script[1..]);
    }
  }

  /** A factory whose models all collide with this run's instances ends the call
      after as many collisions as the streak lacks to reach the limit; the instances
      do not change. */
  lemma {:induction false} AlwaysColliding(cfg: Config, b: Book, st: Streaks, script: seq<Attempt>)
    requires forall k :: 0 <= k < |script| ==>
      script[k].Built? && script[k].id in b.instances && script[k].id !in cfg.previous
    requires st.collision < cfg.maxFailStreak
    requires |script| >= cfg.maxFailStreak - st.collision
    ensures var g := Run(cfg, b, st, script);
      g.stop == CollisionLimit
      && g.book.counters.collisions == b.counters.collisions + (cfg.maxFailStreak - st.collision)
      && Delta(g, b) == cfg.maxFailStreak - st.collision
      && g.book.counters.invalid == b.counters.invalid
      && g.book.instances == b.instances
    decreases |script|
  {
    var c := b.counters.(generated := b.counters.generated + 1, collisions := b.counters.collisions + 1);
    var b' := b.(counters := c, meta := b.meta.(collisions := c.collisions));
    if st.collision + 1 < cfg.maxFailStreak {
      assert forall k :: 0 <= k < |script[1..]| ==> script[1..][k] == script[k + 1];
      AlwaysColliding(cfg, b', st.(collision := st.collision + 1), script[1..]);
    }
  }

  /** A factory whose new models are all oversized ends the call after as many
      rejections as the streak lacks to reach the limit, and registers nothing. */
  lemma {:induction false} AlwaysOversized(cfg: Config, b: Book, st: Streaks, script: seq<Attempt>)
    requires forall k :: 0 <= k < |script| ==>
      script[k].Built? && script[k].id !in b.instances && script[k].id !in cfg.previous
      && script[k].numParams > cfg.maxParams
    requires st.overSized < cfg.maxFailStreak
    requires |script| >= cfg.maxFailStreak - st.overSized
    ensures var g := Run(cfg, b, st, script);
      g.stop == OverSizeLimit
      && g.book.counters.overSized == b.counters.overSized + (cfg.maxFailStreak - st.overSized)
      && Delta(g, b) == cfg.maxFailStreak - st.overSized
      && g.book.instances == b.instances
    decreases |script|
  {
    var c := b.counters.(generated := b.counters.generated + 1);
    var b' := b.(counters := c.(overSized := c.overSized + 1), meta := Snapshot(cfg, c));
    if st.overSized + 1 < cfg.maxFailStreak {
      assert forall k :: 0 <= k < |script[1..]| ==> script[1..][k] == script[k + 1];
      AlwaysOversized(cfg, b', st.(overSized := st.overSized + 1), script[1..]);
    }
  }

  /** Models trained in a previous run are skipped without bound: a factory that only
      produces them never ends a call; only the two counters concerned move. */
  lemma {:induction false} AlwaysPreviouslyTrained(cfg: Config, b: Book, st: Streaks, script: seq<Attempt>)
    requires forall k :: 0 <= k < |script| ==> script[k].Built? && script[k].id in cfg.previous
    ensures var g := Run(cfg, b, st, script);
      g.stop == ScriptEnded
      && g.book == b.(counters := b.counters.(generated := b.counters.generated + |script|,
                                              previouslyTrained := b.counters.previouslyTrained + |script|))
    decreases |script|
  {
    if script != [] {
      var b' := b.(counters := b.counters.(generated := b.counters.generated + 1,
                                           previouslyTrained := b.counters.previouslyTrained + 1));
      assert forall k :: 0 <= k < |script[1..]| ==> script[1..][k] == script[k + 1];
      AlwaysPreviouslyTrained(cfg, b', st, script[1..]);
    }
  }

  /** A previously trained model followed by a new one: the second is accepted and
      the skip is counted only as previously trained. */
  lemma PreviousSkipThenAccept(cfg: Config, b: Book, h: Id, h2: Id, p0: nat, p: nat)
    requires h in cfg.previous && h2 !in cfg.previous && h2 !in b.instances && p <= cfg.maxParams
    ensures var g := Run(cfg, b, Streaks(0, 0), [Built(h, p0), Built(h2, p)]);
      g.stop == Accepted(Instance(h2, p))
      && g.book.counters == b.counters.(generated := b.counters.generated + 2,
                                        previouslyTrained := b.counters.previouslyTrained + 1)
      && g.book.instances == b.instances[h2 := Instance(h2, p)]
  {
    var script := [Built(h, p0), Built(h2, p)];
    var b' := b.(counters := b.counters.(generated := b.counters.generated + 1,
                                         previouslyTrained := b.counters.previouslyTrained + 1));
    assert Step(cfg, b, Streaks(0, 0), script[0]) == Next(b', Streaks(0, 0));
    assert script[1..] == [Built(h2, p)];
  }

  /** A factory that always builds the same model: the first call registers it, and a
      later call with a fresh streak stops after `max_fail_streak` collisions. */
  lemma SameModelTwice(cfg: Config, b: Book, h: Id, p: nat, first: seq<Attempt>, second: seq<Attempt>)
    requires h !in cfg.previous && h !in b.instances && p <= cfg.maxParams
    requires 0 < cfg.maxFailStreak
    requires first != [] && first[0] == Built(h, p)
    requires |second| >= cfg.maxFailStreak && forall k :: 0 <= k < |second| ==> second[k] == Built(h, p)
    ensures var g1 := Run(cfg, b, Streaks(0, 0), first);
      var g2 := Run(cfg, g1.book, Streaks(0, 0), second);
      g1.stop == Accepted(Instance(h, p))
      && g2.stop == CollisionLimit
      && g2.book.instances == b.instances[h := Instance(h, p)]
      && g2.book.counters.collisions == b.counters.collisions + cfg.maxFailStreak
  {
    var g1 := Run(cfg, b, Streaks(0, 0), first);
    assert g1.stop == Accepted(Instance(h, p));
    AlwaysColliding(cfg, g1.book, Streaks(0, 0), second);
  }
}
