/** The training schedule of the WGAN-GP trainer, as the trace of actions it
    issues.  The networks, the optimiser and the file writes are opaque:
    each call into them is one event of the trace.  The random draws an
    epoch consumes (the image indices of each critic batch) and the loss
    values the networks hand back are inputs, one `EpochDraws` per epoch. */
module Schedule {
  import opened Options
  import opened Labels
  import opened Checkpoint

  /** One opaque action of the trainer. */
  datatype Event =
    | CriticStep(epoch: int, batch: seq<int>, targets: CriticTargets)  // critic_graph.train_on_batch
    | GeneratorStep(epoch: int, target: seq<int>)                      // generator_graph.train_on_batch
    | Sample(epoch: int)                                               // sample_images
    | WriteConfig(path: string, config: Config)                        // json.dump of get_config()
    | WriteGenerator(path: string)                                     // generator.save
    | WriteCritic(path: string)                                        // critic.save

  /** The events train issues; they all carry the epoch they belong to. */
  predicate IsTrainingEvent(ev: Event)
  {
    ev.CriticStep? || ev.GeneratorStep? || ev.Sample?
  }

  /** What one epoch consumes from outside: the index batch drawn by
      `np.random.randint` for each critic update, and the loss values the
      critic and generator graphs return. */
  datatype EpochDraws = EpochDraws(batches: seq<seq<int>>, criticLosses: seq<real>, generatorLoss: real)

  /** `np.random.randint(0, n, batchSize)`: `batchSize` indices, each in
      `[0, n)`, drawn with replacement (repetitions allowed).  numpy raises
      when the range is empty, so no batch exists for `n == 0`. */
  predicate IsIndexBatch(batch: seq<int>, batchSize: nat, n: nat)
  {
    0 < n && |batch| == batchSize && forall i :: 0 <= i < |batch| ==> 0 <= batch[i] < n
  }

  /** The draws of one epoch fit a trainer with `nCritic` critic updates per
      epoch over a dataset of `n` images. */
  predicate WellFormedDraws(d: EpochDraws, nCritic: nat, batchSize: nat, n: nat)
  {
    |d.batches| == nCritic && |d.criticLosses| == nCritic &&
    forall k :: 0 <= k < nCritic ==> IsIndexBatch(d.batches[k], batchSize, n)
  }

  /** Every epoch draws one batch per critic update. */
  predicate CriticBatchCounts(draws: seq<EpochDraws>, nCritic: nat)
  {
    forall e :: 0 <= e < |draws| ==> |draws[e].batches| == nCritic
  }

  predicate AllWellFormed(draws: seq<EpochDraws>, nCritic: nat, batchSize: nat, n: nat)
  {
    forall e :: 0 <= e < |draws| ==> WellFormedDraws(draws[e], nCritic, batchSize, n)
  }

  // ---------------------------------------------------------------------
  // Python's integer `%`, which floors (the result has the divisor's sign)
  // ---------------------------------------------------------------------

  /** Python's `a // b`. */
  function FloorDiv(a: int, b: int): int
    requires b != 0
  {
    if b > 0 then a / b else (-a) / (-b)
  }

  /** Python's `a % b`. */
  function FloorMod(a: int, b: int): int
    requires b != 0
  {
    if b > 0 then a % b else -((-a) % (-b))
  }

  /** The defining property of Python's `//` and `%`: they split `a` into a
      multiple of `b` and a remainder that has the sign of `b` and is smaller
      than `b` in magnitude. */
  lemma FloorModSpec(a: int, b: int)
    requires b != 0
    ensures a == b * FloorDiv(a, b) + FloorMod(a, b)
    ensures 0 < b ==> 0 <= FloorMod(a, b) < b
    ensures b < 0 ==> b < FloorMod(a, b) <= 0
  {
    if b < 0 {
      var c := -b;
      assert -a == c * ((-a) / c) + (-a) % c;
    }
  }

  /** `sample_interval and epoch % sample_interval == 0`: None and 0 are
      falsy and never sample. */
  predicate SampleDue(epoch: int, interval: Option<int>)
  {
    interval.Some? && interval.value != 0 && FloorMod(epoch, interval.value) == 0
  }

  // ---------------------------------------------------------------------
  // The schedule
  // ---------------------------------------------------------------------

  /** The updates of train_discriminator at epoch `epoch`: one critic step per
      drawn batch, in order, all with the same targets. */
  function CriticSteps(epoch: int, batches: seq<seq<int>>, batchSize: nat): seq<Event>
  {
    if |batches| == 0 then []
    else CriticSteps(epoch, batches[..|batches| - 1], batchSize)
         + [CriticStep(epoch, batches[|batches| - 1], CriticTargetsFor(batchSize))]
  }

  function SampleEvents(epoch: int, interval: Option<int>): seq<Event>
  {
    if SampleDue(epoch, interval) then [Sample(epoch)] else []
  }

  /** One iteration of the loop in train, with `self.epoch == epoch`. */
  function EpochEvents(epoch: int, d: EpochDraws, batchSize: nat, interval: Option<int>): seq<Event>
  {
    CriticSteps(epoch, d.batches, batchSize)
    + [GeneratorStep(epoch, GeneratorTarget(batchSize))]
    + SampleEvents(epoch, interval)
  }

  /** The events of the first `count` epochs of `train` started at epoch
      `start`: epochs `start + 1 .. start + count` in order, epoch
      `start + i + 1` consuming `draws[i]`. */
  function TrainTrace(start: int, draws: seq<EpochDraws>, count: nat, batchSize: nat, interval: Option<int>): seq<Event>
    requires count <= |draws|
  {
    if count == 0 then []
    else TrainTrace(start, draws, count - 1, batchSize, interval)
         + EpochEvents(start + count, draws[count - 1], batchSize, interval)
  }

  // ---------------------------------------------------------------------
  // Observations on traces
  // ---------------------------------------------------------------------

  datatype Phase = CriticPhase | GeneratorPhase | SamplePhase

  predicate InPhase(ev: Event, ph: Phase)
  {
    match ph
    case CriticPhase => ev.CriticStep?
    case GeneratorPhase => ev.GeneratorStep?
    case SamplePhase => ev.Sample?
  }

  /** The epochs of the events of phase `ph`, in trace order. */
  function EpochsOf(tr: seq<Event>, ph: Phase): seq<int>
  {
    EpochsIn(tr, |tr|, ph)
  }

  /** The epochs of the events of phase `ph` among the first `n` of `tr`. */
  function EpochsIn(tr: seq<Event>, n: nat, ph: Phase): seq<int>
    requires n <= |tr|
  {
    if n == 0 then []
    else EpochsIn(tr, n - 1, ph) + (if InPhase(tr[n - 1], ph) then [tr[n - 1].epoch] else [])
  }

  /** The epochs `start + 1, start + 2, ..., start + n`. */
  function EpochsAfter(start: int, n: nat): (r: seq<int>)
    ensures |r| == n
  {
    if n == 0 then [] else EpochsAfter(start, n - 1) + [start + n]
  }

  predicate StrictlyIncreasing(s: seq<int>)
  {
    forall i, j :: 0 <= i < j < |s| ==> s[i] < s[j]
  }

  // ---------------------------------------------------------------------
  // Lemmas
  // ---------------------------------------------------------------------

  /** `EpochsIn` looks at nothing beyond the first `n` events. */
  lemma {:induction false} EpochsInPrefix(s: seq<Event>, t: seq<Event>, n: nat, ph: Phase)
    requires n <= |s| && n <= |t|
    requires forall i :: 0 <= i < n ==> s[i] == t[i]
    ensures EpochsIn(s, n, ph) == EpochsIn(t, n, ph)
  {
    if n > 0 {
      EpochsInPrefix(s, t, n - 1, ph);
    }
  }

  lemma {:induction false} EpochsInAppend(a: seq<Event>, b: seq<Event>, k: nat, ph: Phase)
    requires k <= |b|
    ensures EpochsIn(a + b, |a| + k, ph) == EpochsIn(a, |a|, ph) + EpochsIn(b, k, ph)
  {
    if k > 0 {
      EpochsInAppend(a, b, k - 1, ph);
      assert (a + b)[|a| + k - 1] == b[k - 1];
    } else {
      EpochsInPrefix(a + b, a, |a|, ph);
    }
  }

  lemma EpochsOfAppend(a: seq<Event>, b: seq<Event>, ph: Phase)
    ensures EpochsOf(a + b, ph) == EpochsOf(a, ph) + EpochsOf(b, ph)
  {
    EpochsInAppend(a, b, |b|, ph);
  }

  lemma EpochsOfSingleton(ev: Event, ph: Phase)
    ensures EpochsOf([ev], ph) == if InPhase(ev, ph) then [ev.epoch] else []
  {
    assert EpochsIn([ev], 0, ph) == [];
  }

  /** The critic block of an epoch contributes `|batches|` copies of that
      epoch to the critic phase and nothing to the other phases. */
  lemma {:induction false} CriticStepsEpochs(epoch: int, batches: seq<seq<int>>, batchSize: nat, ph: Phase)
    ensures EpochsOf(CriticSteps(epoch, batches, batchSize), ph)
         == if ph == CriticPhase then Filled(epoch, |batches|) else []
  {
    if |batches| > 0 {
      var n := |batches| - 1;
      var ev := CriticStep(epoch, batches[n], CriticTargetsFor(batchSize));
      CriticStepsEpochs(epoch, batches[..n], batchSize, ph);
      EpochsOfAppend(CriticSteps(epoch, batches[..n], batchSize), [ev], ph);
      EpochsOfSingleton(ev, ph);
    }
  }

  /** The `k`-th update of train_discriminator uses the `k`-th drawn batch
      and the fixed critic targets. */
  lemma {:induction false} CriticStepsShape(epoch: int, batches: seq<seq<int>>, batchSize: nat)
    ensures |CriticSteps(epoch, batches, batchSize)| == |batches|
    ensures forall k :: 0 <= k < |batches| ==>
      CriticSteps(epoch, batches, batchSize)[k] == CriticStep(epoch, batches[k], CriticTargetsFor(batchSize))
  {
    if |batches| > 0 {
      var n := |batches| - 1;
      CriticStepsShape(epoch, batches[..n], batchSize);
    }
  }

  /** The events of one epoch, split into its critic block, its generator
      step and its optional sample event. */
  lemma EpochEventsSplit(epoch: int, d: EpochDraws, batchSize: nat, interval: Option<int>, ph: Phase)
    ensures EpochsOf(EpochEvents(epoch, d, batchSize, interval), ph)
         == EpochsOf(CriticSteps(epoch, d.batches, batchSize), ph)
            + EpochsOf([GeneratorStep(epoch, GeneratorTarget(batchSize))], ph)
            + EpochsOf(SampleEvents(epoch, interval), ph)
  {
    var c := CriticSteps(epoch, d.batches, batchSize);
    var g := GeneratorStep(epoch, GeneratorTarget(batchSize));
    EpochsOfAppend(c, [g], ph);
    EpochsOfAppend(c + [g], SampleEvents(epoch, interval), ph);
  }

  /** One epoch contributes `n_critic` copies of itself to the critic phase. */
  lemma EpochEventsCritic(epoch: int, d: EpochDraws, batchSize: nat, interval: Option<int>)
    ensures EpochsOf(EpochEvents(epoch, d, batchSize, interval), CriticPhase) == Filled(epoch, |d.batches|)
  {
    EpochEventsSplit(epoch, d, batchSize, interval, CriticPhase);
    CriticStepsEpochs(epoch, d.batches, batchSize, CriticPhase);
    EpochsOfSingleton(GeneratorStep(epoch, GeneratorTarget(batchSize)), CriticPhase);
    if SampleDue(epoch, interval) {
      EpochsOfSingleton(Sample(epoch), CriticPhase);
    }
  }

  /** One epoch contributes itself once to the generator phase. */
  lemma EpochEventsGenerator(epoch: int, d: EpochDraws, batchSize: nat, interval: Option<int>)
    ensures EpochsOf(EpochEvents(epoch, d, batchSize, interval), GeneratorPhase) == [epoch]
  {
    EpochEventsSplit(epoch, d, batchSize, interval, GeneratorPhase);
    CriticStepsEpochs(epoch, d.batches, batchSize, GeneratorPhase);
    EpochsOfSingleton(GeneratorStep(epoch, GeneratorTarget(batchSize)), GeneratorPhase);
    if SampleDue(epoch, interval) {
      EpochsOfSingleton(Sample(epoch), GeneratorPhase);
    }
  }

  /** One epoch contributes itself to the sample phase when sampling is due,
      and nothing otherwise. */
  lemma EpochEventsSample(epoch: int, d: EpochDraws, batchSize: nat, interval: Option<int>)
    ensures EpochsOf(EpochEvents(epoch, d, batchSize, interval), SamplePhase)
         == DueAt(epoch, interval)
  {
    EpochEventsSplit(epoch, d, batchSize, interval, SamplePhase);
    CriticStepsEpochs(epoch, d.batches, batchSize, SamplePhase);
    EpochsOfSingleton(GeneratorStep(epoch, GeneratorTarget(batchSize)), SamplePhase);
    if SampleDue(epoch, interval) {
      EpochsOfSingleton(Sample(epoch), SamplePhase);
    }
  }

  /** The epochs of phase `ph` in a trace made of a prefix and a block. */
  lemma PhaseStep(pre: seq<Event>, blk: seq<Event>, full: seq<Event>, ph: Phase, a: seq<int>, b: seq<int>)
    requires full == pre + blk
    requires EpochsOf(pre, ph) == a && EpochsOf(blk, ph) == b
    ensures EpochsOf(full, ph) == a + b
  {
    EpochsOfAppend(pre, blk, ph);
  }

  /** The epochs of phase `ph` in a schedule one epoch longer: those of the
      shorter schedule, then those of the added epoch. */
  lemma TraceStep(start: int, draws: seq<EpochDraws>, count: nat, batchSize: nat, interval: Option<int>, ph: Phase,
                  a: seq<int>, b: seq<int>)
    requires 0 < count <= |draws|
    requires EpochsOf(TrainTrace(start, draws, count - 1, batchSize, interval), ph) == a
    requires EpochsOf(EpochEvents(start + count, draws[count - 1], batchSize, interval), ph) == b
    ensures EpochsOf(TrainTrace(start, draws, count, batchSize, interval), ph) == a + b
  {
    PhaseStep(TrainTrace(start, draws, count - 1, batchSize, interval),
              EpochEvents(start + count, draws[count - 1], batchSize, interval),
              TrainTrace(start, draws, count, batchSize, interval), ph, a, b);
  }

  /** The generator steps of the first `count` epochs carry the epochs
      `start + 1 .. start + count`, once each, in order. */
  ghost predicate GeneratorEpochsAre(start: int, draws: seq<EpochDraws>, count: nat, batchSize: nat,
                                     interval: Option<int>)
    requires count <= |draws|
  {
    EpochsOf(TrainTrace(start, draws, count, batchSize, interval), GeneratorPhase) == EpochsAfter(start, count)
  }

  lemma GeneratorEpochsStep(start: int, draws: seq<EpochDraws>, count: nat, batchSize: nat, interval: Option<int>)
    requires 0 < count <= |draws|
    requires GeneratorEpochsAre(start, draws, count - 1, batchSize, interval)
    ensures GeneratorEpochsAre(start, draws, count, batchSize, interval)
  {
    EpochEventsGenerator(start + count, draws[count - 1], batchSize, interval);
    TraceStep(start, draws, count, batchSize, interval, GeneratorPhase, EpochsAfter(start, count - 1), [start + count]);
  }

  lemma {:induction false} GeneratorEpochsUpTo(start: int, draws: seq<EpochDraws>, count: nat, batchSize: nat,
                                               interval: Option<int>)
    requires count <= |draws|
    ensures GeneratorEpochsAre(start, draws, count, batchSize, interval)
  {
    if count > 0 {
      GeneratorEpochsUpTo(start, draws, count - 1, batchSize, interval);
      GeneratorEpochsStep(start, draws, count, batchSize, interval);
    } else {
      assert EpochsOf([], GeneratorPhase) == [];
    }
  }

  /** train(E) issues exactly E generator steps, for the epochs
      `start + 1, ..., start + E`, one each, in this order. */
  lemma GeneratorEpochsOfSchedule(start: int, draws: seq<EpochDraws>, count: nat, batchSize: nat,
                                  interval: Option<int>)
    requires count <= |draws|
    ensures EpochsOf(TrainTrace(start, draws, count, batchSize, interval), GeneratorPhase) == EpochsAfter(start, count)
  {
    GeneratorEpochsUpTo(start, draws, count, batchSize, interval);
  }

  /** `EpochsAfter(start, n)` lists the epochs `start + 1 .. start + n` in
      increasing order. */
  lemma {:induction false} EpochsAfterIncreasing(start: int, n: nat)
    ensures forall i :: 0 <= i < n ==> EpochsAfter(start, n)[i] == start + i + 1
    ensures StrictlyIncreasing(EpochsAfter(start, n))
  {
    if n > 0 {
      EpochsAfterIncreasing(start, n - 1);
      assert forall i :: 0 <= i < n - 1 ==> EpochsAfter(start, n)[i] == EpochsAfter(start, n - 1)[i];
    }
  }

  /** The epochs visited by train are strictly increasing: each is visited
      once, and in order. */
  lemma GeneratorEpochsIncreasing(start: int, draws: seq<EpochDraws>, count: nat, batchSize: nat, interval: Option<int>)
    requires count <= |draws|
    ensures StrictlyIncreasing(EpochsOf(TrainTrace(start, draws, count, batchSize, interval), GeneratorPhase))
  {
    GeneratorEpochsOfSchedule(start, draws, count, batchSize, interval);
    EpochsAfterIncreasing(start, count);
  }

  /** The epochs `start + 1 .. start + n` in turn, each repeated `k` times. */
  function Repeated(start: int, n: nat, k: nat): seq<int>
  {
    if n == 0 then [] else Repeated(start, n - 1, k) + Filled(start + n, k)
  }

  /** The critic steps of the first `count` epochs carry the epochs
      `start + 1 .. start + count`, each `nCritic` times, in order. */
  ghost predicate CriticEpochsAre(start: int, draws: seq<EpochDraws>, count: nat, nCritic: nat, batchSize: nat,
                                  interval: Option<int>)
    requires count <= |draws|
  {
    EpochsOf(TrainTrace(start, draws, count, batchSize, interval), CriticPhase) == Repeated(start, count, nCritic)
  }

  lemma CriticEpochsStep(start: int, draws: seq<EpochDraws>, count: nat, nCritic: nat, batchSize: nat,
                         interval: Option<int>)
    requires 0 < count <= |draws| && |draws[count - 1].batches| == nCritic
    requires CriticEpochsAre(start, draws, count - 1, nCritic, batchSize, interval)
    ensures CriticEpochsAre(start, draws, count, nCritic, batchSize, interval)
  {
    EpochEventsCritic(start + count, draws[count - 1], batchSize, interval);
    TraceStep(start, draws, count, batchSize, interval, CriticPhase, Repeated(start, count - 1, nCritic),
              Filled(start + count, nCritic));
  }

  lemma {:induction false} CriticEpochsUpTo(start: int, draws: seq<EpochDraws>, count: nat, nCritic: nat,
                                            batchSize: nat, interval: Option<int>)
    requires count <= |draws| && CriticBatchCounts(draws, nCritic)
    ensures CriticEpochsAre(start, draws, count, nCritic, batchSize, interval)
  {
    if count > 0 {
      CriticEpochsUpTo(start, draws, count - 1, nCritic, batchSize, interval);
      CriticEpochsStep(start, draws, count, nCritic, batchSize, interval);
    } else {
      assert EpochsOf([], CriticPhase) == [];
    }
  }

  /** train(E) issues its critic steps epoch by epoch: `n_critic` of them for
      epoch `start + 1`, then `n_critic` for `start + 2`, and so on. */
  lemma CriticEpochsOfSchedule(start: int, draws: seq<EpochDraws>, count: nat, nCritic: nat,
                               batchSize: nat, interval: Option<int>)
    requires count <= |draws| && CriticBatchCounts(draws, nCritic)
    ensures EpochsOf(TrainTrace(start, draws, count, batchSize, interval), CriticPhase) == Repeated(start, count, nCritic)
  {
    CriticEpochsUpTo(start, draws, count, nCritic, batchSize, interval);
  }

  /** `ce` holds each epoch in `(lo, hi]` exactly `k` times and nothing else. */
  ghost predicate EachEpochCounted(ce: seq<int>, lo: int, hi: int, k: nat)
  {
    forall e :: multiset(ce)[e] == if lo < e <= hi then k else 0
  }

  /** `n` copies of `v` hold `v` exactly `n` times and nothing else. */
  lemma {:induction false} FilledCount(v: int, n: nat)
    ensures EachEpochCounted(Filled(v, n), v - 1, v, n)
  {
    if n > 0 {
      FilledCount(v, n - 1);
      assert Filled(v, n) == Filled(v, n - 1) + [v];
    }
  }

  lemma EachEpochCountedExtend(a: seq<int>, r: seq<int>, lo: int, hi: int, k: nat)
    requires lo < hi
    requires EachEpochCounted(a, lo, hi - 1, k)
    requires r == a + Filled(hi, k)
    ensures EachEpochCounted(r, lo, hi, k)
  {
    FilledCount(hi, k);
    assert multiset(r) == multiset(a) + multiset(Filled(hi, k));
  }

  /** `Repeated(start, n, k)` has `k * n` entries. */
  lemma {:induction false} RepeatedLength(start: int, n: nat, k: nat)
    ensures |Repeated(start, n, k)| == k * n
  {
    if n > 0 {
      RepeatedLength(start, n - 1, k);
      assert k * n == k * (n - 1) + k;
    }
  }

  /** `Repeated(start, n, k)` holds each epoch of `start + 1 .. start + n`
      exactly `k` times, and no other epoch. */
  lemma {:induction false} RepeatedCount(start: int, n: nat, k: nat)
    ensures EachEpochCounted(Repeated(start, n, k), start, start + n, k)
  {
    if n > 0 {
      RepeatedCount(start, n - 1, k);
      EachEpochCountedExtend(Repeated(start, n - 1, k), Repeated(start, n, k), start, start + n, k);
    }
  }

  /** train(E) issues `n_critic * E` critic steps: `n_critic` for each epoch
      `start + 1 .. start + E` and none for any other epoch. */
  lemma CriticStepsPerEpoch(start: int, draws: seq<EpochDraws>, count: nat, nCritic: nat, batchSize: nat,
                            interval: Option<int>)
    requires count <= |draws| && CriticBatchCounts(draws, nCritic)
    ensures |EpochsOf(TrainTrace(start, draws, count, batchSize, interval), CriticPhase)| == nCritic * count
    ensures EachEpochCounted(EpochsOf(TrainTrace(start, draws, count, batchSize, interval), CriticPhase),
                             start, start + count, nCritic)
  {
    CriticEpochsOfSchedule(start, draws, count, nCritic, batchSize, interval);
    RepeatedLength(start, count, nCritic);
    RepeatedCount(start, count, nCritic);
  }

  /** `[epoch]` when sampling is due at `epoch`, and `[]` otherwise. */
  function DueAt(epoch: int, interval: Option<int>): seq<int>
  {
    if SampleDue(epoch, interval) then [epoch] else []
  }

  /** The epochs among `start + 1 .. start + n` at which `interval` asks for
      a sample, in increasing order. */
  function DueEpochs(start: int, n: nat, interval: Option<int>): seq<int>
  {
    if n == 0 then []
    else DueEpochs(start, n - 1, interval) + DueAt(start + n, interval)
  }

  /** The sample events of the first `count` epochs carry the due epochs
      among `start + 1 .. start + count`, in order. */
  ghost predicate SampleEpochsAre(start: int, draws: seq<EpochDraws>, count: nat, batchSize: nat,
                                  interval: Option<int>)
    requires count <= |draws|
  {
    EpochsOf(TrainTrace(start, draws, count, batchSize, interval), SamplePhase) == DueEpochs(start, count, interval)
  }

  lemma SampleEpochsStep(start: int, draws: seq<EpochDraws>, count: nat, batchSize: nat, interval: Option<int>)
    requires 0 < count <= |draws|
    requires SampleEpochsAre(start, draws, count - 1, batchSize, interval)
    ensures SampleEpochsAre(start, draws, count, batchSize, interval)
  {
    EpochEventsSample(start + count, draws[count - 1], batchSize, interval);
    TraceStep(start, draws, count, batchSize, interval, SamplePhase, DueEpochs(start, count - 1, interval),
              DueAt(start + count, interval));
  }

  lemma {:induction false} SampleEpochsUpTo(start: int, draws: seq<EpochDraws>, count: nat, batchSize: nat,
                                            interval: Option<int>)
    requires count <= |draws|
    ensures SampleEpochsAre(start, draws, count, batchSize, interval)
  {
    if count > 0 {
      SampleEpochsUpTo(start, draws, count - 1, batchSize, interval);
      SampleEpochsStep(start, draws, count, batchSize, interval);
    } else {
      assert EpochsOf([], SamplePhase) == [];
    }
  }

  /** train(E) samples at the due epochs among `start + 1 .. start + E`, in
      order. */
  lemma SampleEpochsOfSchedule(start: int, draws: seq<EpochDraws>, count: nat, batchSize: nat,
                               interval: Option<int>)
    requires count <= |draws|
    ensures EpochsOf(TrainTrace(start, draws, count, batchSize, interval), SamplePhase) == DueEpochs(start, count, interval)
  {
    SampleEpochsUpTo(start, draws, count, batchSize, interval);
  }

  /** `se` lists, in increasing order, exactly the epochs in `(lo, hi]` at
      which `interval` asks for a sample. */
  ghost predicate SampledExactly(se: seq<int>, lo: int, hi: int, interval: Option<int>)
  {
    StrictlyIncreasing(se) &&
    (forall i :: 0 <= i < |se| ==> lo < se[i] <= hi) &&
    (forall e :: e in se <==> lo < e <= hi && SampleDue(e, interval))
  }

  lemma SampledExactlyExtend(a: seq<int>, b: seq<int>, r: seq<int>, lo: int, hi: int, interval: Option<int>)
    requires lo <= hi
    requires SampledExactly(a, lo, hi, interval)
    requires b == DueAt(hi + 1, interval)
    requires r == a + b
    ensures SampledExactly(r, lo, hi + 1, interval)
  {
    if SampleDue(hi + 1, interval) {
      assert forall i :: 0 <= i < |a| ==> r[i] == a[i];
      assert r[|a|] == hi + 1;
      assert forall e :: e in r <==> e in a || e == hi + 1;
    } else {
      assert a + b == a;
    }
  }

  /** `DueEpochs` lists each due epoch of its range once, in increasing
      order, and nothing else. */
  lemma {:induction false} DueEpochsExactly(start: int, n: nat, interval: Option<int>)
    ensures SampledExactly(DueEpochs(start, n, interval), start, start + n, interval)
  {
    if n > 0 {
      DueEpochsExactly(start, n - 1, interval);
      DueEpochsStep(start, n, interval);
    }
  }

  lemma DueEpochsStep(start: int, n: nat, interval: Option<int>)
    requires n > 0
    requires SampledExactly(DueEpochs(start, n - 1, interval), start, start + (n - 1), interval)
    ensures SampledExactly(DueEpochs(start, n, interval), start, start + n, interval)
  {
    SampledExactlyExtend(DueEpochs(start, n - 1, interval), DueAt(start + n, interval),
                         DueEpochs(start, n, interval), start, start + (n - 1), interval);
  }

  /** A sample event happens at epoch `e` exactly when `e` is one of the
      epochs run and the interval is truthy and divides `e`; the sampled
      epochs come in increasing order, each once. */
  lemma SampleEpochsExactly(start: int, draws: seq<EpochDraws>, count: nat, batchSize: nat, interval: Option<int>)
    requires count <= |draws|
    ensures SampledExactly(EpochsOf(TrainTrace(start, draws, count, batchSize, interval), SamplePhase),
                           start, start + count, interval)
  {
    SampleEpochsOfSchedule(start, draws, count, batchSize, interval);
    DueEpochsExactly(start, count, interval);
  }

  /** With `sample_interval` None or 0 no epoch is due. */
  lemma {:induction false} NoDueEpochsWithoutInterval(start: int, n: nat, interval: Option<int>)
    requires interval == None || interval == Some(0)
    ensures DueEpochs(start, n, interval) == []
  {
    if n > 0 {
      NoDueEpochsWithoutInterval(start, n - 1, interval);
    }
  }

  /** With `sample_interval` None or 0, train never samples. */
  lemma NoSamplingWithoutInterval(start: int, draws: seq<EpochDraws>, count: nat, batchSize: nat, interval: Option<int>)
    requires count <= |draws|
    requires interval == None || interval == Some(0)
    ensures EpochsOf(TrainTrace(start, draws, count, batchSize, interval), SamplePhase) == []
  {
    SampleEpochsOfSchedule(start, draws, count, batchSize, interval);
    NoDueEpochsWithoutInterval(start, count, interval);
  }

  /** A strictly increasing sequence has no more entries than the set its
      entries are drawn from. */
  lemma {:induction false} IncreasingWithin(se: seq<int>, values: set<int>)
    requires StrictlyIncreasing(se)
    requires forall k :: 0 <= k < |se| ==> se[k] in values
    ensures |se| <= |values|
  {
    if |se| > 0 {
      var last := se[|se| - 1];
      var pre := se[..|se| - 1];
      forall k | 0 <= k < |pre| ensures pre[k] in values - {last} {
        assert pre[k] == se[k] < last;
      }
      IncreasingWithin(pre, values - {last});
      assert |values - {last}| == |values| - 1;
    }
  }

  /** A strictly increasing sequence holding exactly `x < y` is `[x, y]`. */
  lemma IncreasingPair(se: seq<int>, x: int, y: int)
    requires x < y && StrictlyIncreasing(se)
    requires forall e :: e in se <==> e == x || e == y
    ensures se == [x, y]
  {
    assert x in se && y in se;
    var i :| 0 <= i < |se| && se[i] == x;
    var j :| 0 <= j < |se| && se[j] == y;
    assert i < j;
    forall k | 0 <= k < |se| ensures se[k] in {x, y} {
      assert se[k] in se;
    }
    IncreasingWithin(se, {x, y});
    assert |{x, y}| == 2;
  }

  /** Among epochs 1 .. 250, an interval of 100 is due at 100 and 200. */
  lemma DueEvery100(e: int)
    requires 0 < e <= 250
    ensures SampleDue(e, Some(100)) <==> e == 100 || e == 200
  {
    assert FloorMod(e, 100) == e % 100;
  }

  /** Sampling every 100 epochs over a fresh run of 250 epochs samples at
      epochs 100 and 200 only (not at 250). */
  lemma SampleEvery100Over250(draws: seq<EpochDraws>, batchSize: nat)
    requires |draws| == 250
    ensures EpochsOf(TrainTrace(0, draws, 250, batchSize, Some(100)), SamplePhase) == [100, 200]
  {
    var se := EpochsOf(TrainTrace(0, draws, 250, batchSize, Some(100)), SamplePhase);
    SampleEpochsExactly(0, draws, 250, batchSize, Some(100));
    forall e ensures e in se <==> e == 100 || e == 200
    {
      if 0 < e <= 250 {
        DueEvery100(e);
      }
    }
    IncreasingPair(se, 100, 200);
  }

  // Properties of a trace that hold of a concatenation when they hold of
  // both parts: they let the schedule be reasoned about one epoch at a time.

  /** Every generator step comes right after `nCritic` critic steps of its
      own epoch, and every sample event right after the generator step of
      its own epoch. */
  predicate StepsInOrder(tr: seq<Event>, nCritic: nat)
  {
    (forall i :: 0 <= i < |tr| && tr[i].GeneratorStep? ==>
       nCritic <= i && forall j :: i - nCritic <= j < i ==> tr[j].CriticStep? && tr[j].epoch == tr[i].epoch) &&
    (forall i :: 0 <= i < |tr| && tr[i].Sample? ==>
       0 < i && tr[i - 1].GeneratorStep? && tr[i - 1].epoch == tr[i].epoch)
  }

  /** Every event is a training event of an epoch in `(lo, hi]`. */
  predicate EpochsWithin(tr: seq<Event>, lo: int, hi: int)
  {
    forall i :: 0 <= i < |tr| ==> IsTrainingEvent(tr[i]) && lo < tr[i].epoch <= hi
  }

  /** Epochs never decrease along the trace. */
  predicate EpochsNonDecreasing(tr: seq<Event>)
  {
    forall i, j :: 0 <= i < j < |tr| && IsTrainingEvent(tr[i]) && IsTrainingEvent(tr[j]) ==>
      tr[i].epoch <= tr[j].epoch
  }

  /** Every critic step draws a batch of `batchSize` indices into `[0, n)`
      and uses the critic targets; every generator step uses the generator
      target. */
  predicate StepsUseTargets(tr: seq<Event>, batchSize: nat, n: nat)
  {
    (forall i :: 0 <= i < |tr| && tr[i].CriticStep? ==>
       IsIndexBatch(tr[i].batch, batchSize, n) && tr[i].targets == CriticTargetsFor(batchSize)) &&
    (forall i :: 0 <= i < |tr| && tr[i].GeneratorStep? ==> tr[i].target == GeneratorTarget(batchSize))
  }

  lemma StepsInOrderConcat(a: seq<Event>, b: seq<Event>, nCritic: nat)
    requires StepsInOrder(a, nCritic) && StepsInOrder(b, nCritic)
    ensures StepsInOrder(a + b, nCritic)
  {
    var tr := a + b;
    forall i | 0 <= i < |tr| && tr[i].GeneratorStep?
      ensures nCritic <= i && forall j :: i - nCritic <= j < i ==> tr[j].CriticStep? && tr[j].epoch == tr[i].epoch
    {
      if i < |a| {
        assert tr[i] == a[i];
        forall j | i - nCritic <= j < i ensures tr[j] == a[j] { }
      } else {
        var i' := i - |a|;
        assert tr[i] == b[i'];
        forall j | i - nCritic <= j < i ensures tr[j] == b[j - |a|] { }
      }
    }
    forall i | 0 <= i < |tr| && tr[i].Sample?
      ensures 0 < i && tr[i - 1].GeneratorStep? && tr[i - 1].epoch == tr[i].epoch
    {
      if i < |a| {
        assert tr[i] == a[i] && tr[i - 1] == a[i - 1];
      } else {
        assert tr[i] == b[i - |a|];
        assert tr[i - 1] == b[i - 1 - |a|];
      }
    }
  }

  lemma EpochsConcat(a: seq<Event>, b: seq<Event>, lo: int, mid: int, hi: int)
    requires EpochsWithin(a, lo, mid) && EpochsNonDecreasing(a)
    requires EpochsWithin(b, mid, hi) && EpochsNonDecreasing(b)
    requires lo <= mid <= hi
    ensures EpochsWithin(a + b, lo, hi) && EpochsNonDecreasing(a + b)
  {
    var tr := a + b;
    forall i | 0 <= i < |tr| ensures IsTrainingEvent(tr[i]) && lo < tr[i].epoch <= hi
    {
      if i < |a| { assert tr[i] == a[i]; } else { assert tr[i] == b[i - |a|]; }
    }
    forall i, j | 0 <= i < j < |tr| ensures tr[i].epoch <= tr[j].epoch
    {
      if j < |a| {
        assert tr[i] == a[i] && tr[j] == a[j];
      } else if i < |a| {
        assert tr[i] == a[i] && tr[j] == b[j - |a|];
      } else {
        assert tr[i] == b[i - |a|] && tr[j] == b[j - |a|];
      }
    }
  }

  lemma StepsUseTargetsConcat(a: seq<Event>, b: seq<Event>, batchSize: nat, n: nat)
    requires StepsUseTargets(a, batchSize, n) && StepsUseTargets(b, batchSize, n)
    ensures StepsUseTargets(a + b, batchSize, n)
  {
    var tr := a + b;
    forall i | 0 <= i < |tr|
      ensures tr[i] == if i < |a| then a[i] else b[i - |a|]
    {
    }
  }

  /** The events of one epoch, position by position: update `k` uses the
      `k`-th drawn batch, the generator step follows the critic block, and a
      sample event closes the block exactly when sampling is due. */
  lemma EpochEventsAt(epoch: int, d: EpochDraws, batchSize: nat, interval: Option<int>)
    ensures var block := EpochEvents(epoch, d, batchSize, interval);
      |block| == |d.batches| + (if SampleDue(epoch, interval) then 2 else 1) &&
      forall k :: 0 <= k < |block| ==>
        block[k] == if k < |d.batches| then CriticStep(epoch, d.batches[k], CriticTargetsFor(batchSize))
                    else if k == |d.batches| then GeneratorStep(epoch, GeneratorTarget(batchSize))
                    else Sample(epoch)
  {
    CriticStepsShape(epoch, d.batches, batchSize);
  }

  /** The events of one well-formed epoch: `n_critic` critic steps, update
      `k` on the `k`-th drawn batch, then the generator step, then the sample
      event when it is due, and nothing else; together with the ordering,
      epoch and batch properties the whole trace is built from. */
  lemma EpochEventsShape(epoch: int, d: EpochDraws, nCritic: nat, batchSize: nat, n: nat, interval: Option<int>)
    requires WellFormedDraws(d, nCritic, batchSize, n)
    ensures var block := EpochEvents(epoch, d, batchSize, interval);
      |block| == nCritic + (if SampleDue(epoch, interval) then 2 else 1) &&
      (forall k :: 0 <= k < nCritic ==> block[k] == CriticStep(epoch, d.batches[k], CriticTargetsFor(batchSize))) &&
      block[nCritic] == GeneratorStep(epoch, GeneratorTarget(batchSize)) &&
      (SampleDue(epoch, interval) ==> block[nCritic + 1] == Sample(epoch))
    ensures var block := EpochEvents(epoch, d, batchSize, interval);
      StepsInOrder(block, nCritic) && EpochsWithin(block, epoch - 1, epoch) && EpochsNonDecreasing(block) &&
      StepsUseTargets(block, batchSize, n)
  {
    EpochEventsAt(epoch, d, batchSize, interval);
  }

  /** Within the trace of train, every generator step comes right after the
      `n_critic` critic steps of its own epoch, and every sample event right
      after the generator step of its epoch. */
  lemma {:induction false} StepsPrecedeGenerator(start: int, draws: seq<EpochDraws>, count: nat, nCritic: nat,
                                                 batchSize: nat, n: nat, interval: Option<int>)
    requires count <= |draws| && AllWellFormed(draws, nCritic, batchSize, n)
    ensures StepsInOrder(TrainTrace(start, draws, count, batchSize, interval), nCritic)
  {
    if count > 0 {
      StepsPrecedeGenerator(start, draws, count - 1, nCritic, batchSize, n, interval);
      EpochEventsShape(start + count, draws[count - 1], nCritic, batchSize, n, interval);
      StepsInOrderConcat(TrainTrace(start, draws, count - 1, batchSize, interval),
                         EpochEvents(start + count, draws[count - 1], batchSize, interval), nCritic);
    }
  }

  /** The trace of train consists of training events only, for the epochs
      run, and their epochs never decrease along the trace. */
  lemma {:induction false} ScheduleEpochsOrdered(start: int, draws: seq<EpochDraws>, count: nat, nCritic: nat,
                                                 batchSize: nat, n: nat, interval: Option<int>)
    requires count <= |draws| && AllWellFormed(draws, nCritic, batchSize, n)
    ensures EpochsWithin(TrainTrace(start, draws, count, batchSize, interval), start, start + count)
    ensures EpochsNonDecreasing(TrainTrace(start, draws, count, batchSize, interval))
  {
    if count > 0 {
      ScheduleEpochsOrdered(start, draws, count - 1, nCritic, batchSize, n, interval);
      EpochEventsShape(start + count, draws[count - 1], nCritic, batchSize, n, interval);
      EpochsConcat(TrainTrace(start, draws, count - 1, batchSize, interval),
                   EpochEvents(start + count, draws[count - 1], batchSize, interval),
                   start, start + (count - 1), start + count);
    }
  }

  /** Every critic step of train uses a batch of `batch_size` indices into
      the dataset and the targets valid = -1, fake = +1, dummy = 0; every
      generator step uses the target valid = -1. */
  lemma {:induction false} ScheduleBatchesAndTargets(start: int, draws: seq<EpochDraws>, count: nat, nCritic: nat,
                                                     batchSize: nat, n: nat, interval: Option<int>)
    requires count <= |draws| && AllWellFormed(draws, nCritic, batchSize, n)
    ensures StepsUseTargets(TrainTrace(start, draws, count, batchSize, interval), batchSize, n)
  {
    if count > 0 {
      ScheduleBatchesAndTargets(start, draws, count - 1, nCritic, batchSize, n, interval);
      EpochEventsShape(start + count, draws[count - 1], nCritic, batchSize, n, interval);
      StepsUseTargetsConcat(TrainTrace(start, draws, count - 1, batchSize, interval),
                            EpochEvents(start + count, draws[count - 1], batchSize, interval), batchSize, n);
    }
  }

  /** A batch may repeat an index and may be larger than the dataset. */
  lemma RepeatedIndicesAllowed()
    ensures IsIndexBatch([0, 0, 0], 3, 1)
  {
  }

  /** Python's `%` tests divisibility whatever the sign of the interval, so
      a negative interval samples at the same epochs as its absolute value. */
  lemma IntervalSignIrrelevant(epoch: int, s: int)
    requires s != 0
    ensures SampleDue(epoch, Some(s)) <==> SampleDue(epoch, Some(-s))
  {
    var a := if s > 0 then s else -s;
    ModNegated(epoch, a);
    assert FloorMod(epoch, a) == epoch % a;
    assert FloorMod(epoch, -a) == -((-epoch) % a);
  }

  /** `a` and `-a` are divisible by `s` together. */
  lemma ModNegated(a: int, s: int)
    requires s > 0
    ensures a % s == 0 <==> (-a) % s == 0
  {
    if a % s == 0 {
      ModUnique(-a, s, -(a / s), 0);
    }
    if (-a) % s == 0 {
      ModUnique(a, s, -((-a) / s), 0);
    }
  }

  /** Euclidean division is unique: a quotient and a remainder in `[0, s)`
      that add up to `a` are the ones `/` and `%` return. */
  lemma ModUnique(a: int, s: int, q: int, r: int)
    requires s > 0 && a == s * q + r && 0 <= r < s
    ensures a % s == r
  {
    var d := a / s;
    assert s * d + a % s == s * q + r;
    MulSign(s, d - q);
    assert s * (d - q) == s * d - s * q;
  }

  /** A multiple of a positive `s` by a non-zero factor is at least `s` in
      magnitude. */
  lemma {:induction false} MulSign(s: int, t: int)
    requires s > 0
    ensures t >= 1 ==> s * t >= s
    ensures t <= -1 ==> s * t <= -s
    decreases if t >= 0 then t else -t
  {
    if t > 1 {
      MulSign(s, t - 1);
      assert s * t == s * (t - 1) + s;
    } else if t < -1 {
      MulSign(s, t + 1);
      assert s * t == s * (t + 1) - s;
    }
  }
}
