/** The constant target vectors of the Wasserstein formulation.  Each has one
    entry per sample of a batch (numpy shape `(batch_size, 1)`): `valid` is
    all -1, `fake` all +1 and `dummy`, the target of the gradient-penalty
    output that the penalty loss ignores, all 0. */
module Labels {

  /** A vector of `n` copies of `v` (`v * np.ones((n, 1))`). */
  function Filled(v: int, n: nat): (r: seq<int>)
    ensures |r| == n
    ensures forall i :: 0 <= i < n ==> r[i] == v
  {
    if n == 0 then [] else Filled(v, n - 1) + [v]
  }

  function ValidTarget(batchSize: nat): seq<int>
  {
    Filled(-1, batchSize)
  }

  function FakeTarget(batchSize: nat): seq<int>
  {
    Filled(1, batchSize)
  }

  function DummyTarget(batchSize: nat): seq<int>
  {
    Filled(0, batchSize)
  }

  /** The three targets of one critic update, in the order of the critic
      graph's outputs: real images, generated images, interpolated images. */
  datatype CriticTargets = CriticTargets(valid: seq<int>, fake: seq<int>, dummy: seq<int>)

  /** The targets train_discriminator builds once and reuses for every one
      of its `n_critic` updates. */
  function CriticTargetsFor(batchSize: nat): (t: CriticTargets)
    ensures |t.valid| == |t.fake| == |t.dummy| == batchSize
    ensures forall i :: 0 <= i < batchSize ==>
      t.valid[i] == -1 && t.fake[i] == 1 && t.dummy[i] == 0
  {
    CriticTargets(ValidTarget(batchSize), FakeTarget(batchSize), DummyTarget(batchSize))
  }

  /** The target train_generator uses: the generator is trained to have its
      images scored as real, with the same `valid` vector the critic uses
      for real images. */
  function GeneratorTarget(batchSize: nat): (r: seq<int>)
    ensures r == CriticTargetsFor(batchSize).valid
    ensures |r| == batchSize && forall i :: 0 <= i < batchSize ==> r[i] == -1
  {
    ValidTarget(batchSize)
  }

  /** Sum of `labels[i] * scores[i]`: the Wasserstein loss of a batch before
      it is divided by the batch size. */
  function LabelledSum(labels: seq<int>, scores: seq<real>): real
    requires |labels| == |scores|
  {
    if |scores| == 0 then 0.0
    else LabelledSum(labels[..|labels| - 1], scores[..|scores| - 1])
         + labels[|labels| - 1] as real * scores[|scores| - 1]
  }

  function Sum(scores: seq<real>): real
  {
    if |scores| == 0 then 0.0 else Sum(scores[..|scores| - 1]) + scores[|scores| - 1]
  }

  /** The sign convention the targets encode: against `valid` the loss is
      the negated total critic score (lower scores mean "more real"),
      against `fake` it is the total score, and against `dummy` it is zero. */
  lemma {:induction false} TargetSigns(batchSize: nat, scores: seq<real>)
    requires |scores| == batchSize
    ensures LabelledSum(ValidTarget(batchSize), scores) == -Sum(scores)
    ensures LabelledSum(FakeTarget(batchSize), scores) == Sum(scores)
    ensures LabelledSum(DummyTarget(batchSize), scores) == 0.0
  {
    if batchSize > 0 {
      var n := batchSize - 1;
      TargetSigns(n, scores[..n]);
      assert ValidTarget(batchSize)[..n] == ValidTarget(n);
      assert FakeTarget(batchSize)[..n] == FakeTarget(n);
      assert DummyTarget(batchSize)[..n] == DummyTarget(n);
    }
  }

  /** `fake` is the element-wise negation of `valid`, so a critic that
      scores real and generated batches alike earns zero in total.  A
      convenience corollary of `TargetSigns`, stated for callers that
      reason about the two loss terms together. */
  lemma {:induction false} FakeNegatesValid(batchSize: nat, scores: seq<real>)
    requires |scores| == batchSize
    ensures LabelledSum(ValidTarget(batchSize), scores) + LabelledSum(FakeTarget(batchSize), scores) == 0.0
  {
    TargetSigns(batchSize, scores);
  }
}
