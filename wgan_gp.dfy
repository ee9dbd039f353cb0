/** The WGAN-GP trainer object: its hyperparameters, its epoch counter, and
    the actions it issues while training and saving.  The Keras graphs, the
    optimiser, the random number generator and the file system are outside
    the model: each call into them appends one `Event` to `trace`, and what
    they hand back (drawn indices, loss values) is passed in as an argument. */
module Trainer {
  import opened Options
  import opened Labels
  import opened Checkpoint
  import opened Schedule

  /** The three writes of one `save`: the configuration first, then the
      generator and the critic, each at the path the configuration records. */
  function SaveEvents(c: Config): (r: seq<Event>)
    ensures |r| == 3
    ensures r[0].WriteConfig? && r[0].path == c.configPath && r[0].config == c
    ensures r[1] == WriteGenerator(c.generatorPath) && r[2] == WriteCritic(c.criticPath)
  {
    [WriteConfig(c.configPath, c), WriteGenerator(c.generatorPath), WriteCritic(c.criticPath)]
  }

  class WGANGP {
    const imgShape: seq<nat>
    const channels: nat
    const latentDim: nat
    const nCritic: nat
    const modelName: string
    const modelDir: string

    /** The last epoch trained (0 before the first call to train). */
    var epoch: int
    /** Every action issued so far, oldest first. */
    var trace: seq<Event>

    ghost predicate Valid()
      reads this
    {
      |imgShape| > 0 && channels == imgShape[|imgShape| - 1] && epoch >= 0
    }

    /** The constructor keeps the hyperparameters, takes the number of
        channels from the last dimension of the image shape and starts at
        epoch 0.  Building the networks and graphs issues no event. */
    constructor (imgShape: seq<nat> := [28, 28, 1], latentDim: nat := 100, nCritic: nat := 5,
                 modelName: string := "wgan_mnist", modelDir: string := "models")
      requires |imgShape| > 0
      ensures Valid()
      ensures this.imgShape == imgShape && this.channels == imgShape[|imgShape| - 1]
      ensures this.latentDim == latentDim && this.nCritic == nCritic
      ensures this.modelName == modelName && this.modelDir == modelDir
      ensures epoch == 0 && trace == []
    {
      this.imgShape := imgShape;
      this.channels := imgShape[|imgShape| - 1];
      this.latentDim := latentDim;
      this.nCritic := nCritic;
      this.modelName := modelName;
      this.modelDir := modelDir;
      epoch := 0;
      trace := [];
    }

    /** get_config: the hyperparameters, the current epoch and the three
        default checkpoint paths. */
    function GetConfig(): (c: Config)
      requires Valid()
      reads this
      ensures c.channels == channels && c.imgShape == imgShape && c.latentDim == latentDim
      ensures c.nCritic == nCritic && c.epoch == epoch
      ensures c.configPath == ConfigPath(modelDir, modelName, None)
      ensures c.generatorPath == GeneratorPath(modelDir, modelName, None)
      ensures c.criticPath == CriticPath(modelDir, modelName, None)
    {
      MakeConfig(imgShape, latentDim, nCritic, epoch, modelDir, modelName)
    }

    /** train_discriminator: `n_critic` critic updates at the current epoch.
        Update `k` trains on the `k`-th batch of indices drawn from the
        `datasetSize` images and receives `replies[k]` as its loss; all
        updates use the targets valid = -1, fake = +1, dummy = 0, built once. */
    method TrainDiscriminator(datasetSize: nat, batchSize: nat, batches: seq<seq<int>>, replies: seq<real>)
      returns (dLosses: seq<real>)
      requires |batches| == nCritic && |replies| == nCritic
      requires forall k :: 0 <= k < |batches| ==> IsIndexBatch(batches[k], batchSize, datasetSize)
      modifies this
      ensures epoch == old(epoch)
      ensures |dLosses| == nCritic && dLosses == replies
      ensures trace == old(trace) + CriticSteps(epoch, batches, batchSize)
    {
      var targets := CriticTargetsFor(batchSize);
      dLosses := [];
      var k := 0;
      while k < nCritic
        invariant 0 <= k <= nCritic
        invariant epoch == old(epoch)
        invariant dLosses == replies[..k]
        invariant trace == old(trace) + CriticSteps(epoch, batches[..k], batchSize)
      {
        trace := trace + [CriticStep(epoch, batches[k], targets)];
        dLosses := dLosses + [replies[k]];
        assert batches[..k + 1][..k] == batches[..k];
        k := k + 1;
      }
      assert batches[..k] == batches;
      assert replies[..k] == replies;
    }

    /** train_generator: one generator update with target valid = -1; the
        loss is the graph's reply. */
    method TrainGenerator(batchSize: nat, reply: real) returns (gLoss: real)
      modifies this
      ensures epoch == old(epoch) && gLoss == reply
      ensures trace == old(trace) + [GeneratorStep(epoch, GeneratorTarget(batchSize))]
    {
      var valid := Filled(-1, batchSize);
      trace := trace + [GeneratorStep(epoch, valid)];
      gLoss := reply;
    }

    /** sample_images, whose plotting and file output are left out. */
    method SampleImages()
      modifies this
      ensures epoch == old(epoch) && trace == old(trace) + [Sample(epoch)]
    {
      trace := trace + [Sample(epoch)];
    }

    /** train: the epochs `epoch + 1 .. epoch + epochs` in turn (none when
        `epochs <= 0`), each running train_discriminator, then
        train_generator, then sample_images when the interval is truthy and
        divides the epoch.  `draws[i]` holds what epoch `epoch + i + 1` takes
        from the random generator and the graphs. */
    method Train(epochs: int, batchSize: nat, datasetSize: nat, draws: seq<EpochDraws>,
                 sampleInterval: Option<int> := Some(50))
      requires Valid()
      requires |draws| == if epochs > 0 then epochs else 0
      requires AllWellFormed(draws, nCritic, batchSize, datasetSize)
      modifies this
      ensures Valid()
      ensures epoch == old(epoch) + |draws|
      ensures trace == old(trace) + TrainTrace(old(epoch), draws, |draws|, batchSize, sampleInterval)
    {
      var start := epoch;
      var i := 0;
      while i < |draws|
        invariant 0 <= i <= |draws|
        invariant Valid() && epoch == start + i
        invariant trace == old(trace) + TrainTrace(start, draws, i, batchSize, sampleInterval)
      {
        epoch := start + i + 1;
        assert WellFormedDraws(draws[i], nCritic, batchSize, datasetSize);
        ghost var before := trace;
        TrainEpoch(batchSize, sampleInterval, datasetSize, draws[i]);
        AppendAssoc(old(trace), TrainTrace(start, draws, i, batchSize, sampleInterval),
                    EpochEvents(start + (i + 1), draws[i], batchSize, sampleInterval), before, trace);
        i := i + 1;
      }
    }

    /** The body of the loop in train, at epoch `epoch`. */
    method TrainEpoch(batchSize: nat, sampleInterval: Option<int>, datasetSize: nat, d: EpochDraws)
      requires WellFormedDraws(d, nCritic, batchSize, datasetSize)
      modifies this
      ensures epoch == old(epoch)
      ensures trace == old(trace) + EpochEvents(epoch, d, batchSize, sampleInterval)
    {
      var dLosses := TrainDiscriminator(datasetSize, batchSize, d.batches, d.criticLosses);
      var gLoss := TrainGenerator(batchSize, d.generatorLoss);
      if sampleInterval.Some? && sampleInterval.value != 0 && FloorMod(epoch, sampleInterval.value) == 0 {
        SampleImages();
      }
    }

    /** save_generator: an explicit path is used as given (even an empty
        one); only `None` falls back on the default path. */
    method SaveGenerator(path: Option<string>)
      modifies this
      ensures epoch == old(epoch)
      ensures path.None? ==> trace == old(trace) + [WriteGenerator(GeneratorPath(modelDir, modelName, None))]
      ensures path.Some? ==> trace == old(trace) + [WriteGenerator(path.value)]
    {
      var p := if path.None? then GeneratorPath(modelDir, modelName, None) else path.value;
      trace := trace + [WriteGenerator(p)];
    }

    /** save_critic, with the same fallback as save_generator. */
    method SaveCritic(path: Option<string>)
      modifies this
      ensures epoch == old(epoch)
      ensures path.None? ==> trace == old(trace) + [WriteCritic(CriticPath(modelDir, modelName, None))]
      ensures path.Some? ==> trace == old(trace) + [WriteCritic(path.value)]
    {
      var p := if path.None? then CriticPath(modelDir, modelName, None) else path.value;
      trace := trace + [WriteCritic(p)];
    }

    /** save_config: writes the configuration record at the default
        configuration path. */
    method SaveConfig()
      requires Valid()
      modifies this
      ensures epoch == old(epoch)
      ensures trace == old(trace) + [WriteConfig(ConfigPath(modelDir, modelName, None), old(GetConfig()))]
    {
      var p := ConfigPath(modelDir, modelName, None);
      var c := GetConfig();
      trace := trace + [WriteConfig(p, c)];
    }

    /** save_model: generator then critic; a path that is `None` or empty
        falls back on the default.  The last two ensures are conveniences:
        they follow from the second one and the contract of `OrElse`, and
        spell out the fallback for callers. */
    method SaveModel(generatorPath: Option<string>, criticPath: Option<string>)
      modifies this
      ensures epoch == old(epoch)
      ensures trace == old(trace) + [WriteGenerator(OrElse(generatorPath, GeneratorPath(modelDir, modelName, None))),
                                     WriteCritic(OrElse(criticPath, CriticPath(modelDir, modelName, None)))]
      ensures !Truthy(generatorPath) ==> trace[|old(trace)|] == WriteGenerator(GeneratorPath(modelDir, modelName, None))
      ensures !Truthy(criticPath) ==> trace[|old(trace)| + 1] == WriteCritic(CriticPath(modelDir, modelName, None))
    {
      var g := OrElse(generatorPath, GeneratorPath(modelDir, modelName, None));
      var c := OrElse(criticPath, CriticPath(modelDir, modelName, None));
      SaveGenerator(Some(g));
      SaveCritic(Some(c));
    }

    /** save: the configuration, then the generator, then the critic, at
        the three default paths, which are pairwise distinct and are the
        ones the written configuration records. */
    method Save()
      requires Valid()
      modifies this
      ensures Valid() && epoch == old(epoch)
      ensures trace == old(trace) + SaveEvents(old(GetConfig()))
      ensures var c := old(GetConfig());
        c.configPath != c.generatorPath && c.configPath != c.criticPath && c.generatorPath != c.criticPath
    {
      SaveConfig();
      SaveModel(None, None);
      ConfigPathsDistinct(imgShape, latentDim, nCritic, old(epoch), modelDir, modelName);
    }
  }

  lemma AppendAssoc(o: seq<Event>, a: seq<Event>, b: seq<Event>, t: seq<Event>, u: seq<Event>)
    requires t == o + a && u == t + b
    ensures u == o + (a + b)
  {
  }
}
