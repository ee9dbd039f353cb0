# WGAN-GP trainer: training schedule and checkpoint naming

This project models the control layer of the WGAN-GP trainer in
`keras_gan/wgan_gp.py`, a Keras implementation of the Wasserstein GAN with
gradient penalty. Its core is:

- the class `WGANGP`: its hyperparameters, its `epoch` counter, and the
  actions it issues;
- the training loop: `train` runs epochs `epoch + 1 .. epoch + epochs`. Each
  epoch runs `train_discriminator`, which makes `n_critic` critic updates on
  random index batches, then `train_generator`, which makes one generator
  update. When `sample_interval` is truthy and divides the epoch,
  `sample_images` follows;
- the constant target vectors: valid = -1, fake = +1, dummy = 0;
- checkpoint naming (`get_config_path`, `get_generator_path`,
  `get_critic_path`) and the configuration record (`get_config`);
- persistence: `save_generator`, `save_critic`, `save_config`, `save_model`
  and `save`.

The networks, the optimiser, the random generator and the file system are
outside the model. Each call into them is one `Event` appended to the
trainer's `trace`:

- `CriticStep` and `GeneratorStep` stand for `train_on_batch`;
- `Sample` stands for `sample_images`;
- `WriteConfig`, `WriteGenerator` and `WriteCritic` stand for the JSON dump
  and the two HDF5 saves.

What the trainer receives from them is passed in as data, one `EpochDraws`
per epoch: the index batches `np.random.randint` returns and the loss
values the graphs return.

Files:

- `options.dfy` (`Options`): optional arguments and Python truthiness (`if suffix:`, `x or default`);
- `labels.dfy` (`Labels`): the target vectors and the sign convention of the Wasserstein loss;
- `checkpoint.dfy` (`Checkpoint`): file names, POSIX `os.path.join`, the three path getters, the configuration record;
- `schedule.dfy` (`Schedule`): the events, Python's floor `%`, the specification `TrainTrace` of the events of `train`, and its properties;
- `wgan_gp.dfy` (`Trainer`): the class `WGANGP` with imperative methods proved against those specifications.

`TrainTrace(start, draws, count, …)` is the reference definition of the
first `count` epochs of a run started at epoch `start`.
`Trainer.WGANGP.Train` is proved to append exactly
`TrainTrace(old(epoch), draws, |draws|, …)` to the trace and to advance
`epoch` by `|draws|`, that is by `epochs`, or by 0 when `epochs <= 0`, as
Python's empty `range` leaves `self.epoch` untouched. The lemmas in
`Schedule` then show what such a trace looks like:

- the epochs it visits;
- the number of critic and generator steps per epoch, and their order;
- when sampling happens;
- which batches and targets each step uses.

## Model

| member | source | states |
|---|---|---|
| Options.Truthy | keras_gan/wgan_gp.py:162 | Python truthiness of an optional string, as `if suffix:` tests it: `None` and `""` are false, every other string is true; `OrElse` and `SuffixPart` state their results in its terms |
| Options.OrElse | keras_gan/wgan_gp.py:202-203 | `x or default`: a truthy string is kept; `None` and `""` give the default |
| Checkpoint.SuffixPart | keras_gan/wgan_gp.py:162-165 | the suffix adds text to the file name exactly when it is truthy |
| Checkpoint.FileName | keras_gan/wgan_gp.py:162-165 | the file name of the three format strings, `<model_name>_<kind>`, then `_<suffix>` when the suffix is truthy, then the kind's extension; `FileNameShape`, `FileNameLandmarks`, `FileNameAbsolute` and `FileNamesOfKindsDiffer` characterise it |
| Checkpoint.Join | keras_gan/wgan_gp.py:166 | POSIX `os.path.join` of one directory and one name: an absolute name replaces the directory, otherwise one `/` is inserted unless the directory is empty or ends in `/`; `JoinShape`, `JoinInjective` and `JoinModels` characterise it |
| Checkpoint.ConfigPath | keras_gan/wgan_gp.py:161-167 | `get_config_path`: the configuration file name joined onto `model_dir`; `PathShape`, `PathSuffixInjective` and `PathsOfKindsDiffer` characterise the three getters |
| Checkpoint.GeneratorPath | keras_gan/wgan_gp.py:169-175 | `get_generator_path`: the generator file name joined onto `model_dir`; characterised by `PathShape`, `PathSuffixInjective` and `PathsOfKindsDiffer` |
| Checkpoint.CriticPath | keras_gan/wgan_gp.py:177-183 | `get_critic_path`: the critic file name joined onto `model_dir`; characterised by `PathShape`, `PathSuffixInjective` and `PathsOfKindsDiffer` |
| Checkpoint.MakeConfig | keras_gan/wgan_gp.py:145-159 | the record holds `channels` (last dimension of `img_shape`), `img_shape`, `latent_dim`, `n_critic`, `epoch` and the three suffix-less default paths |
| Checkpoint.FileNameShape | keras_gan/wgan_gp.py:161-183 | a file name is `<model_name>_<kind>`, then `_<suffix>` only for a truthy suffix, then `.json` or `.hdf5` |
| Checkpoint.JoinShape | keras_gan/wgan_gp.py:166 | `os.path.join` ends with the name; an absolute name replaces the directory; otherwise the directory is a prefix |
| Checkpoint.PathShape | keras_gan/wgan_gp.py:161-183 | every checkpoint path ends with its kind's extension and, for a relative model name, starts with `model_dir` |
| Checkpoint.EmptySuffixIsNoSuffix | keras_gan/wgan_gp.py:162-165 | an empty suffix names the same file as no suffix, for every kind |
| Checkpoint.FileNameAbsolute | keras_gan/wgan_gp.py:163-166 | a file name is absolute exactly when the model name is |
| Checkpoint.JoinInjective | keras_gan/wgan_gp.py:166 | joining two names that are both relative or both absolute onto one directory keeps them distinct |
| Checkpoint.FileNameLandmarks | keras_gan/wgan_gp.py:163-181 | the character after `<model_name>_` starts the kind tag; the last character ends the extension |
| Checkpoint.FileNamesOfKindsDiffer | keras_gan/wgan_gp.py:161-183 | file names of different kinds never coincide, whatever the suffixes |
| Checkpoint.PathsOfKindsDiffer | keras_gan/wgan_gp.py:161-183 | the config, generator and critic paths are pairwise distinct, whatever the suffixes |
| Checkpoint.PathSuffixInjective | keras_gan/wgan_gp.py:161-183 | for one kind, two suffixes give the same path iff both are falsy or both are equal and truthy |
| Checkpoint.NameAndSuffixAmbiguous | keras_gan/wgan_gp.py:163 | model name `a` with suffix `config_b` and model name `a_config` with suffix `b` give the same file name |
| Checkpoint.JoinModels | keras_gan/wgan_gp.py:166 | joining a relative name onto `models` inserts one `/` |
| Checkpoint.DefaultConfigFileName | keras_gan/wgan_gp.py:165 | the default model name gives `wgan_mnist_config.json` |
| Checkpoint.DefaultConfigPath | keras_gan/wgan_gp.py:161-167 | with the constructor defaults, the config path is `models/wgan_mnist_config.json` |
| Checkpoint.DefaultGeneratorFileName | keras_gan/wgan_gp.py:173 | the default generator file name is `wgan_mnist_generator.hdf5` |
| Checkpoint.DefaultGeneratorPath | keras_gan/wgan_gp.py:169-175 | the default generator path is `models/wgan_mnist_generator.hdf5` |
| Checkpoint.EmptySuffixCriticFileName | keras_gan/wgan_gp.py:177-181 | suffix `""` gives the plain critic file name `wgan_mnist_critic.hdf5` |
| Checkpoint.DefaultCriticPath | keras_gan/wgan_gp.py:177-183 | suffix `""` gives the critic path `models/wgan_mnist_critic.hdf5` |
| Checkpoint.SuffixedCriticFileName | keras_gan/wgan_gp.py:179 | suffix `100` gives `wgan_mnist_critic_100.hdf5` |
| Checkpoint.SuffixedCriticPath | keras_gan/wgan_gp.py:177-183 | suffix `100` gives `models/wgan_mnist_critic_100.hdf5` |
| Checkpoint.ConfigPathsDistinct | keras_gan/wgan_gp.py:145-159 | the three paths in the configuration record are pairwise distinct |
| Labels.Filled | keras_gan/wgan_gp.py:284-287 | `v * np.ones((n, 1))` has `n` entries, all equal to `v` |
| Labels.CriticTargetsFor | keras_gan/wgan_gp.py:284-287 | the critic targets have `batch_size` entries each: valid all -1, fake all +1, dummy all 0 |
| Labels.GeneratorTarget | keras_gan/wgan_gp.py:313 | the generator target is the critic's `valid` vector, all -1 |
| Labels.TargetSigns | keras_gan/wgan_gp.py:33-34 | against `valid` the summed Wasserstein loss is minus the summed scores; against `fake` it is the summed scores; against `dummy` it is 0 |
| Labels.FakeNegatesValid | keras_gan/wgan_gp.py:284-287 | the losses against `valid` and `fake` cancel for equal scores |
| Schedule.FloorMod | keras_gan/wgan_gp.py:336 | Python's `%` on integers, whose remainder takes the divisor's sign; `FloorModSpec` proves the floor-division identity and the remainder's range |
| Schedule.SampleDue | keras_gan/wgan_gp.py:336 | the test `sample_interval and epoch % sample_interval == 0`; `IntervalSignIrrelevant`, `DueEvery100` and `SampleEpochsExactly` characterise when it holds |
| Schedule.FloorModSpec | keras_gan/wgan_gp.py:336 | Python's `//` and `%` split `a` into a multiple of `b` and a remainder with the sign of `b`, smaller than `b` in magnitude |
| Schedule.IntervalSignIrrelevant | keras_gan/wgan_gp.py:336 | a negative interval samples at the same epochs as its absolute value |
| Schedule.CriticSteps | keras_gan/wgan_gp.py:289-302 | the updates of `train_discriminator`: one critic step per drawn batch, in order, all with the same targets; `CriticStepsShape` and `CriticStepsEpochs` characterise it |
| Schedule.CriticStepsShape | keras_gan/wgan_gp.py:289-302 | update `k` of an epoch uses the `k`-th drawn batch and the fixed critic targets |
| Schedule.CriticStepsEpochs | keras_gan/wgan_gp.py:289-302 | the critic block of an epoch holds one critic step per batch, all of that epoch, and nothing else |
| Schedule.EpochEvents | keras_gan/wgan_gp.py:329-337 | one iteration of the loop in `train`: the critic block, the generator step, and a sample event when due; `EpochEventsAt`, `EpochEventsShape` and the three `EpochEvents*` counting lemmas characterise it |
| Schedule.EpochEventsAt | keras_gan/wgan_gp.py:329-337 | position by position: update `k` is a critic step on the `k`-th drawn batch, the next event is the generator step, and a final sample event is present exactly when sampling is due |
| Schedule.EpochEventsCritic | keras_gan/wgan_gp.py:327-330 | one epoch contributes `n_critic` critic steps, all of that epoch |
| Schedule.EpochEventsGenerator | keras_gan/wgan_gp.py:327-330 | one epoch contributes exactly one generator step, of that epoch |
| Schedule.EpochEventsSample | keras_gan/wgan_gp.py:336-337 | one epoch contributes a sample event iff sampling is due at that epoch |
| Schedule.EpochEventsShape | keras_gan/wgan_gp.py:327-337 | a well-formed epoch is exactly `n_critic` critic steps, update `k` on the `k`-th drawn batch with the fixed targets, then the generator step, then a sample event iff sampling is due; every batch index lies in `[0, N)` |
| Schedule.TrainTrace | keras_gan/wgan_gp.py:327-337 | the events of the loop in `train` from a given epoch, epoch after epoch; `GeneratorEpochsOfSchedule`, `CriticStepsPerEpoch`, `SampleEpochsExactly` and `StepsPrecedeGenerator` characterise it |
| Schedule.GeneratorEpochsOfSchedule | keras_gan/wgan_gp.py:327 | `train(E)` makes exactly E generator steps, for epochs `start + 1 .. start + E`, in this order |
| Schedule.GeneratorEpochsIncreasing | keras_gan/wgan_gp.py:327 | the epochs visited are strictly increasing: each once, in order |
| Schedule.CriticEpochsOfSchedule | keras_gan/wgan_gp.py:327-329 | the critic steps come epoch by epoch: `n_critic` for `start + 1`, then `n_critic` for `start + 2`, and so on |
| Schedule.CriticStepsPerEpoch | keras_gan/wgan_gp.py:289 | `train(E)` makes `n_critic * E` critic steps: exactly `n_critic` per epoch run and none for any other epoch |
| Schedule.SampleEpochsOfSchedule | keras_gan/wgan_gp.py:336-337 | the sampled epochs are the due epochs among `start + 1 .. start + E`, in order |
| Schedule.SampleEpochsExactly | keras_gan/wgan_gp.py:336-337 | epoch `e` is sampled iff it was run and the interval is truthy and divides `e`; each sampled epoch appears once, in increasing order |
| Schedule.NoSamplingWithoutInterval | keras_gan/wgan_gp.py:336 | with `sample_interval` `None` or `0`, `train` never samples |
| Schedule.DueEvery100 | keras_gan/wgan_gp.py:336 | among epochs 1..250, an interval of 100 is due exactly at 100 and 200 |
| Schedule.SampleEvery100Over250 | keras_gan/wgan_gp.py:336-337 | a fresh 250-epoch run with interval 100 samples at epochs 100 and 200, and only there |
| Schedule.StepsPrecedeGenerator | keras_gan/wgan_gp.py:327-337 | in the trace of `train`, every generator step comes right after `n_critic` critic steps of its epoch, and every sample right after the generator step of its epoch |
| Schedule.ScheduleEpochsOrdered | keras_gan/wgan_gp.py:327 | the trace of `train` holds only training events of the epochs run, and their epochs never decrease |
| Schedule.ScheduleBatchesAndTargets | keras_gan/wgan_gp.py:295-301 | every critic step uses `batch_size` indices in `[0, N)` and the targets -1/+1/0; every generator step uses -1 |
| Schedule.RepeatedIndicesAllowed | keras_gan/wgan_gp.py:295 | a batch may repeat an index (it is drawn with replacement) |
| Trainer.SaveEvents | keras_gan/wgan_gp.py:207-209 | one `save` writes the configuration, then the generator, then the critic, each at the path the configuration records |
| Trainer.WGANGP.constructor | keras_gan/wgan_gp.py:56-80 | defaults `img_shape = [28, 28, 1]`, `latent_dim = 100`, `n_critic = 5`, `model_name = "wgan_mnist"`, `model_dir = "models"`; keeps the hyperparameters, takes `channels` from the last dimension of `img_shape`, and starts at epoch 0 with no action issued |
| Trainer.WGANGP.GetConfig | keras_gan/wgan_gp.py:145-159 | the record of the current hyperparameters, the current epoch and the three default paths |
| Trainer.WGANGP.TrainDiscriminator | keras_gan/wgan_gp.py:281-304 | appends `n_critic` critic steps, one per drawn batch, in order and with the fixed targets; returns one loss per step; leaves the epoch unchanged |
| Trainer.WGANGP.TrainGenerator | keras_gan/wgan_gp.py:306-316 | appends one generator step with target -1 and returns the graph's loss |
| Trainer.WGANGP.SampleImages | keras_gan/wgan_gp.py:337 | appends one sample event for the current epoch |
| Trainer.WGANGP.TrainEpoch | keras_gan/wgan_gp.py:329-337 | one loop iteration appends exactly the events of that epoch: critic block, generator step, sample when due |
| Trainer.WGANGP.Train | keras_gan/wgan_gp.py:318-337 | `sample_interval` defaults to `50`; `epoch` becomes `old(epoch) + E` (unchanged for `epochs <= 0`) and the trace grows by exactly the events of epochs `old(epoch) + 1 .. old(epoch) + E`, in order |
| Trainer.WGANGP.SaveGenerator | keras_gan/wgan_gp.py:185-188 | only `None` falls back on the default generator path; any given path, even `""`, is used as is |
| Trainer.WGANGP.SaveCritic | keras_gan/wgan_gp.py:190-193 | only `None` falls back on the default critic path; any given path is used as is |
| Trainer.WGANGP.SaveConfig | keras_gan/wgan_gp.py:195-199 | writes the current configuration record at the default configuration path |
| Trainer.WGANGP.SaveModel | keras_gan/wgan_gp.py:201-205 | writes the generator, then the critic; a path that is `None` or empty falls back on the default |
| Trainer.WGANGP.Save | keras_gan/wgan_gp.py:207-209 | writes the configuration, then the generator, then the critic, at three pairwise distinct default paths |

## Left out

- The Keras side is not modelled: the networks built by `build_generator`, `build_critic` and the graph builders, `RandomWeightedAverage`, `gradient_penalty_loss`, the optimiser and the weight updates. `train_on_batch` is an event, and its returned loss is an input.
- The generator noise (`generate_noise`, `generate_batch`) is floating-point randomness and is not modelled. Each critic batch's indices are an input, constrained to what `np.random.randint(0, N, batch_size)` can return.
- Loading the dataset and rescaling it to `[-1, 1]` (lines 321-325) are not modelled. Only the dataset size `N` matters to the schedule.
- `sample_images` plotting and its image file are not modelled; they are one `Sample` event.
- The verbose progress print (line 334) is left out. It reads `d_losses[0][0]`, which fails when `n_critic` is 0; the model lets `n_critic = 0` run.
- The JSON and HDF5 writes are events carrying a path, plus the record for the configuration. File contents and I/O errors are not modelled.
- The base class `GANBase` (`verbose`, `get_optimizer`) is in `keras_gan/gan_base.py`, which is not part of this model.
- Loading a checkpoint and resuming from it are not part of this file's code.
- `n_critic` and `batch_size` are natural numbers. A negative `n_critic` gives Python an empty `range`, and a negative `batch_size` makes `numpy` raise. Neither is modelled.
- `Trainer.WGANGP.Train`: `np.random.randint` raises on an empty dataset. The model has no error path for it. Instead, no index batch exists for `N = 0`, so a run on an empty dataset with `n_critic > 0` is outside the precondition.
- `Trainer.WGANGP.constructor`: requires a non-empty `img_shape`. With an empty shape, Python raises `IndexError` at line 70; the model has no error path for it.
- Suffix and path arguments are optional strings only. Python's `if suffix:` (line 162) and `x or default` (line 202) also treat falsy non-strings as absent; for example, `get_critic_path(suffix=0)` names the default file. The model does not cover non-string arguments.
- A critic loss is a single `real` here; Keras returns a list (the total loss and one loss per output).
- The configuration record follows the code. It holds `channels`, `img_shape`, `latent_dim`, `n_critic`, `epoch` and three paths. There are no architecture paths and no separate architecture files.
