/** Checkpoint naming and the configuration record of the WGAN-GP trainer.

    A checkpoint consists of three files in `model_dir`: a JSON configuration
    and one HDF5 file per network.  Their names are built from `model_name`,
    a kind tag and an optional suffix:

      <model_name>_<kind>[_<suffix>]<ext>

    where `ext` is `.json` for the configuration and `.hdf5` for the two
    networks, and the suffix part is present only when the suffix is truthy.
    The directory is joined with POSIX `os.path.join` semantics. */
module Checkpoint {
  import opened Options

  /** The three files of a checkpoint. */
  datatype Kind = ConfigFile | GeneratorFile | CriticFile

  function Tag(k: Kind): string
  {
    match k
    case ConfigFile => "config"
    case GeneratorFile => "generator"
    case CriticFile => "critic"
  }

  function Extension(k: Kind): string
  {
    if k == ConfigFile then ".json" else ".hdf5"
  }

  /** The part of the file name contributed by the suffix. */
  function SuffixPart(suffix: Option<string>): (r: string)
    ensures r == "" <==> !Truthy(suffix)
  {
    if Truthy(suffix) then "_" + suffix.value else ""
  }

  /** The file name chosen by get_config_path, get_generator_path and
      get_critic_path before the directory is joined on. */
  function FileName(modelName: string, k: Kind, suffix: Option<string>): string
  {
    modelName + "_" + Tag(k) + SuffixPart(suffix) + Extension(k)
  }

  predicate IsAbsolute(p: string)
  {
    |p| > 0 && p[0] == '/'
  }

  /** POSIX `os.path.join(dir, name)`: an absolute name discards the
      directory; otherwise a separator is inserted unless the directory is
      empty or already ends with one. */
  function Join(dir: string, name: string): string
  {
    if IsAbsolute(name) then name
    else if dir == "" || dir[|dir| - 1] == '/' then dir + name
    else dir + "/" + name
  }

  function Path(modelDir: string, modelName: string, k: Kind, suffix: Option<string>): string
  {
    Join(modelDir, FileName(modelName, k, suffix))
  }

  /** get_config_path */
  function ConfigPath(modelDir: string, modelName: string, suffix: Option<string>): string
  {
    Path(modelDir, modelName, ConfigFile, suffix)
  }

  /** get_generator_path */
  function GeneratorPath(modelDir: string, modelName: string, suffix: Option<string>): string
  {
    Path(modelDir, modelName, GeneratorFile, suffix)
  }

  /** get_critic_path */
  function CriticPath(modelDir: string, modelName: string, suffix: Option<string>): string
  {
    Path(modelDir, modelName, CriticFile, suffix)
  }

  /** The record get_config builds (and save_config writes as JSON). */
  datatype Config = Config(
    channels: nat,
    imgShape: seq<nat>,
    latentDim: nat,
    nCritic: nat,
    epoch: int,
    generatorPath: string,
    criticPath: string,
    configPath: string)

  /** get_config: a snapshot of the hyperparameters and the current epoch
      together with the three default (suffix-less) checkpoint paths. */
  function MakeConfig(imgShape: seq<nat>, latentDim: nat, nCritic: nat, epoch: int,
                      modelDir: string, modelName: string): (c: Config)
    requires |imgShape| > 0
    ensures c.channels == imgShape[|imgShape| - 1] && c.imgShape == imgShape
    ensures c.latentDim == latentDim && c.nCritic == nCritic && c.epoch == epoch
    ensures c.configPath == ConfigPath(modelDir, modelName, None)
    ensures c.generatorPath == GeneratorPath(modelDir, modelName, None)
    ensures c.criticPath == CriticPath(modelDir, modelName, None)
  {
    Config(imgShape[|imgShape| - 1], imgShape, latentDim, nCritic, epoch,
           GeneratorPath(modelDir, modelName, None),
           CriticPath(modelDir, modelName, None),
           ConfigPath(modelDir, modelName, None))
  }

  // ---------------------------------------------------------------------
  // Properties of the naming scheme
  // ---------------------------------------------------------------------

  /** A file name starts with `<model_name>_<kind>`, ends with the kind's
      extension, and carries the suffix (after `_`) only when it is truthy. */
  lemma FileNameShape(modelName: string, k: Kind, suffix: Option<string>)
    ensures var f := FileName(modelName, k, suffix);
      var head := modelName + "_" + Tag(k);
      |f| == |head| + |SuffixPart(suffix)| + |Extension(k)| &&
      f[..|head|] == head &&
      f[|head|..|f| - |Extension(k)|] == (if Truthy(suffix) then "_" + suffix.value else "") &&
      f[|f| - |Extension(k)|..] == Extension(k)
  {
    var f := FileName(modelName, k, suffix);
    var head := modelName + "_" + Tag(k);
    assert f == head + SuffixPart(suffix) + Extension(k);
  }

  /** `os.path.join` ends with the joined name and, unless that name is
      absolute, starts with the directory. */
  lemma JoinShape(dir: string, name: string)
    ensures var r := Join(dir, name);
      |r| >= |name| && r[|r| - |name|..] == name &&
      (IsAbsolute(name) ==> r == name) &&
      (!IsAbsolute(name) ==> |r| >= |dir| && r[..|dir|] == dir)
  {
    var r := Join(dir, name);
    if !IsAbsolute(name) && !(dir == "" || dir[|dir| - 1] == '/') {
      assert r == dir + ("/" + name);
    }
  }

  /** Every checkpoint path ends with the kind's extension (`.json` for the
      configuration, `.hdf5` for the networks) and, for a relative model
      name, is prefixed by the model directory. */
  lemma PathShape(modelDir: string, modelName: string, k: Kind, suffix: Option<string>)
    ensures var p := Path(modelDir, modelName, k, suffix);
      |p| >= 5 && p[|p| - 5..] == Extension(k) &&
      (!IsAbsolute(modelName) ==> |p| >= |modelDir| && p[..|modelDir|] == modelDir)
  {
    var f := FileName(modelName, k, suffix);
    var p := Path(modelDir, modelName, k, suffix);
    FileNameShape(modelName, k, suffix);
    FileNameAbsolute(modelName, k, suffix);
    JoinShape(modelDir, f);
    assert p[|p| - 5..] == p[|p| - |f|..][|f| - 5..] == f[|f| - 5..];
  }

  /** An empty suffix names the same file as no suffix at all. */
  lemma EmptySuffixIsNoSuffix(modelDir: string, modelName: string, k: Kind)
    ensures Path(modelDir, modelName, k, Some("")) == Path(modelDir, modelName, k, None)
  {
  }

  /** A file name is absolute exactly when the model name is. */
  lemma FileNameAbsolute(modelName: string, k: Kind, suffix: Option<string>)
    ensures IsAbsolute(FileName(modelName, k, suffix)) <==> IsAbsolute(modelName)
  {
    var r := FileName(modelName, k, suffix);
    if modelName == "" {
      assert r[0] == '_';
    } else {
      assert r[0] == r[..|modelName|][0] == modelName[0];
    }
  }

  /** Joining onto one directory does not merge two distinct names of the
      same kind (both absolute or both relative). */
  lemma JoinInjective(dir: string, n1: string, n2: string)
    requires IsAbsolute(n1) <==> IsAbsolute(n2)
    ensures Join(dir, n1) == Join(dir, n2) ==> n1 == n2
  {
    var r1, r2 := Join(dir, n1), Join(dir, n2);
    if r1 == r2 && !IsAbsolute(n1) {
      var p := if dir == "" || dir[|dir| - 1] == '/' then dir else dir + "/";
      assert r1 == p + n1 && r2 == p + n2;
      assert n1 == r1[|p|..] == r2[|p|..] == n2;
    }
  }

  /** The character after `<model_name>_` is the first letter of the kind
      tag, and the last character is the last letter of the extension. */
  lemma FileNameLandmarks(modelName: string, k: Kind, suffix: Option<string>)
    ensures var f := FileName(modelName, k, suffix);
      f[|modelName| + 1] == Tag(k)[0] && f[|f| - 1] == Extension(k)[4]
  {
    assert |Tag(k)| > 0 && |Extension(k)| == 5;
    ConcatLandmarks(modelName, Tag(k), SuffixPart(suffix), Extension(k));
  }

  lemma ConcatLandmarks(m: string, t: string, s: string, e: string)
    requires |t| > 0 && |e| > 0
    ensures var f := m + "_" + t + s + e;
      f[|m| + 1] == t[0] && f[|f| - 1] == e[|e| - 1]
  {
  }

  /** Two file names of different kinds for the same model never coincide,
      whatever suffixes are used: the extension separates the configuration
      from the networks, and the tag separates the two networks. */
  lemma FileNamesOfKindsDiffer(modelName: string, k1: Kind, k2: Kind, s1: Option<string>, s2: Option<string>)
    requires k1 != k2
    ensures FileName(modelName, k1, s1) != FileName(modelName, k2, s2)
  {
    FileNameLandmarks(modelName, k1, s1);
    FileNameLandmarks(modelName, k2, s2);
    assert Tag(k1)[0] != Tag(k2)[0] || Extension(k1)[4] != Extension(k2)[4];
  }

  /** For a fixed model name and directory, the configuration, generator and
      critic paths are pairwise distinct, whatever suffixes are used: the
      three writes of one save never overwrite one another. */
  lemma PathsOfKindsDiffer(modelDir: string, modelName: string, k1: Kind, k2: Kind,
                           s1: Option<string>, s2: Option<string>)
    requires k1 != k2
    ensures Path(modelDir, modelName, k1, s1) != Path(modelDir, modelName, k2, s2)
  {
    FileNamesOfKindsDiffer(modelName, k1, k2, s1, s2);
    FileNameAbsolute(modelName, k1, s1);
    FileNameAbsolute(modelName, k2, s2);
    JoinInjective(modelDir, FileName(modelName, k1, s1), FileName(modelName, k2, s2));
  }

  /** For a fixed model name, directory and kind, two suffixes name the same
      file exactly when they contribute the same text: all falsy suffixes
      agree, and truthy ones must be equal. */
  lemma PathSuffixInjective(modelDir: string, modelName: string, k: Kind,
                            s1: Option<string>, s2: Option<string>)
    ensures Path(modelDir, modelName, k, s1) == Path(modelDir, modelName, k, s2)
        <==> SuffixPart(s1) == SuffixPart(s2)
    ensures Path(modelDir, modelName, k, s1) == Path(modelDir, modelName, k, s2)
        <==> (Truthy(s1) <==> Truthy(s2)) && (Truthy(s1) ==> s1.value == s2.value)
  {
    var f1, f2 := FileName(modelName, k, s1), FileName(modelName, k, s2);
    FileNameAbsolute(modelName, k, s1);
    FileNameAbsolute(modelName, k, s2);
    JoinInjective(modelDir, f1, f2);
    var head := modelName + "_" + Tag(k);
    var ext := Extension(k);
    assert f1 == head + SuffixPart(s1) + ext;
    assert f2 == head + SuffixPart(s2) + ext;
    if f1 == f2 {
      assert SuffixPart(s1) == f1[|head|..|f1| - |ext|] == f2[|head|..|f2| - |ext|] == SuffixPart(s2);
    }
    if Truthy(s1) && Truthy(s2) && SuffixPart(s1) == SuffixPart(s2) {
      assert s1.value == SuffixPart(s1)[1..] == SuffixPart(s2)[1..] == s2.value;
    }
  }

  /** The pair (model name, suffix) is not recovered from a file name: the
      underscore separator also occurs inside names and suffixes. */
  lemma NameAndSuffixAmbiguous()
    ensures FileName("a", ConfigFile, Some("config_b")) == FileName("a_config", ConfigFile, Some("b"))
  {
  }

  /** Joining a relative name onto `models` inserts one separator. */
  lemma JoinModels(name: string)
    requires !IsAbsolute(name)
    ensures Join("models", name) == "models/" + name
  {
    assert "models"[5] == 's';
    assert "models" + "/" == "models/";
  }

  lemma DefaultConfigFileName()
    ensures FileName("wgan_mnist", ConfigFile, None) == "wgan_mnist_config.json"
  {
    var f := FileName("wgan_mnist", ConfigFile, None);
    assert Tag(ConfigFile) == "config" && SuffixPart(None) == "" && Extension(ConfigFile) == ".json";
    assert f == "wgan_mnist" + "_" + "config" + "" + ".json";
  }

  /** With the constructor's defaults the checkpoint lives in `models/`. */
  lemma DefaultConfigPath()
    ensures ConfigPath("models", "wgan_mnist", None) == "models/wgan_mnist_config.json"
  {
    DefaultConfigFileName();
    JoinModels("wgan_mnist_config.json");
    assert "models/" + "wgan_mnist_config.json" == "models/wgan_mnist_config.json";
  }

  lemma DefaultGeneratorFileName()
    ensures FileName("wgan_mnist", GeneratorFile, None) == "wgan_mnist_generator.hdf5"
  {
    var f := FileName("wgan_mnist", GeneratorFile, None);
    assert Tag(GeneratorFile) == "generator" && SuffixPart(None) == "" && Extension(GeneratorFile) == ".hdf5";
    assert f == "wgan_mnist" + "_" + "generator" + "" + ".hdf5";
  }

  lemma DefaultGeneratorPath()
    ensures GeneratorPath("models", "wgan_mnist", None) == "models/wgan_mnist_generator.hdf5"
  {
    DefaultGeneratorFileName();
    JoinModels("wgan_mnist_generator.hdf5");
    assert "models/" + "wgan_mnist_generator.hdf5" == "models/wgan_mnist_generator.hdf5";
  }

  lemma EmptySuffixCriticFileName()
    ensures FileName("wgan_mnist", CriticFile, Some("")) == "wgan_mnist_critic.hdf5"
  {
    var f := FileName("wgan_mnist", CriticFile, Some(""));
    assert Tag(CriticFile) == "critic" && SuffixPart(Some("")) == "" && Extension(CriticFile) == ".hdf5";
    assert f == "wgan_mnist" + "_" + "critic" + "" + ".hdf5";
  }

  /** An empty suffix is dropped; a non-empty one is appended after `_`. */
  lemma DefaultCriticPath()
    ensures CriticPath("models", "wgan_mnist", Some("")) == "models/wgan_mnist_critic.hdf5"
  {
    EmptySuffixCriticFileName();
    JoinModels("wgan_mnist_critic.hdf5");
    assert "models/" + "wgan_mnist_critic.hdf5" == "models/wgan_mnist_critic.hdf5";
  }

  lemma SuffixedCriticFileName()
    ensures FileName("wgan_mnist", CriticFile, Some("100")) == "wgan_mnist_critic_100.hdf5"
  {
    var f := FileName("wgan_mnist", CriticFile, Some("100"));
    assert Tag(CriticFile) == "critic" && SuffixPart(Some("100")) == "_100" && Extension(CriticFile) == ".hdf5";
    assert f == "wgan_mnist" + "_" + "critic" + "_100" + ".hdf5";
  }

  lemma SuffixedCriticPath()
    ensures CriticPath("models", "wgan_mnist", Some("100")) == "models/wgan_mnist_critic_100.hdf5"
  {
    SuffixedCriticFileName();
    JoinModels("wgan_mnist_critic_100.hdf5");
    assert "models/" + "wgan_mnist_critic_100.hdf5" == "models/wgan_mnist_critic_100.hdf5";
  }

  /** The configuration record names three distinct files, so the record it
      describes is self-consistent: one save writes three different files. */
  lemma ConfigPathsDistinct(imgShape: seq<nat>, latentDim: nat, nCritic: nat, epoch: int,
                            modelDir: string, modelName: string)
    requires |imgShape| > 0
    ensures var c := MakeConfig(imgShape, latentDim, nCritic, epoch, modelDir, modelName);
      c.configPath != c.generatorPath && c.configPath != c.criticPath && c.generatorPath != c.criticPath
  {
    PathsOfKindsDiffer(modelDir, modelName, ConfigFile, GeneratorFile, None, None);
    PathsOfKindsDiffer(modelDir, modelName, ConfigFile, CriticFile, None, None);
    PathsOfKindsDiffer(modelDir, modelName, GeneratorFile, CriticFile, None, None);
  }
}
