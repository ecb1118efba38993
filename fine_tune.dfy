/** The `fine_tune` sub-command up to its hand-off to the fine-tuning engine. */
module FineTuneCommand {
  import opened Wrappers
  import opened Paths
  import opened Options
  import opened Failures
  import opened SubjectManifest
  import opened Common

  datatype FineTuneArgs = FineTuneArgs(
    inpDir: string,
    outputDir: string,
    labelDir: string,
    lossFunction: string,
    gmdistDir: Option<string>,
    ventdistDir: Option<string>,
    hyper: Hyperparameters,
    saveFullModel: string,
    pretrainedModel: string,
    pretrainedModelName: string,
    modelName: string)

  /** What `fine_tune` passes to the fine-tuning engine besides the parameter dictionary. */
  datatype FineTuneCall = FineTuneCall(
    subjects: seq<Subject>,
    weighted: bool,
    saveWeights: bool,
    saveCase: string,
    model: ModelChoice,
    checkpointDir: string)

  /** The checks of `fine_tune` in the source's order, and the call they lead to. */
  function FineTuneOutcome(host: Host, a: FineTuneArgs, flairs: seq<string>): Result<FineTuneCall, Failure> {
    if a.inpDir !in host.fs.dirs then Err(InvalidInputDir(a.inpDir))
    else if |flairs| == 0 then Err(NoFlairImages(a.inpDir))
    else if a.outputDir !in host.fs.dirs then Err(InvalidDir(a.outputDir))
    else if a.labelDir !in host.fs.dirs then Err(InvalidDir(a.labelDir))
    else
      var distances :- DistanceDirsFor(host.fs, a.lossFunction, a.gmdistDir, a.ventdistDir);
      var subjects :- Manifest(host.fs, Labelled(a.labelDir, distances), flairs);
      FineTuneOptions(host, a, subjects)
  }

  /**
   * The checks of `fine_tune` after the manifest is built: they pass exactly
   * when the options are accepted and the model is found.
   */
  function FineTuneOptions(host: Host, a: FineTuneArgs, subjects: seq<Subject>): (r: Result<FineTuneCall, Failure>)
    ensures r.Ok? ==> r.value.subjects == subjects
    ensures r.Ok? <==>
      && Accepted(a.hyper, true)
      && ModelAvailable(host, a.pretrainedModel, a.pretrainedModelName, a.modelName)
      && a.hyper.cpSaveType in SaveTypes
    ensures CheckHyperparameters(a.hyper, true).Some? ==> r == Err(BadOption(CheckHyperparameters(a.hyper, true).value))
    ensures Accepted(a.hyper, true) && !ModelAvailable(host, a.pretrainedModel, a.pretrainedModelName, a.modelName) ==>
      r == Err(LocateModel(host, a.pretrainedModel, a.pretrainedModelName, a.modelName).error)
    ensures (Accepted(a.hyper, true) && a.hyper.cpSaveType !in SaveTypes
             && ModelAvailable(host, a.pretrainedModel, a.pretrainedModelName, a.modelName))
      ==> r == Err(InvalidCpSaveType)
  {
    match CheckHyperparameters(a.hyper, true)
    case Some(f) => Err(BadOption(f))
    case None =>
      var model :- LocateModel(host, a.pretrainedModel, a.pretrainedModelName, a.modelName);
      if a.hyper.cpSaveType !in SaveTypes then Err(InvalidCpSaveType)
      else if a.hyper.cpSaveType == EveryN && a.hyper.cpEveryN.None? then Err(CpNRequiredForEveryN)
      else Ok(FineTuneCall(subjects, a.lossFunction == Weighted, SaveWeights(a.saveFullModel),
                           a.hyper.cpSaveType, model, a.outputDir))
  }

  /** `fine_tune`: raise on the first failed check, else hand the manifest over. */
  method FineTune(host: Host, a: FineTuneArgs, flairs: seq<string>) returns (r: Result<FineTuneCall, Failure>)
    ensures r == FineTuneOutcome(host, a, flairs)
  {
    if a.inpDir !in host.fs.dirs {
      return Err(InvalidInputDir(a.inpDir));
    }
    if |flairs| == 0 {
      return Err(NoFlairImages(a.inpDir));
    }
    if a.outputDir !in host.fs.dirs {
      return Err(InvalidDir(a.outputDir));
    }
    if a.labelDir !in host.fs.dirs {
      return Err(InvalidDir(a.labelDir));
    }
    var distances :- DistanceDirsFor(host.fs, a.lossFunction, a.gmdistDir, a.ventdistDir);
    var subjects :- BuildManifest(host.fs, Labelled(a.labelDir, distances), flairs);
    var failure := CheckHyperparameters(a.hyper, true);
    if failure.Some? {
      return Err(BadOption(failure.value));
    }
    var saveWeights := SaveWeights(a.saveFullModel);
    var model :- LocateModel(host, a.pretrainedModel, a.pretrainedModelName, a.modelName);
    if a.hyper.cpSaveType !in SaveTypes {
      return Err(InvalidCpSaveType);
    }
    if a.hyper.cpSaveType == EveryN && a.hyper.cpEveryN.None? {
      return Err(CpNRequiredForEveryN);
    }
    return Ok(FineTuneCall(subjects, a.lossFunction == Weighted, saveWeights, a.hyper.cpSaveType, model, a.outputDir));
  }

  /** Everything `fine_tune` demands, as one condition. */
  predicate FineTuneAccepted(host: Host, a: FineTuneArgs, flairs: seq<string>) {
    && a.inpDir in host.fs.dirs
    && |flairs| > 0
    && a.outputDir in host.fs.dirs
    && a.labelDir in host.fs.dirs
    && DistanceDirsGiven(host.fs, a.lossFunction, a.gmdistDir, a.ventdistDir)
    && (forall i :: 0 <= i < |flairs| ==>
          Resolvable(host.fs, TrainingNeeds(a.labelDir, a.lossFunction, a.gmdistDir, a.ventdistDir), flairs[i]))
    && Accepted(a.hyper, true)
    && ModelAvailable(host, a.pretrainedModel, a.pretrainedModelName, a.modelName)
    && a.hyper.cpSaveType in SaveTypes
  }

  /** `fine_tune` reaches the fine-tuning engine exactly when all its demands are met. */
  lemma FineTuneAcceptance(host: Host, a: FineTuneArgs, flairs: seq<string>)
    ensures FineTuneOutcome(host, a, flairs).Ok? <==> FineTuneAccepted(host, a, flairs)
  {
    var distances := DistanceDirsFor(host.fs, a.lossFunction, a.gmdistDir, a.ventdistDir);
    if distances.Ok? {
      ManifestBuilt(host.fs, Labelled(a.labelDir, distances.value), flairs);
    }
  }

  /** The directory checks pass and the FLAIR list is not empty. */
  predicate FineTuneDirsExist(host: Host, a: FineTuneArgs, flairs: seq<string>) {
    a.inpDir in host.fs.dirs && |flairs| > 0 && a.outputDir in host.fs.dirs && a.labelDir in host.fs.dirs
  }

  /**
   * The error `fine_tune` raises for each check before its options, once
   * the checks before it have passed: the directories and the FLAIR list,
   * the distance directories, and the first subject with a missing file.
   * After that the outcome is FineTuneOptions on the manifest.
   */
  lemma FineTuneErrors(host: Host, a: FineTuneArgs, flairs: seq<string>)
    ensures a.inpDir !in host.fs.dirs ==> FineTuneOutcome(host, a, flairs) == Err(InvalidInputDir(a.inpDir))
    ensures a.inpDir in host.fs.dirs && |flairs| == 0 ==> FineTuneOutcome(host, a, flairs) == Err(NoFlairImages(a.inpDir))
    ensures a.inpDir in host.fs.dirs && |flairs| > 0 && a.outputDir !in host.fs.dirs ==>
      FineTuneOutcome(host, a, flairs) == Err(InvalidDir(a.outputDir))
    ensures a.inpDir in host.fs.dirs && |flairs| > 0 && a.outputDir in host.fs.dirs && a.labelDir !in host.fs.dirs ==>
      FineTuneOutcome(host, a, flairs) == Err(InvalidDir(a.labelDir))
    ensures FineTuneDirsExist(host, a, flairs) && !DistanceDirsGiven(host.fs, a.lossFunction, a.gmdistDir, a.ventdistDir) ==>
      FineTuneOutcome(host, a, flairs) == Err(DistanceDirsFor(host.fs, a.lossFunction, a.gmdistDir, a.ventdistDir).error)
    ensures var manifest := Manifest(host.fs, TrainingNeeds(a.labelDir, a.lossFunction, a.gmdistDir, a.ventdistDir), flairs);
      FineTuneDirsExist(host, a, flairs) && DistanceDirsGiven(host.fs, a.lossFunction, a.gmdistDir, a.ventdistDir) ==>
        && (manifest.Err? ==> FineTuneOutcome(host, a, flairs) == Err(manifest.error))
        && (manifest.Ok? ==> FineTuneOutcome(host, a, flairs) == FineTuneOptions(host, a, manifest.value))
  {
    if FineTuneDirsExist(host, a, flairs) && DistanceDirsGiven(host.fs, a.lossFunction, a.gmdistDir, a.ventdistDir) {
      DistanceDirsNeeds(host.fs, a.labelDir, a.lossFunction, a.gmdistDir, a.ventdistDir);
    }
  }

  /**
   * The records that reach the fine-tuning engine: one labelled record per
   * FLAIR path in order, with distance maps exactly under the weighted loss, each file picked by the
   * resolution rule.
   */
  lemma FineTuneRecords(host: Host, a: FineTuneArgs, flairs: seq<string>, c: FineTuneCall)
    requires FineTuneOutcome(host, a, flairs) == Ok(c)
    ensures |flairs| > 0
    ensures LabelledRecords(host.fs, a.labelDir, TrainingNeeds(a.labelDir, a.lossFunction, a.gmdistDir, a.ventdistDir).distances,
                            flairs, c.subjects)
    ensures c.weighted <==> a.lossFunction == Weighted
  {
    var distances := DistanceDirsFor(host.fs, a.lossFunction, a.gmdistDir, a.ventdistDir);
    assert distances.Ok?;
    var manifest := Manifest(host.fs, Labelled(a.labelDir, distances.value), flairs);
    assert manifest.Ok?;
    assert FineTuneOutcome(host, a, flairs) == FineTuneOptions(host, a, manifest.value);
    assert c.weighted == distances.value.Some?;
    DistanceDirsNeeds(host.fs, a.labelDir, a.lossFunction, a.gmdistDir, a.ventdistDir);
    LabelledManifestShape(host.fs, a.labelDir, distances.value, flairs, c.subjects);
  }

  /**
   * The rest of the call: hyperparameters in range, the model that was
   * found, the derived flags, and the output directory as the checkpoint
   * directory.
   */
  lemma FineTuneCallShape(host: Host, a: FineTuneArgs, flairs: seq<string>, c: FineTuneCall)
    requires FineTuneOutcome(host, a, flairs) == Ok(c)
    ensures a.hyper.batchSize >= 1 && a.hyper.numEpochs >= 1 && a.hyper.batchFactor >= 1
      && a.hyper.augFactor >= 1 && a.hyper.numClasses >= 1
    ensures 1 <= a.hyper.earlyStopVal <= a.hyper.numEpochs
    ensures a.hyper.cpSaveType == EveryN ==> a.hyper.cpEveryN.Some? && 1 <= a.hyper.cpEveryN.value <= a.hyper.numEpochs
    ensures c.saveCase == a.hyper.cpSaveType && c.saveCase in SaveTypes
    ensures !c.saveWeights <==> a.saveFullModel == "True"
    ensures c.model.Pretrained? <==> a.pretrainedModel == "True"
    ensures c.model.Pretrained? ==> c.model.name == a.pretrainedModelName && c.model.name in PretrainedNames
    ensures c.model.Custom? ==> c.model.name == AfterLast(a.modelName, Sep) && c.model.dir == DirName(a.modelName)
    ensures c.checkpointDir == a.outputDir && c.checkpointDir in host.fs.dirs
  {
  }

  /**
   * The `-cp_n` guard for `everyN` saving can never raise: a missing N has
   * already been compared with an integer in the hyperparameter checks, which
   * raises a TypeError once every subject has resolved.
   */
  lemma FineTuneEveryNGuardUnreachable(host: Host, a: FineTuneArgs, flairs: seq<string>)
    ensures FineTuneOutcome(host, a, flairs) != Err(CpNRequiredForEveryN)
    ensures FineTuneOutcome(host, a, flairs) == Err(BadOption(EveryNMissing)) ==>
      a.hyper.cpSaveType == EveryN && a.hyper.cpEveryN.None?
  {
    var r := FineTuneOutcome(host, a, flairs);
    if a.inpDir in host.fs.dirs && |flairs| > 0 && a.outputDir in host.fs.dirs && a.labelDir in host.fs.dirs {
      var distances := DistanceDirsFor(host.fs, a.lossFunction, a.gmdistDir, a.ventdistDir);
      if distances.Err? {
        assert r == Err(distances.error);
      } else {
        var manifest := Manifest(host.fs, Labelled(a.labelDir, distances.value), flairs);
        if manifest.Err? {
          ManifestFirstFailure(host.fs, Labelled(a.labelDir, distances.value), flairs);
          assert r == Err(manifest.error);
        } else if CheckHyperparameters(a.hyper, true).Some? {
          var f := CheckHyperparameters(a.hyper, true).value;
          assert r == Err(BadOption(f)) && Violates(a.hyper, true, f);
        } else {
          assert Accepted(a.hyper, true);
          var model := LocateModel(host, a.pretrainedModel, a.pretrainedModelName, a.modelName);
          if model.Err? {
            assert r == Err(model.error);
          }
        }
      }
    }
  }

  /**
   * The exceptions of `fine_tune`: a RuntimeError exactly when pretrained
   * data is missing and every check before the model lookup has passed, a
   * TypeError only for a missing `-cp_n` under `everyN` saving, and a
   * ValueError otherwise.
   */
  lemma FineTuneErrorKind(host: Host, a: FineTuneArgs, flairs: seq<string>)
    requires FineTuneOutcome(host, a, flairs).Err?
    ensures Kind(FineTuneOutcome(host, a, flairs).error) == RuntimeError <==>
      && a.inpDir in host.fs.dirs
      && |flairs| > 0
      && a.outputDir in host.fs.dirs
      && a.labelDir in host.fs.dirs
      && DistanceDirsGiven(host.fs, a.lossFunction, a.gmdistDir, a.ventdistDir)
      && (forall i :: 0 <= i < |flairs| ==>
            Resolvable(host.fs, TrainingNeeds(a.labelDir, a.lossFunction, a.gmdistDir, a.ventdistDir), flairs[i]))
      && Accepted(a.hyper, true)
      && PretrainedDataAbsent(host, a.pretrainedModel, a.pretrainedModelName)
    ensures Kind(FineTuneOutcome(host, a, flairs).error) == TypeError ==>
      a.hyper.cpSaveType == EveryN && a.hyper.cpEveryN.None?
  {
    var r := FineTuneOutcome(host, a, flairs);
    if a.inpDir in host.fs.dirs && |flairs| > 0 && a.outputDir in host.fs.dirs && a.labelDir in host.fs.dirs {
      var distances := DistanceDirsFor(host.fs, a.lossFunction, a.gmdistDir, a.ventdistDir);
      if distances.Err? {
        assert r == Err(distances.error);
      } else {
        var manifest := Manifest(host.fs, Labelled(a.labelDir, distances.value), flairs);
        ManifestBuilt(host.fs, Labelled(a.labelDir, distances.value), flairs);
        if manifest.Err? {
          ManifestFirstFailure(host.fs, Labelled(a.labelDir, distances.value), flairs);
          assert r == Err(manifest.error);
        } else if CheckHyperparameters(a.hyper, true).Some? {
          assert r == Err(BadOption(CheckHyperparameters(a.hyper, true).value));
        } else {
          var model := LocateModel(host, a.pretrainedModel, a.pretrainedModelName, a.modelName);
          if model.Err? {
            assert r == Err(model.error);
          }
        }
      }
    }
  }
}
