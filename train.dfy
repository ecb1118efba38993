/** The `train` sub-command up to its hand-off to the training engine. */
module TrainCommand {
  import opened Wrappers
  import opened Paths
  import opened Options
  import opened Failures
  import opened SubjectManifest
  import opened Common

  datatype TrainArgs = TrainArgs(
    inpDir: string,
    modelDir: string,
    labelDir: string,
    lossFunction: string,
    gmdistDir: Option<string>,
    ventdistDir: Option<string>,
    hyper: Hyperparameters,
    saveFullModel: string)

  /** What `train` passes to the training engine besides the parameter dictionary. */
  datatype TrainCall = TrainCall(
    subjects: seq<Subject>,
    weighted: bool,
    saveWeights: bool,
    saveCase: string,
    checkpointDir: string)

  /** The checks of `train` in the source's order, and the call they lead to. */
  function TrainOutcome(fs: FileSystem, a: TrainArgs, flairs: seq<string>): Result<TrainCall, Failure> {
    if a.inpDir !in fs.dirs then Err(InvalidInputDir(a.inpDir))
    else if |flairs| == 0 then Err(NoFlairImages(a.inpDir))
    else if a.modelDir !in fs.dirs then Err(InvalidDir(a.modelDir))
    else if a.labelDir !in fs.dirs then Err(InvalidDir(a.labelDir))
    else
      var distances :- DistanceDirsFor(fs, a.lossFunction, a.gmdistDir, a.ventdistDir);
      var subjects :- Manifest(fs, Labelled(a.labelDir, distances), flairs);
      TrainOptions(a, subjects)
  }

  /** The checks of `train` after the manifest is built: they pass exactly when the options are accepted. */
  function TrainOptions(a: TrainArgs, subjects: seq<Subject>): (r: Result<TrainCall, Failure>)
    ensures r.Ok? ==> r.value.subjects == subjects
    ensures r.Ok? <==> Accepted(a.hyper, true) && a.hyper.cpSaveType in SaveTypes
    ensures CheckHyperparameters(a.hyper, true).Some? ==> r == Err(BadOption(CheckHyperparameters(a.hyper, true).value))
    ensures Accepted(a.hyper, true) && a.hyper.cpSaveType !in SaveTypes ==> r == Err(InvalidCpSaveType)
  {
    match CheckHyperparameters(a.hyper, true)
    case Some(f) => Err(BadOption(f))
    case None =>
      if a.hyper.cpSaveType !in SaveTypes then Err(InvalidCpSaveType)
      else Ok(TrainCall(subjects, a.lossFunction == Weighted, SaveWeights(a.saveFullModel), a.hyper.cpSaveType, a.modelDir))
  }

  /** `train`: raise on the first failed check, else hand the manifest over. */
  method Train(fs: FileSystem, a: TrainArgs, flairs: seq<string>) returns (r: Result<TrainCall, Failure>)
    ensures r == TrainOutcome(fs, a, flairs)
  {
    if a.inpDir !in fs.dirs {
      return Err(InvalidInputDir(a.inpDir));
    }
    if |flairs| == 0 {
      return Err(NoFlairImages(a.inpDir));
    }
    if a.modelDir !in fs.dirs {
      return Err(InvalidDir(a.modelDir));
    }
    if a.labelDir !in fs.dirs {
      return Err(InvalidDir(a.labelDir));
    }
    var distances :- DistanceDirsFor(fs, a.lossFunction, a.gmdistDir, a.ventdistDir);
    var subjects :- BuildManifest(fs, Labelled(a.labelDir, distances), flairs);
    var failure := CheckHyperparameters(a.hyper, true);
    if failure.Some? {
      return Err(BadOption(failure.value));
    }
    var saveWeights := SaveWeights(a.saveFullModel);
    if a.hyper.cpSaveType !in SaveTypes {
      return Err(InvalidCpSaveType);
    }
    return Ok(TrainCall(subjects, a.lossFunction == Weighted, saveWeights, a.hyper.cpSaveType, a.modelDir));
  }

  /** Everything `train` demands, as one condition. */
  predicate TrainAccepted(fs: FileSystem, a: TrainArgs, flairs: seq<string>) {
    && a.inpDir in fs.dirs
    && |flairs| > 0
    && a.modelDir in fs.dirs
    && a.labelDir in fs.dirs
    && DistanceDirsGiven(fs, a.lossFunction, a.gmdistDir, a.ventdistDir)
    && (forall i :: 0 <= i < |flairs| ==>
          Resolvable(fs, TrainingNeeds(a.labelDir, a.lossFunction, a.gmdistDir, a.ventdistDir), flairs[i]))
    && Accepted(a.hyper, true)
    && a.hyper.cpSaveType in SaveTypes
  }

  /** `train` reaches the training engine exactly when all its demands are met. */
  lemma TrainAcceptance(fs: FileSystem, a: TrainArgs, flairs: seq<string>)
    ensures TrainOutcome(fs, a, flairs).Ok? <==> TrainAccepted(fs, a, flairs)
  {
    var distances := DistanceDirsFor(fs, a.lossFunction, a.gmdistDir, a.ventdistDir);
    if distances.Ok? {
      ManifestBuilt(fs, Labelled(a.labelDir, distances.value), flairs);
    }
  }

  /**
   * The records that reach the training engine: one labelled record per
   * FLAIR path in order, with distance maps exactly under the weighted loss, each file picked by the
   * resolution rule.
   */
  lemma TrainRecords(fs: FileSystem, a: TrainArgs, flairs: seq<string>, c: TrainCall)
    requires TrainOutcome(fs, a, flairs) == Ok(c)
    ensures |flairs| > 0
    ensures LabelledRecords(fs, a.labelDir, TrainingNeeds(a.labelDir, a.lossFunction, a.gmdistDir, a.ventdistDir).distances,
                            flairs, c.subjects)
    ensures c.weighted <==> a.lossFunction == Weighted
  {
    var distances := DistanceDirsFor(fs, a.lossFunction, a.gmdistDir, a.ventdistDir);
    assert distances.Ok?;
    var manifest := Manifest(fs, Labelled(a.labelDir, distances.value), flairs);
    assert manifest.Ok?;
    assert TrainOutcome(fs, a, flairs) == TrainOptions(a, manifest.value);
    assert c.weighted == distances.value.Some?;
    DistanceDirsNeeds(fs, a.labelDir, a.lossFunction, a.gmdistDir, a.ventdistDir);
    LabelledManifestShape(fs, a.labelDir, distances.value, flairs, c.subjects);
  }

  /**
   * The rest of the call: hyperparameters in range, the derived flags, and
   * the model directory as the checkpoint directory.
   */
  lemma TrainCallShape(fs: FileSystem, a: TrainArgs, flairs: seq<string>, c: TrainCall)
    requires TrainOutcome(fs, a, flairs) == Ok(c)
    ensures a.hyper.batchSize >= 1 && a.hyper.numEpochs >= 1 && a.hyper.batchFactor >= 1
      && a.hyper.augFactor >= 1 && a.hyper.numClasses >= 1
    ensures 1 <= a.hyper.earlyStopVal <= a.hyper.numEpochs
    ensures a.hyper.cpSaveType == EveryN ==> a.hyper.cpEveryN.Some? && 1 <= a.hyper.cpEveryN.value <= a.hyper.numEpochs
    ensures a.hyper.optimizer in Optimizers && a.hyper.acqPlane in AcqPlanes
    ensures c.saveCase == a.hyper.cpSaveType && c.saveCase in SaveTypes
    ensures !c.saveWeights <==> a.saveFullModel == "True"
    ensures c.checkpointDir == a.modelDir && c.checkpointDir in fs.dirs
  {
  }

  /** The directory checks pass and the FLAIR list is not empty. */
  predicate TrainDirsExist(fs: FileSystem, a: TrainArgs, flairs: seq<string>) {
    a.inpDir in fs.dirs && |flairs| > 0 && a.modelDir in fs.dirs && a.labelDir in fs.dirs
  }

  /**
   * The error `train` raises for each check before its options, once the
   * checks before it have passed: the directories and the FLAIR list, the
   * distance directories, and the first subject with a missing file. After
   * that the outcome is TrainOptions on the manifest.
   */
  lemma TrainErrors(fs: FileSystem, a: TrainArgs, flairs: seq<string>)
    ensures a.inpDir !in fs.dirs ==> TrainOutcome(fs, a, flairs) == Err(InvalidInputDir(a.inpDir))
    ensures a.inpDir in fs.dirs && |flairs| == 0 ==> TrainOutcome(fs, a, flairs) == Err(NoFlairImages(a.inpDir))
    ensures a.inpDir in fs.dirs && |flairs| > 0 && a.modelDir !in fs.dirs ==>
      TrainOutcome(fs, a, flairs) == Err(InvalidDir(a.modelDir))
    ensures a.inpDir in fs.dirs && |flairs| > 0 && a.modelDir in fs.dirs && a.labelDir !in fs.dirs ==>
      TrainOutcome(fs, a, flairs) == Err(InvalidDir(a.labelDir))
    ensures TrainDirsExist(fs, a, flairs) && !DistanceDirsGiven(fs, a.lossFunction, a.gmdistDir, a.ventdistDir) ==>
      TrainOutcome(fs, a, flairs) == Err(DistanceDirsFor(fs, a.lossFunction, a.gmdistDir, a.ventdistDir).error)
    ensures var manifest := Manifest(fs, TrainingNeeds(a.labelDir, a.lossFunction, a.gmdistDir, a.ventdistDir), flairs);
      TrainDirsExist(fs, a, flairs) && DistanceDirsGiven(fs, a.lossFunction, a.gmdistDir, a.ventdistDir) ==>
        && (manifest.Err? ==> TrainOutcome(fs, a, flairs) == Err(manifest.error))
        && (manifest.Ok? ==> TrainOutcome(fs, a, flairs) == TrainOptions(a, manifest.value))
  {
    if TrainDirsExist(fs, a, flairs) && DistanceDirsGiven(fs, a.lossFunction, a.gmdistDir, a.ventdistDir) {
      DistanceDirsNeeds(fs, a.labelDir, a.lossFunction, a.gmdistDir, a.ventdistDir);
    }
  }

  /**
   * A hyperparameter error is raised only once every subject has resolved,
   * and it names the first check of the chain that fails.
   */
  lemma TrainOptionError(fs: FileSystem, a: TrainArgs, flairs: seq<string>, f: OptionFailure)
    requires TrainOutcome(fs, a, flairs) == Err(BadOption(f))
    ensures forall i :: 0 <= i < |flairs| ==>
      Resolvable(fs, TrainingNeeds(a.labelDir, a.lossFunction, a.gmdistDir, a.ventdistDir), flairs[i])
    ensures Violates(a.hyper, true, f)
    ensures forall g :: Rank(g) < Rank(f) ==> !Violates(a.hyper, true, g)
  {
    var distances := DistanceDirsFor(fs, a.lossFunction, a.gmdistDir, a.ventdistDir);
    assert distances.Ok?;
    var needs := Labelled(a.labelDir, distances.value);
    if Manifest(fs, needs, flairs).Err? {
      ManifestFirstFailure(fs, needs, flairs);
    }
    ManifestBuilt(fs, needs, flairs);
    assert CheckHyperparameters(a.hyper, true) == Some(f);
    EarlierChecksPass(a.hyper, true, f);
  }

  /**
   * The exceptions of `train`: a TypeError only for a missing `-cp_n` under
   * `everyN` saving, and a ValueError otherwise.
   */
  lemma TrainErrorKind(fs: FileSystem, a: TrainArgs, flairs: seq<string>)
    requires TrainOutcome(fs, a, flairs).Err?
    ensures Kind(TrainOutcome(fs, a, flairs).error) != RuntimeError
    ensures Kind(TrainOutcome(fs, a, flairs).error) == TypeError ==>
      a.hyper.cpSaveType == EveryN && a.hyper.cpEveryN.None?
  {
    var r := TrainOutcome(fs, a, flairs);
    if a.inpDir in fs.dirs && |flairs| > 0 && a.modelDir in fs.dirs && a.labelDir in fs.dirs {
      var distances := DistanceDirsFor(fs, a.lossFunction, a.gmdistDir, a.ventdistDir);
      if distances.Err? {
        assert r == Err(distances.error);
      } else {
        var manifest := Manifest(fs, Labelled(a.labelDir, distances.value), flairs);
        if manifest.Err? {
          ManifestFirstFailure(fs, Labelled(a.labelDir, distances.value), flairs);
          assert r == Err(manifest.error);
        } else {
          assert r == TrainOptions(a, manifest.value);
          if CheckHyperparameters(a.hyper, true).Some? {
            var f := CheckHyperparameters(a.hyper, true).value;
            assert r == Err(BadOption(f)) && Violates(a.hyper, true, f);
          }
        }
      }
    }
  }
}
