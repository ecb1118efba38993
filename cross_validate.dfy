/** The `cross_validate` sub-command up to its hand-off to the cross-validation engine. */
module CrossValidateCommand {
  import opened Wrappers
  import opened Paths
  import opened Options
  import opened Failures
  import opened SubjectManifest
  import opened Common

  datatype CrossValidateArgs = CrossValidateArgs(
    inpDir: string,
    outputDir: string,
    labelDir: string,
    cvFold: int,
    resumeFromFold: int,
    lossFunction: string,
    gmdistDir: Option<string>,
    ventdistDir: Option<string>,
    hyper: Hyperparameters,
    saveFullModel: string,
    saveCheckpoint: bool)

  /** What `cross_validate` passes to the cross-validation engine besides the parameter dictionary. */
  datatype CrossValidateCall = CrossValidateCall(
    subjects: seq<Subject>,
    folds: int,
    resumeFold: int,
    weighted: bool,
    saveCheckpoint: bool,
    saveWeights: bool,
    saveCase: string,
    outputDir: string)

  /** The checks of `cross_validate` in the source's order, and the call they lead to. */
  function CrossValidateOutcome(fs: FileSystem, a: CrossValidateArgs, flairs: seq<string>): Result<CrossValidateCall, Failure> {
    if a.inpDir !in fs.dirs then Err(InvalidInputDir(a.inpDir))
    else if |flairs| == 0 then Err(NoFlairImages(a.inpDir))
    else if a.outputDir !in fs.dirs then Err(InvalidDir(a.outputDir))
    else if a.labelDir !in fs.dirs then Err(InvalidDir(a.labelDir))
    else if a.cvFold < 1 then Err(FoldNotPositive)
    else if a.resumeFromFold < 1 then Err(ResumeFoldNotPositive)
    else
      var distances :- DistanceDirsFor(fs, a.lossFunction, a.gmdistDir, a.ventdistDir);
      var subjects :- Manifest(fs, Labelled(a.labelDir, distances), flairs);
      CrossValidateOptions(a, subjects)
  }

  /**
   * The checks of `cross_validate` after the manifest is built. The range
   * check of `-cp_n` is commented out in this command, so a missing N is
   * caught by the explicit guard at the end instead.
   */
  function CrossValidateOptions(a: CrossValidateArgs, subjects: seq<Subject>): (r: Result<CrossValidateCall, Failure>)
    ensures r.Ok? ==> r.value.subjects == subjects
    ensures r.Ok? <==>
      && Accepted(a.hyper, false)
      && a.resumeFromFold <= a.cvFold <= |subjects|
      && a.hyper.cpSaveType in SaveTypes
      && (a.hyper.cpSaveType == EveryN ==> a.hyper.cpEveryN.Some?)
    ensures CheckHyperparameters(a.hyper, false).Some? ==>
      r == Err(BadOption(CheckHyperparameters(a.hyper, false).value))
    ensures Accepted(a.hyper, false) && |subjects| < a.cvFold ==> r == Err(MoreFoldsThanSubjects)
    ensures Accepted(a.hyper, false) && a.cvFold <= |subjects| && a.resumeFromFold > a.cvFold ==>
      r == Err(ResumeFoldAboveFolds)
    ensures (Accepted(a.hyper, false) && a.resumeFromFold <= a.cvFold <= |subjects|
             && a.hyper.cpSaveType !in SaveTypes)
      ==> r == Err(InvalidCpSaveType)
    ensures (Accepted(a.hyper, false) && a.resumeFromFold <= a.cvFold <= |subjects|
             && a.hyper.cpSaveType == EveryN && a.hyper.cpEveryN.None?)
      ==> r == Err(CpNRequiredForEveryN)
  {
    match CheckHyperparameters(a.hyper, false)
    case Some(f) => Err(BadOption(f))
    case None =>
      if |subjects| < a.cvFold then Err(MoreFoldsThanSubjects)
      else if a.resumeFromFold > a.cvFold then Err(ResumeFoldAboveFolds)
      else if a.hyper.cpSaveType !in SaveTypes then Err(InvalidCpSaveType)
      else if a.hyper.cpSaveType == EveryN && a.hyper.cpEveryN.None? then Err(CpNRequiredForEveryN)
      else Ok(CrossValidateCall(subjects, a.cvFold, a.resumeFromFold, a.lossFunction == Weighted,
                                a.saveCheckpoint, SaveWeights(a.saveFullModel), a.hyper.cpSaveType, a.outputDir))
  }

  /** `cross_validate`: raise on the first failed check, else hand the manifest over. */
  method CrossValidate(fs: FileSystem, a: CrossValidateArgs, flairs: seq<string>) returns (r: Result<CrossValidateCall, Failure>)
    ensures r == CrossValidateOutcome(fs, a, flairs)
  {
    if a.inpDir !in fs.dirs {
      return Err(InvalidInputDir(a.inpDir));
    }
    if |flairs| == 0 {
      return Err(NoFlairImages(a.inpDir));
    }
    if a.outputDir !in fs.dirs {
      return Err(InvalidDir(a.outputDir));
    }
    if a.labelDir !in fs.dirs {
      return Err(InvalidDir(a.labelDir));
    }
    if a.cvFold < 1 {
      return Err(FoldNotPositive);
    }
    if a.resumeFromFold < 1 {
      return Err(ResumeFoldNotPositive);
    }
    var distances :- DistanceDirsFor(fs, a.lossFunction, a.gmdistDir, a.ventdistDir);
    var subjects :- BuildManifest(fs, Labelled(a.labelDir, distances), flairs);
    var failure := CheckHyperparameters(a.hyper, false);
    if failure.Some? {
      return Err(BadOption(failure.value));
    }
    if |subjects| < a.cvFold {
      return Err(MoreFoldsThanSubjects);
    }
    if a.resumeFromFold > a.cvFold {
      return Err(ResumeFoldAboveFolds);
    }
    var saveWeights := SaveWeights(a.saveFullModel);
    if a.hyper.cpSaveType !in SaveTypes {
      return Err(InvalidCpSaveType);
    }
    if a.hyper.cpSaveType == EveryN && a.hyper.cpEveryN.None? {
      return Err(CpNRequiredForEveryN);
    }
    return Ok(CrossValidateCall(subjects, a.cvFold, a.resumeFromFold, a.lossFunction == Weighted,
                                a.saveCheckpoint, saveWeights, a.hyper.cpSaveType, a.outputDir));
  }

  /** Everything `cross_validate` demands, as one condition. */
  predicate CrossValidateAccepted(fs: FileSystem, a: CrossValidateArgs, flairs: seq<string>) {
    && a.inpDir in fs.dirs
    && |flairs| > 0
    && a.outputDir in fs.dirs
    && a.labelDir in fs.dirs
    && 1 <= a.resumeFromFold <= a.cvFold <= |flairs|
    && DistanceDirsGiven(fs, a.lossFunction, a.gmdistDir, a.ventdistDir)
    && (forall i :: 0 <= i < |flairs| ==>
          Resolvable(fs, TrainingNeeds(a.labelDir, a.lossFunction, a.gmdistDir, a.ventdistDir), flairs[i]))
    && Accepted(a.hyper, false)
    && a.hyper.cpSaveType in SaveTypes
    && (a.hyper.cpSaveType == EveryN ==> a.hyper.cpEveryN.Some?)
  }

  /** `cross_validate` reaches the cross-validation engine exactly when all its demands are met. */
  lemma CrossValidateAcceptance(fs: FileSystem, a: CrossValidateArgs, flairs: seq<string>)
    ensures CrossValidateOutcome(fs, a, flairs).Ok? <==> CrossValidateAccepted(fs, a, flairs)
  {
    var distances := DistanceDirsFor(fs, a.lossFunction, a.gmdistDir, a.ventdistDir);
    if a.inpDir in fs.dirs && |flairs| > 0 && a.outputDir in fs.dirs && a.labelDir in fs.dirs
       && a.cvFold >= 1 && a.resumeFromFold >= 1 && distances.Ok? {
      var needs := Labelled(a.labelDir, distances.value);
      ManifestBuilt(fs, needs, flairs);
      var manifest := Manifest(fs, needs, flairs);
      if manifest.Ok? {
        ManifestShape(fs, needs, flairs, manifest.value);
        assert CrossValidateOutcome(fs, a, flairs) == CrossValidateOptions(a, manifest.value);
      }
    }
  }

  /** The directory and fold checks pass and the FLAIR list is not empty. */
  predicate CrossValidateDirsExist(fs: FileSystem, a: CrossValidateArgs, flairs: seq<string>) {
    && a.inpDir in fs.dirs && |flairs| > 0 && a.outputDir in fs.dirs && a.labelDir in fs.dirs
    && a.cvFold >= 1 && a.resumeFromFold >= 1
  }

  /**
   * The error `cross_validate` raises for each check before its options,
   * once the checks before it have passed: the directories and the FLAIR
   * list, the two fold counts, the distance directories, and the first
   * subject with a missing file. After that the outcome is
   * CrossValidateOptions on the manifest.
   */
  lemma CrossValidateErrors(fs: FileSystem, a: CrossValidateArgs, flairs: seq<string>)
    ensures a.inpDir !in fs.dirs ==> CrossValidateOutcome(fs, a, flairs) == Err(InvalidInputDir(a.inpDir))
    ensures a.inpDir in fs.dirs && |flairs| == 0 ==> CrossValidateOutcome(fs, a, flairs) == Err(NoFlairImages(a.inpDir))
    ensures a.inpDir in fs.dirs && |flairs| > 0 && a.outputDir !in fs.dirs ==>
      CrossValidateOutcome(fs, a, flairs) == Err(InvalidDir(a.outputDir))
    ensures a.inpDir in fs.dirs && |flairs| > 0 && a.outputDir in fs.dirs && a.labelDir !in fs.dirs ==>
      CrossValidateOutcome(fs, a, flairs) == Err(InvalidDir(a.labelDir))
    ensures (a.inpDir in fs.dirs && |flairs| > 0 && a.outputDir in fs.dirs && a.labelDir in fs.dirs
             && a.cvFold < 1)
      ==> CrossValidateOutcome(fs, a, flairs) == Err(FoldNotPositive)
    ensures (a.inpDir in fs.dirs && |flairs| > 0 && a.outputDir in fs.dirs && a.labelDir in fs.dirs
             && a.cvFold >= 1 && a.resumeFromFold < 1)
      ==> CrossValidateOutcome(fs, a, flairs) == Err(ResumeFoldNotPositive)
    ensures CrossValidateDirsExist(fs, a, flairs) && !DistanceDirsGiven(fs, a.lossFunction, a.gmdistDir, a.ventdistDir) ==>
      CrossValidateOutcome(fs, a, flairs) == Err(DistanceDirsFor(fs, a.lossFunction, a.gmdistDir, a.ventdistDir).error)
    ensures var manifest := Manifest(fs, TrainingNeeds(a.labelDir, a.lossFunction, a.gmdistDir, a.ventdistDir), flairs);
      CrossValidateDirsExist(fs, a, flairs) && DistanceDirsGiven(fs, a.lossFunction, a.gmdistDir, a.ventdistDir) ==>
        && (manifest.Err? ==> CrossValidateOutcome(fs, a, flairs) == Err(manifest.error))
        && (manifest.Ok? ==> CrossValidateOutcome(fs, a, flairs) == CrossValidateOptions(a, manifest.value))
  {
    if CrossValidateDirsExist(fs, a, flairs) && DistanceDirsGiven(fs, a.lossFunction, a.gmdistDir, a.ventdistDir) {
      DistanceDirsNeeds(fs, a.labelDir, a.lossFunction, a.gmdistDir, a.ventdistDir);
    }
  }

  /**
   * The records that reach the cross-validation engine: one labelled record
   * per FLAIR path in order, with distance maps exactly under the weighted loss, each file picked by the
   * resolution rule.
   */
  lemma CrossValidateRecords(fs: FileSystem, a: CrossValidateArgs, flairs: seq<string>, c: CrossValidateCall)
    requires CrossValidateOutcome(fs, a, flairs) == Ok(c)
    ensures |flairs| > 0
    ensures LabelledRecords(fs, a.labelDir, TrainingNeeds(a.labelDir, a.lossFunction, a.gmdistDir, a.ventdistDir).distances,
                            flairs, c.subjects)
    ensures c.weighted <==> a.lossFunction == Weighted
  {
    var distances := DistanceDirsFor(fs, a.lossFunction, a.gmdistDir, a.ventdistDir);
    assert distances.Ok?;
    var manifest := Manifest(fs, Labelled(a.labelDir, distances.value), flairs);
    assert manifest.Ok?;
    assert CrossValidateOutcome(fs, a, flairs) == CrossValidateOptions(a, manifest.value);
    assert c.weighted == distances.value.Some?;
    DistanceDirsNeeds(fs, a.labelDir, a.lossFunction, a.gmdistDir, a.ventdistDir);
    LabelledManifestShape(fs, a.labelDir, distances.value, flairs, c.subjects);
  }

  /**
   * The folds handed over are consistent: at least one, no more than there
   * are subjects, and the fold to resume from is one of them.
   */
  lemma CrossValidateFolds(fs: FileSystem, a: CrossValidateArgs, flairs: seq<string>, c: CrossValidateCall)
    requires CrossValidateOutcome(fs, a, flairs) == Ok(c)
    ensures 1 <= c.resumeFold <= c.folds <= |c.subjects|
    ensures c.folds == a.cvFold && c.resumeFold == a.resumeFromFold
  {
    var distances := DistanceDirsFor(fs, a.lossFunction, a.gmdistDir, a.ventdistDir);
    assert distances.Ok?;
    var manifest := Manifest(fs, Labelled(a.labelDir, distances.value), flairs);
    assert manifest.Ok?;
    assert CrossValidateOutcome(fs, a, flairs) == CrossValidateOptions(a, manifest.value);
  }

  /**
   * The rest of the call: hyperparameters in range except the unchecked
   * `-cp_n`, which is only known to be given under `everyN` saving, the
   * derived flags, and the output directory as the checkpoint directory.
   */
  lemma CrossValidateCallShape(fs: FileSystem, a: CrossValidateArgs, flairs: seq<string>, c: CrossValidateCall)
    requires CrossValidateOutcome(fs, a, flairs) == Ok(c)
    ensures a.hyper.batchSize >= 1 && a.hyper.numEpochs >= 1 && a.hyper.batchFactor >= 1
      && a.hyper.augFactor >= 1 && a.hyper.numClasses >= 1
    ensures 1 <= a.hyper.earlyStopVal <= a.hyper.numEpochs
    ensures a.hyper.cpSaveType == EveryN ==> a.hyper.cpEveryN.Some?
    ensures c.saveCase == a.hyper.cpSaveType && c.saveCase in SaveTypes
    ensures !c.saveWeights <==> a.saveFullModel == "True"
    ensures c.saveCheckpoint == a.saveCheckpoint
    ensures c.outputDir == a.outputDir && c.outputDir in fs.dirs
  {
  }

  /**
   * Unlike `train` and `fine_tune`, `cross_validate` never looks at the
   * value of `-cp_n`: any given N is accepted alike.
   */
  lemma CrossValidateEveryNUnchecked(fs: FileSystem, a: CrossValidateArgs, flairs: seq<string>, n: int)
    requires a.hyper.cpEveryN.Some?
    ensures CrossValidateOutcome(fs, a, flairs).Ok? <==>
      CrossValidateOutcome(fs, a.(hyper := a.hyper.(cpEveryN := Some(n))), flairs).Ok?
  {
    CrossValidateAcceptance(fs, a, flairs);
    CrossValidateAcceptance(fs, a.(hyper := a.hyper.(cpEveryN := Some(n))), flairs);
  }

  /** Every exception `cross_validate` raises is a ValueError. */
  lemma CrossValidateErrorKind(fs: FileSystem, a: CrossValidateArgs, flairs: seq<string>)
    requires CrossValidateOutcome(fs, a, flairs).Err?
    ensures Kind(CrossValidateOutcome(fs, a, flairs).error) == ValueError
  {
    var r := CrossValidateOutcome(fs, a, flairs);
    if a.inpDir in fs.dirs && |flairs| > 0 && a.outputDir in fs.dirs && a.labelDir in fs.dirs
       && a.cvFold >= 1 && a.resumeFromFold >= 1 {
      var distances := DistanceDirsFor(fs, a.lossFunction, a.gmdistDir, a.ventdistDir);
      if distances.Err? {
        assert r == Err(distances.error);
      } else {
        var manifest := Manifest(fs, Labelled(a.labelDir, distances.value), flairs);
        if manifest.Err? {
          ManifestFirstFailure(fs, Labelled(a.labelDir, distances.value), flairs);
          assert r == Err(manifest.error);
        } else {
          assert r == CrossValidateOptions(a, manifest.value);
          if CheckHyperparameters(a.hyper, false).Some? {
            var f := CheckHyperparameters(a.hyper, false).value;
            assert r == Err(BadOption(f)) && Violates(a.hyper, false, f);
          }
        }
      }
    }
  }
}
