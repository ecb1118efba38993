/** The `evaluate` sub-command up to its hand-off to the testing engine. */
module EvaluateCommand {
  import opened Wrappers
  import opened Paths
  import opened Options
  import opened Failures
  import opened SubjectManifest
  import opened Common

  datatype EvaluateArgs = EvaluateArgs(
    inpDir: string,
    outputDir: string,
    numClasses: int,
    pretrainedModel: string,
    pretrainedModelName: string,
    modelName: string,
    cpLoadType: string,
    cpEveryN: Option<int>)

  /** What `evaluate` passes to the testing engine. */
  datatype EvaluateCall = EvaluateCall(
    subjects: seq<Subject>,
    numClasses: int,
    everyN: Option<int>,
    model: ModelChoice,
    loadCase: string,
    outputDir: string)

  const Specific: string := "specific"

  /** The load case the engine sees: `specific` is renamed `everyN` before the call. */
  function LoadCase(cpLoadType: string): string {
    if cpLoadType == Specific then EveryN else cpLoadType
  }

  /** The checks of `evaluate` in the source's order, and the call they lead to. */
  function EvaluateOutcome(host: Host, a: EvaluateArgs, flairs: seq<string>): Result<EvaluateCall, Failure> {
    if a.inpDir !in host.fs.dirs then Err(InvalidInputDir(a.inpDir))
    else if |flairs| == 0 then Err(NoFlairImages(a.inpDir))
    else if a.outputDir !in host.fs.dirs then Err(InvalidDir(a.outputDir))
    else
      var subjects :- Manifest(host.fs, ImagesOnly, flairs);
      if a.numClasses < 1 then Err(BadOption(NumClassesTooSmall))
      else
        var model :- LocateModel(host, a.pretrainedModel, a.pretrainedModelName, a.modelName);
        if a.cpLoadType !in LoadTypes then Err(InvalidCpLoadType)
        else if a.cpLoadType == Specific && a.cpEveryN.None? then Err(CpNRequiredForSpecific)
        else Ok(EvaluateCall(subjects, a.numClasses, a.cpEveryN, model, LoadCase(a.cpLoadType), a.outputDir))
  }

  /** `evaluate`: raise on the first failed check, else hand the manifest over. */
  method Evaluate(host: Host, a: EvaluateArgs, flairs: seq<string>) returns (r: Result<EvaluateCall, Failure>)
    ensures r == EvaluateOutcome(host, a, flairs)
  {
    if a.inpDir !in host.fs.dirs {
      return Err(InvalidInputDir(a.inpDir));
    }
    if |flairs| == 0 {
      return Err(NoFlairImages(a.inpDir));
    }
    if a.outputDir !in host.fs.dirs {
      return Err(InvalidDir(a.outputDir));
    }
    var subjects :- BuildManifest(host.fs, ImagesOnly, flairs);
    if a.numClasses < 1 {
      return Err(BadOption(NumClassesTooSmall));
    }
    var model :- LocateModel(host, a.pretrainedModel, a.pretrainedModelName, a.modelName);
    if a.cpLoadType !in LoadTypes {
      return Err(InvalidCpLoadType);
    }
    var loadCase := a.cpLoadType;
    if loadCase == Specific {
      loadCase := EveryN;
      if a.cpEveryN.None? {
        return Err(CpNRequiredForSpecific);
      }
    }
    return Ok(EvaluateCall(subjects, a.numClasses, a.cpEveryN, model, loadCase, a.outputDir));
  }

  /** Everything `evaluate` demands, as one condition. */
  predicate EvaluateAccepted(host: Host, a: EvaluateArgs, flairs: seq<string>) {
    && a.inpDir in host.fs.dirs
    && |flairs| > 0
    && a.outputDir in host.fs.dirs
    && (forall i :: 0 <= i < |flairs| ==> Resolvable(host.fs, ImagesOnly, flairs[i]))
    && a.numClasses >= 1
    && ModelAvailable(host, a.pretrainedModel, a.pretrainedModelName, a.modelName)
    && a.cpLoadType in LoadTypes
    && (a.cpLoadType == Specific ==> a.cpEveryN.Some?)
  }

  /** `evaluate` reaches the testing engine exactly when all its demands are met. */
  lemma EvaluateAcceptance(host: Host, a: EvaluateArgs, flairs: seq<string>)
    ensures EvaluateOutcome(host, a, flairs).Ok? <==> EvaluateAccepted(host, a, flairs)
  {
    ManifestBuilt(host.fs, ImagesOnly, flairs);
  }

  /** The directory checks pass, the FLAIR list is not empty and every T1 image resolves. */
  predicate EvaluateInputsExist(host: Host, a: EvaluateArgs, flairs: seq<string>) {
    && a.inpDir in host.fs.dirs && |flairs| > 0 && a.outputDir in host.fs.dirs
    && Manifest(host.fs, ImagesOnly, flairs).Ok?
  }

  /**
   * The error `evaluate` raises for each of its checks, once the checks
   * before it have passed: the directories and the FLAIR list, the first
   * subject without a T1 image, the number of classes, the model lookup, the
   * load type, and the epoch a `specific` load needs.
   */
  lemma EvaluateErrors(host: Host, a: EvaluateArgs, flairs: seq<string>)
    ensures a.inpDir !in host.fs.dirs ==> EvaluateOutcome(host, a, flairs) == Err(InvalidInputDir(a.inpDir))
    ensures a.inpDir in host.fs.dirs && |flairs| == 0 ==> EvaluateOutcome(host, a, flairs) == Err(NoFlairImages(a.inpDir))
    ensures a.inpDir in host.fs.dirs && |flairs| > 0 && a.outputDir !in host.fs.dirs ==>
      EvaluateOutcome(host, a, flairs) == Err(InvalidDir(a.outputDir))
    ensures (a.inpDir in host.fs.dirs && |flairs| > 0 && a.outputDir in host.fs.dirs
             && Manifest(host.fs, ImagesOnly, flairs).Err?)
      ==> EvaluateOutcome(host, a, flairs) == Err(Manifest(host.fs, ImagesOnly, flairs).error)
    ensures EvaluateInputsExist(host, a, flairs) && a.numClasses < 1 ==>
      EvaluateOutcome(host, a, flairs) == Err(BadOption(NumClassesTooSmall))
    ensures (EvaluateInputsExist(host, a, flairs) && a.numClasses >= 1
             && !ModelAvailable(host, a.pretrainedModel, a.pretrainedModelName, a.modelName))
      ==> EvaluateOutcome(host, a, flairs) == Err(LocateModel(host, a.pretrainedModel, a.pretrainedModelName, a.modelName).error)
    ensures (EvaluateInputsExist(host, a, flairs) && a.numClasses >= 1
             && ModelAvailable(host, a.pretrainedModel, a.pretrainedModelName, a.modelName)
             && a.cpLoadType !in LoadTypes)
      ==> EvaluateOutcome(host, a, flairs) == Err(InvalidCpLoadType)
    ensures (EvaluateInputsExist(host, a, flairs) && a.numClasses >= 1
             && ModelAvailable(host, a.pretrainedModel, a.pretrainedModelName, a.modelName)
             && a.cpLoadType == Specific && a.cpEveryN.None?)
      ==> EvaluateOutcome(host, a, flairs) == Err(CpNRequiredForSpecific)
  {
  }

  /**
   * The records that reach the testing engine: one unlabelled record per
   * FLAIR path in order, with no `gt_path` key and no distance maps.
   */
  lemma EvaluateRecords(host: Host, a: EvaluateArgs, flairs: seq<string>, c: EvaluateCall)
    requires EvaluateOutcome(host, a, flairs) == Ok(c)
    ensures |c.subjects| == |flairs| > 0
    ensures forall i :: 0 <= i < |flairs| ==>
      && c.subjects[i].flairPath == flairs[i]
      && c.subjects[i].basename == SubjectName(flairs[i])
      && ResolvedAs(host.fs, Some(c.subjects[i].t1Path), T1Gz(flairs[i]), T1Nii(flairs[i]))
      && Keys(c.subjects[i]) == {"flair_path", "t1_path", "gmdist_path", "ventdist_path", "basename"}
      && c.subjects[i].gmdistPath.None? && c.subjects[i].ventdistPath.None?
  {
    ManifestShape(host.fs, ImagesOnly, flairs, c.subjects);
  }

  /**
   * The rest of the call: the number of classes and `-cp_n` as given, the
   * model that was found, and the load type as given except that `specific`
   * becomes `everyN`, which then comes with the epoch.
   */
  lemma EvaluateCallShape(host: Host, a: EvaluateArgs, flairs: seq<string>, c: EvaluateCall)
    requires EvaluateOutcome(host, a, flairs) == Ok(c)
    ensures c.numClasses == a.numClasses && c.numClasses >= 1
    ensures c.everyN == a.cpEveryN
    ensures c.loadCase in {"best", "last", EveryN}
    ensures a.cpLoadType != Specific ==> c.loadCase == a.cpLoadType
    ensures c.loadCase == EveryN <==> a.cpLoadType == Specific
    ensures c.loadCase == EveryN ==> c.everyN.Some?
    ensures c.model.Pretrained? <==> a.pretrainedModel == "True"
    ensures c.model.Pretrained? ==> c.model.name == a.pretrainedModelName && c.model.name in PretrainedNames
    ensures c.model.Custom? ==> c.model.name == AfterLast(a.modelName, Sep) && c.model.dir == DirName(a.modelName)
    ensures c.outputDir == a.outputDir && c.outputDir in host.fs.dirs
  {
  }

  /**
   * The only exception `evaluate` raises that is not a ValueError is the
   * RuntimeError of a pretrained model whose data cannot be found, raised
   * exactly when every check before the model lookup has passed.
   */
  lemma EvaluateErrorKind(host: Host, a: EvaluateArgs, flairs: seq<string>)
    requires EvaluateOutcome(host, a, flairs).Err?
    ensures Kind(EvaluateOutcome(host, a, flairs).error) != TypeError
    ensures Kind(EvaluateOutcome(host, a, flairs).error) == RuntimeError <==>
      && a.inpDir in host.fs.dirs
      && |flairs| > 0
      && a.outputDir in host.fs.dirs
      && (forall i :: 0 <= i < |flairs| ==> Resolvable(host.fs, ImagesOnly, flairs[i]))
      && a.numClasses >= 1
      && PretrainedDataAbsent(host, a.pretrainedModel, a.pretrainedModelName)
  {
    ManifestBuilt(host.fs, ImagesOnly, flairs);
    if Manifest(host.fs, ImagesOnly, flairs).Err? {
      ManifestFirstFailure(host.fs, ImagesOnly, flairs);
    }
  }
}
