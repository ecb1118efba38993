/**
 * The checks the commands share besides the manifest: the distance-map
 * directories required by the weighted loss, and the location of the model
 * that `evaluate` and `fine_tune` start from.
 */
module Common {
  import opened Wrappers
  import opened Paths
  import opened Failures
  import opened SubjectManifest

  const Weighted: string := "weighted"
  const PretrainedNames: set<string> := {"mwsc", "ukbb"}

  /**
   * The environment the commands look at: the file system, the pretrained
   * models installed under `$FSLDIR/data/microbleednet/models/`, and the
   * `microbleednet_PRETRAINED_MODEL_PATH` variable.
   */
  datatype Host = Host(fs: FileSystem, installedModels: set<string>, pretrainedModelPath: Option<string>)

  /** The model a command starts from: a pretrained one by name, or `<dir>/<name>_{axial,sagittal,coronal}.pth`. */
  datatype ModelChoice = Pretrained(name: string) | Custom(dir: string, name: string)

  /**
   * The records a training command hands over: one per FLAIR path in order,
   * each with the T1 image, the manual mask from `labelDir` and, exactly when
   * distance directories are given, the GM and ventricle maps from them, each
   * file picked by the resolution rule (`.nii.gz` before `.nii`).
   */
  predicate LabelledRecords(fs: FileSystem, labelDir: string, distances: Option<DistanceDirs>,
                            flairs: seq<string>, subjects: seq<Subject>) {
    && |subjects| == |flairs|
    && forall i :: 0 <= i < |flairs| ==>
      var name := SubjectName(flairs[i]);
      && subjects[i].flairPath == flairs[i]
      && subjects[i].basename == name
      && ResolvedAs(fs, Some(subjects[i].t1Path), T1Gz(flairs[i]), T1Nii(flairs[i]))
      && "gt_path" in Keys(subjects[i])
      && ResolvedAs(fs, subjects[i].gtPath,
           CompanionGz(labelDir, name, "_manualmask"), CompanionNii(labelDir, name, "_manualmask"))
      && (distances.Some? ==>
            && ResolvedAs(fs, subjects[i].gmdistPath,
                 CompanionGz(distances.value.gmdistDir, name, "_gmdist"),
                 CompanionNii(distances.value.gmdistDir, name, "_gmdist"))
            && ResolvedAs(fs, subjects[i].ventdistPath,
                 CompanionGz(distances.value.ventdistDir, name, "_ventdist"),
                 CompanionNii(distances.value.ventdistDir, name, "_ventdist")))
      && (distances.None? ==> subjects[i].gmdistPath.None? && subjects[i].ventdistPath.None?)
  }

  /** A manifest built for a training command has the shape of `LabelledRecords`. */
  lemma LabelledManifestShape(fs: FileSystem, labelDir: string, distances: Option<DistanceDirs>,
                              flairs: seq<string>, subjects: seq<Subject>)
    requires Manifest(fs, Labelled(labelDir, distances), flairs) == Ok(subjects)
    ensures LabelledRecords(fs, labelDir, distances, flairs, subjects)
  {
    var needs := Labelled(labelDir, distances);
    ManifestShape(fs, needs, flairs, subjects);
    forall i | 0 <= i < |flairs| {
      SubjectCompanions(fs, needs, flairs[i], SubjectFor(fs, needs, flairs[i]));
    }
  }

  /** Under the weighted loss both distance directories are given and are directories. */
  predicate DistanceDirsGiven(fs: FileSystem, lossFunction: string, gmdistDir: Option<string>, ventdistDir: Option<string>) {
    lossFunction == Weighted ==>
      gmdistDir.Some? && gmdistDir.value in fs.dirs && ventdistDir.Some? && ventdistDir.value in fs.dirs
  }

  /** What the training commands resolve per subject: the mask, and the distance maps under the weighted loss. */
  function TrainingNeeds(labelDir: string, lossFunction: string, gmdistDir: Option<string>, ventdistDir: Option<string>): Needs {
    Labelled(labelDir,
      if lossFunction == Weighted && gmdistDir.Some? && ventdistDir.Some?
      then Some(DistanceDirs(gmdistDir.value, ventdistDir.value)) else None)
  }

  /**
   * The `-gdir` and `-vdir` checks: only under the weighted loss, GM before
   * ventricles, "not given" before "not a directory".
   */
  function DistanceDirsFor(fs: FileSystem, lossFunction: string, gmdistDir: Option<string>, ventdistDir: Option<string>)
    : (r: Result<Option<DistanceDirs>, Failure>)
    ensures r.Ok? <==> DistanceDirsGiven(fs, lossFunction, gmdistDir, ventdistDir)
    ensures r == Ok(None) <==> lossFunction != Weighted
    ensures lossFunction == Weighted && r.Ok? ==>
      gmdistDir.Some? && ventdistDir.Some? && r.value == Some(DistanceDirs(gmdistDir.value, ventdistDir.value))
    ensures r == Err(GmDirRequired) <==> lossFunction == Weighted && gmdistDir.None?
    ensures gmdistDir.Some? ==>
      (r == Err(GmDirInvalid(gmdistDir.value)) <==> lossFunction == Weighted && gmdistDir.value !in fs.dirs)
    ensures r == Err(VentDirRequired) <==>
      lossFunction == Weighted && gmdistDir.Some? && gmdistDir.value in fs.dirs && ventdistDir.None?
    ensures ventdistDir.Some? ==>
      (r == Err(VentDirInvalid(ventdistDir.value)) <==>
        lossFunction == Weighted && gmdistDir.Some? && gmdistDir.value in fs.dirs && ventdistDir.value !in fs.dirs)
    ensures r.Err? ==>
      || r.error in {GmDirRequired, VentDirRequired}
      || (gmdistDir.Some? && r.error == GmDirInvalid(gmdistDir.value) && gmdistDir.value !in fs.dirs)
      || (ventdistDir.Some? && r.error == VentDirInvalid(ventdistDir.value) && ventdistDir.value !in fs.dirs)
  {
    if lossFunction == Weighted then
      if gmdistDir.None? then Err(GmDirRequired)
      else if gmdistDir.value !in fs.dirs then Err(GmDirInvalid(gmdistDir.value))
      else if ventdistDir.None? then Err(VentDirRequired)
      else if ventdistDir.value !in fs.dirs then Err(VentDirInvalid(ventdistDir.value))
      else Ok(Some(DistanceDirs(gmdistDir.value, ventdistDir.value)))
    else Ok(None)
  }

  /** When the distance directories pass their checks, a training command resolves exactly `TrainingNeeds`. */
  lemma DistanceDirsNeeds(fs: FileSystem, labelDir: string, lossFunction: string,
                          gmdistDir: Option<string>, ventdistDir: Option<string>)
    requires DistanceDirsGiven(fs, lossFunction, gmdistDir, ventdistDir)
    ensures DistanceDirsFor(fs, lossFunction, gmdistDir, ventdistDir).Ok?
    ensures TrainingNeeds(labelDir, lossFunction, gmdistDir, ventdistDir)
         == Labelled(labelDir, DistanceDirsFor(fs, lossFunction, gmdistDir, ventdistDir).value)
  {
  }

  /** The model files are there: a known pretrained model that can be found, or all three view checkpoints. */
  predicate ModelAvailable(host: Host, pretrainedModel: string, pretrainedModelName: string, modelName: string) {
    if pretrainedModel == "True" then
      pretrainedModelName in PretrainedNames
      && (pretrainedModelName in host.installedModels || host.pretrainedModelPath.Some?)
    else
      && modelName + "_axial.pth" in host.fs.files
      && modelName + "_sagittal.pth" in host.fs.files
      && modelName + "_coronal.pth" in host.fs.files
  }

  /**
   * A known pretrained model is asked for, but it is neither installed under
   * `$FSLDIR` nor exported through `microbleednet_PRETRAINED_MODEL_PATH`.
   */
  predicate PretrainedDataAbsent(host: Host, pretrainedModel: string, pretrainedModelName: string) {
    && pretrainedModel == "True"
    && pretrainedModelName in PretrainedNames
    && pretrainedModelName !in host.installedModels
    && host.pretrainedModelPath.None?
  }

  /** The model lookup of `evaluate` and `fine_tune`. */
  function LocateModel(host: Host, pretrainedModel: string, pretrainedModelName: string, modelName: string)
    : (r: Result<ModelChoice, Failure>)
    ensures r.Ok? <==> ModelAvailable(host, pretrainedModel, pretrainedModelName, modelName)
    ensures r.Ok? ==> (r.value.Pretrained? <==> pretrainedModel == "True")
    ensures r.Ok? && r.value.Pretrained? ==> r.value.name == pretrainedModelName
    ensures r.Ok? && r.value.Custom? ==>
      && r.value.name == AfterLast(modelName, Sep)
      && r.value.dir == DirName(modelName)
      && (r.value.dir == [] <==> Sep !in modelName)
    ensures pretrainedModel == "True" && pretrainedModelName !in PretrainedNames ==> r == Err(InvalidPretrainedName)
    ensures r.Err? ==> r.error in {InvalidPretrainedName, PretrainedDataMissing(pretrainedModelName), InvalidModelFiles(modelName)}
    ensures r == Err(InvalidPretrainedName) <==> pretrainedModel == "True" && pretrainedModelName !in PretrainedNames
    ensures r == Err(PretrainedDataMissing(pretrainedModelName)) <==> PretrainedDataAbsent(host, pretrainedModel, pretrainedModelName)
    ensures r == Err(InvalidModelFiles(modelName)) <==>
      pretrainedModel != "True" && !ModelAvailable(host, pretrainedModel, pretrainedModelName, modelName)
    ensures r.Err? ==> (Kind(r.error) == RuntimeError <==> PretrainedDataAbsent(host, pretrainedModel, pretrainedModelName))
  {
    if pretrainedModel == "True" then
      if pretrainedModelName == "mwsc" || pretrainedModelName == "ukbb" then
        if pretrainedModelName !in host.installedModels && host.pretrainedModelPath.None? then
          Err(PretrainedDataMissing(pretrainedModelName))
        else Ok(Pretrained(pretrainedModelName))
      else Err(InvalidPretrainedName)
    else if || modelName + "_axial.pth" !in host.fs.files
            || modelName + "_sagittal.pth" !in host.fs.files
            || modelName + "_coronal.pth" !in host.fs.files then
      Err(InvalidModelFiles(modelName))
    else
      DirNameShape(modelName);
      Ok(Custom(DirName(modelName), AfterLast(modelName, Sep)))
  }
}
