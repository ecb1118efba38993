/**
 * The per-subject manifest (`subj_name_dicts`) every command builds from its
 * list of `*_FLAIR.nii[.gz]` paths: one record per FLAIR image, with the T1
 * image and, where the command needs them, the manual mask and the two
 * distance maps, each resolved `.nii.gz` first and `.nii` second.
 */
module SubjectManifest {
  import opened Wrappers
  import opened Paths
  import opened Failures

  const FlairMarker: string := "_FLAIR.nii"

  /** The directories of the grey-matter and ventricle distance maps (weighted loss only). */
  datatype DistanceDirs = DistanceDirs(gmdistDir: string, ventdistDir: string)

  /**
   * What a command resolves for each subject besides its T1 image:
   * `evaluate` needs nothing more; the training commands need the manual
   * mask from `labelDir` and, with the weighted loss, both distance maps.
   */
  datatype Needs = ImagesOnly | Labelled(labelDir: string, distances: Option<DistanceDirs>)

  /**
   * One manifest record. `gtPath == None` stands for a record without a
   * `gt_path` key (those `evaluate` builds); the distance paths are `None`
   * when the key holds Python's None.
   */
  datatype Subject = Subject(
    flairPath: string,
    t1Path: string,
    gtPath: Option<string>,
    gmdistPath: Option<string>,
    ventdistPath: Option<string>,
    basename: string)

  /** The keys of the record's dictionary. */
  function Keys(s: Subject): set<string> {
    {"flair_path", "t1_path", "gmdist_path", "ventdist_path", "basename"}
    + (if s.gtPath.Some? then {"gt_path"} else {})
  }

  /** `flair.split("_FLAIR.nii")[0]`. */
  function BasePath(flair: string): string {
    BeforeFirst(flair, FlairMarker)
  }

  /** `basepath.split(os.sep)[-1]`: the subject's name. */
  function SubjectName(flair: string): string {
    AfterLast(BasePath(flair), Sep)
  }

  function T1Gz(flair: string): string { BasePath(flair) + "_T1.nii.gz" }
  function T1Nii(flair: string): string { BasePath(flair) + "_T1.nii" }

  /** The companion candidates `<dir>/<name><role>.nii.gz` and `<dir>/<name><role>.nii`. */
  function CompanionGz(dir: string, name: string, role: string): string { Join(dir, name + role + ".nii.gz") }
  function CompanionNii(dir: string, name: string, role: string): string { Join(dir, name + role + ".nii") }

  /** The resolution rule: the preferred path if it is a file, else the fallback if it is a file, else nothing. */
  function Prefer(fs: FileSystem, preferred: string, fallback: string): Option<string> {
    if preferred in fs.files then Some(preferred)
    else if fallback in fs.files then Some(fallback)
    else None
  }

  function Companion(fs: FileSystem, dir: string, name: string, role: string): Option<string> {
    Prefer(fs, CompanionGz(dir, name, role), CompanionNii(dir, name, role))
  }

  predicate HasCompanion(fs: FileSystem, dir: string, name: string, role: string) {
    CompanionGz(dir, name, role) in fs.files || CompanionNii(dir, name, role) in fs.files
  }

  /** A resolved companion lies in its directory and is named after the subject and its role. */
  lemma CompanionInDirectory(fs: FileSystem, dir: string, name: string, role: string)
    requires Sep !in name && Sep !in role && |role| > 0
    requires Companion(fs, dir, name, role).Some?
    ensures var p := Companion(fs, dir, name, role).value;
      && p in fs.files
      && dir <= p
      && (AfterLast(p, Sep) == name + role + ".nii.gz" || AfterLast(p, Sep) == name + role + ".nii")
  {
    var gz, nii := name + role + ".nii.gz", name + role + ".nii";
    assert gz[0] == (name + role)[0] && nii[0] == (name + role)[0];
    assert forall i :: 0 <= i < |gz| ==> gz[i] in name || gz[i] in role || gz[i] in ".nii.gz";
    assert forall i :: 0 <= i < |nii| ==> nii[i] in name || nii[i] in role || nii[i] in ".nii";
    JoinedLastComponent(dir, gz);
    JoinedLastComponent(dir, nii);
  }

  /** The errors the manifest loop raises: a missing image, named after the subject. */
  predicate MissingFile(e: Failure) {
    e.T1Missing? || e.MaskMissing? || e.GmDistMissing? || e.VentDistMissing?
  }

  /** Everything a subject needs is on disk, in the alternatives the source accepts. */
  predicate Resolvable(fs: FileSystem, needs: Needs, flair: string) {
    var name := SubjectName(flair);
    && (T1Gz(flair) in fs.files || T1Nii(flair) in fs.files)
    && (needs.Labelled? ==>
          && HasCompanion(fs, needs.labelDir, name, "_manualmask")
          && (needs.distances.Some? ==>
                && HasCompanion(fs, needs.distances.value.gmdistDir, name, "_gmdist")
                && HasCompanion(fs, needs.distances.value.ventdistDir, name, "_ventdist")))
  }

  /** The body of the manifest loop for one FLAIR path: the record, or the first missing file. */
  function SubjectFor(fs: FileSystem, needs: Needs, flair: string): Result<Subject, Failure>
  {
    var basepath := BasePath(flair);
    var basename := AfterLast(basepath, Sep);
    match Prefer(fs, basepath + "_T1.nii.gz", basepath + "_T1.nii")
    case None => Err(T1Missing(basename))
    case Some(t1) =>
      match needs
      case ImagesOnly => Ok(Subject(flair, t1, None, None, None, basename))
      case Labelled(labelDir, distances) =>
        match Companion(fs, labelDir, basename, "_manualmask")
        case None => Err(MaskMissing(basename))
        case Some(gt) =>
          match distances
          case None => Ok(Subject(flair, t1, Some(gt), None, None, basename))
          case Some(dd) =>
            match Companion(fs, dd.gmdistDir, basename, "_gmdist")
            case None => Err(GmDistMissing(basename))
            case Some(gm) =>
              match Companion(fs, dd.ventdistDir, basename, "_ventdist")
              case None => Err(VentDistMissing(basename))
              case Some(vent) => Ok(Subject(flair, t1, Some(gt), Some(gm), Some(vent), basename))
  }

  /**
   * Whether a record is built, and what it holds of the FLAIR path, the
   * subject's name and the T1 image: `.nii.gz` before `.nii`, else an error
   * naming the subject. `evaluate`'s records stop there.
   */
  lemma SubjectResolution(fs: FileSystem, needs: Needs, flair: string, r: Result<Subject, Failure>)
    requires r == SubjectFor(fs, needs, flair)
    ensures r.Ok? ==> r.value.flairPath == flair && r.value.basename == SubjectName(flair)
    ensures r.Ok? ==> r.value.t1Path in fs.files
    ensures r.Ok? ==> r.value.t1Path == T1Gz(flair) || (r.value.t1Path == T1Nii(flair) && T1Gz(flair) !in fs.files)
    ensures r == Err(T1Missing(SubjectName(flair))) <==> T1Gz(flair) !in fs.files && T1Nii(flair) !in fs.files
    ensures needs.ImagesOnly? && r.Ok? ==>
      r.value.gtPath.None? && r.value.gmdistPath.None? && r.value.ventdistPath.None?
  {
  }

  /** A record is built exactly when the subject is resolvable; otherwise the error names a missing file. */
  lemma SubjectBuilt(fs: FileSystem, needs: Needs, flair: string, r: Result<Subject, Failure>)
    requires r == SubjectFor(fs, needs, flair)
    ensures r.Ok? ==> Resolvable(fs, needs, flair)
    ensures Resolvable(fs, needs, flair) ==> r.Ok?
    ensures r.Err? ==> MissingFile(r.error) && r.error.basename == SubjectName(flair)
  {
  }


  /** `path` is what the resolution rule picks: `gz` if it is a file, else `nii`, which then is a file. */
  predicate ResolvedAs(fs: FileSystem, path: Option<string>, gz: string, nii: string) {
    path.Some? && path.value in fs.files && (path.value == gz || (path.value == nii && gz !in fs.files))
  }

  /**
   * The companion files of a training record: the manual mask from the label
   * directory and, under the weighted loss only, the GM and the ventricle
   * distance maps from their own directories, each `.nii.gz` before `.nii`.
   */
  lemma SubjectCompanions(fs: FileSystem, needs: Needs, flair: string, r: Result<Subject, Failure>)
    requires r == SubjectFor(fs, needs, flair)
    requires needs.Labelled?
    ensures r.Ok? ==> ResolvedAs(fs, r.value.gtPath,
      CompanionGz(needs.labelDir, SubjectName(flair), "_manualmask"),
      CompanionNii(needs.labelDir, SubjectName(flair), "_manualmask"))
    ensures needs.distances.None? && r.Ok? ==> r.value.gmdistPath.None? && r.value.ventdistPath.None?
    ensures needs.distances.Some? && r.Ok? ==>
      && ResolvedAs(fs, r.value.gmdistPath,
           CompanionGz(needs.distances.value.gmdistDir, SubjectName(flair), "_gmdist"),
           CompanionNii(needs.distances.value.gmdistDir, SubjectName(flair), "_gmdist"))
      && ResolvedAs(fs, r.value.ventdistPath,
           CompanionGz(needs.distances.value.ventdistDir, SubjectName(flair), "_ventdist"),
           CompanionNii(needs.distances.value.ventdistDir, SubjectName(flair), "_ventdist"))
  {
  }

  /**
   * The error raised for each companion file of a training record, in the
   * order the loop resolves them: the mask, then the GM map, then the
   * ventricle map, each only once everything before it is on disk.
   */
  lemma SubjectCompanionErrors(fs: FileSystem, needs: Needs, flair: string, r: Result<Subject, Failure>)
    requires r == SubjectFor(fs, needs, flair)
    requires needs.Labelled?
    ensures r == Err(MaskMissing(SubjectName(flair))) <==>
      && (T1Gz(flair) in fs.files || T1Nii(flair) in fs.files)
      && !HasCompanion(fs, needs.labelDir, SubjectName(flair), "_manualmask")
    ensures r == Err(GmDistMissing(SubjectName(flair))) <==>
      && needs.distances.Some?
      && (T1Gz(flair) in fs.files || T1Nii(flair) in fs.files)
      && HasCompanion(fs, needs.labelDir, SubjectName(flair), "_manualmask")
      && !HasCompanion(fs, needs.distances.value.gmdistDir, SubjectName(flair), "_gmdist")
    ensures r == Err(VentDistMissing(SubjectName(flair))) <==>
      && needs.distances.Some?
      && (T1Gz(flair) in fs.files || T1Nii(flair) in fs.files)
      && HasCompanion(fs, needs.labelDir, SubjectName(flair), "_manualmask")
      && HasCompanion(fs, needs.distances.value.gmdistDir, SubjectName(flair), "_gmdist")
      && !HasCompanion(fs, needs.distances.value.ventdistDir, SubjectName(flair), "_ventdist")
  {
  }

  /** The first error among `results`, or all their values in order. */
  function Collect<T, E>(results: seq<Result<T, E>>): Result<seq<T>, E>
    decreases |results|
  {
    if results == [] then Ok([])
    else
      var done :- Collect(results[..|results| - 1]);
      var last :- results[|results| - 1];
      Ok(done + [last])
  }

  /** Collecting succeeds exactly when every result is a value, and then yields those values in order. */
  lemma {:induction false} CollectValues<T, E>(results: seq<Result<T, E>>)
    ensures Collect(results).Ok? <==> forall i :: 0 <= i < |results| ==> results[i].Ok?
    ensures Collect(results).Ok? ==>
      |Collect(results).value| == |results|
      && forall i :: 0 <= i < |results| ==> results[i] == Ok(Collect(results).value[i])
    decreases |results|
  {
    if results != [] {
      var prefix := results[..|results| - 1];
      CollectValues(prefix);
      assert forall i :: 0 <= i < |prefix| ==> prefix[i] == results[i];
    }
  }

  /** A failed collection reports the error of the first result that is an error. */
  lemma {:induction false} CollectFirstError<T, E>(results: seq<Result<T, E>>)
    requires Collect(results).Err?
    ensures exists k :: 0 <= k < |results| && results[k] == Err(Collect(results).error)
                        && forall j :: 0 <= j < k ==> results[j].Ok?
    decreases |results|
  {
    var n := |results| - 1;
    var prefix := results[..n];
    assert forall i :: 0 <= i < n ==> prefix[i] == results[i];
    if Collect(prefix).Err? {
      CollectFirstError(prefix);
      var k :| 0 <= k < |prefix| && prefix[k] == Err(Collect(prefix).error)
               && forall j :: 0 <= j < k ==> prefix[j].Ok?;
      assert results[k] == prefix[k];
    } else {
      CollectValues(prefix);
    }
  }

  /** Once a prefix fails, the whole collection fails with the same error. */
  lemma {:induction false} CollectKeepsFirstError<T, E>(results: seq<Result<T, E>>, k: nat)
    requires k <= |results|
    requires Collect(results[..k]).Err?
    ensures Collect(results) == Collect(results[..k])
    decreases |results| - k
  {
    if k < |results| {
      var n := |results| - 1;
      assert results[..n][..k] == results[..k];
      CollectKeepsFirstError(results[..n], k);
    } else {
      assert results[..k] == results;
    }
  }

  /** The loop body's outcome for each FLAIR path, in order. */
  function Records(fs: FileSystem, needs: Needs, flairs: seq<string>): seq<Result<Subject, Failure>> {
    seq(|flairs|, i requires 0 <= i < |flairs| => SubjectFor(fs, needs, flairs[i]))
  }

  /**
   * The manifest the source's loop builds: the records of all FLAIR paths in
   * order, or the error of the first one whose files cannot be resolved.
   */
  function Manifest(fs: FileSystem, needs: Needs, flairs: seq<string>): Result<seq<Subject>, Failure> {
    Collect(Records(fs, needs, flairs))
  }

  /** The loop of the source: one record appended per FLAIR path, raising at the first missing file. */
  method BuildManifest(fs: FileSystem, needs: Needs, flairs: seq<string>) returns (r: Result<seq<Subject>, Failure>)
    ensures r == Manifest(fs, needs, flairs)
  {
    ghost var records := Records(fs, needs, flairs);
    var subjects: seq<Subject> := [];
    var i := 0;
    while i < |flairs|
      invariant 0 <= i <= |flairs|
      invariant Collect(records[..i]) == Ok(subjects)
    {
      var subject := SubjectFor(fs, needs, flairs[i]);
      assert records[..i + 1][..i] == records[..i];
      assert records[..i + 1][i] == subject;
      if subject.Err? {
        CollectKeepsFirstError(records, i + 1);
        return Err(subject.error);
      }
      subjects := subjects + [subject.value];
      i := i + 1;
    }
    assert records[..i] == records;
    return Ok(subjects);
  }

  /**
   * The shape of a built manifest: one record per FLAIR path, in order, each
   * the loop body's record for that path, carrying the path and the name cut
   * from it, the T1 image the resolution rule picks, and its files on disk.
   */
  lemma ManifestShape(fs: FileSystem, needs: Needs, flairs: seq<string>, subjects: seq<Subject>)
    requires Manifest(fs, needs, flairs) == Ok(subjects)
    ensures |subjects| == |flairs|
    ensures forall i :: 0 <= i < |flairs| ==>
      && subjects[i].flairPath == flairs[i]
      && subjects[i].basename == SubjectName(flairs[i])
      && Ok(subjects[i]) == SubjectFor(fs, needs, flairs[i])
      && ResolvedAs(fs, Some(subjects[i].t1Path), T1Gz(flairs[i]), T1Nii(flairs[i]))
      && (needs.ImagesOnly? ==> Keys(subjects[i]) == {"flair_path", "t1_path", "gmdist_path", "ventdist_path", "basename"})
      && (needs.Labelled? ==> "gt_path" in Keys(subjects[i]) && subjects[i].gtPath.Some? && subjects[i].gtPath.value in fs.files)
      && (needs.ImagesOnly? || needs.distances.None? ==> subjects[i].gmdistPath.None? && subjects[i].ventdistPath.None?)
      && (needs.Labelled? && needs.distances.Some? ==>
            && subjects[i].gmdistPath.Some? && subjects[i].gmdistPath.value in fs.files
            && subjects[i].ventdistPath.Some? && subjects[i].ventdistPath.value in fs.files)
  {
    CollectValues(Records(fs, needs, flairs));
    forall i | 0 <= i < |flairs| {
      SubjectResolution(fs, needs, flairs[i], SubjectFor(fs, needs, flairs[i]));
    }
    forall i | 0 <= i < |flairs| && needs.Labelled? {
      SubjectCompanions(fs, needs, flairs[i], SubjectFor(fs, needs, flairs[i]));
    }
  }

  /** The manifest is built exactly when every subject's files can be resolved. */
  lemma ManifestBuilt(fs: FileSystem, needs: Needs, flairs: seq<string>)
    ensures Manifest(fs, needs, flairs).Ok? <==> forall i :: 0 <= i < |flairs| ==> Resolvable(fs, needs, flairs[i])
  {
    var records := Records(fs, needs, flairs);
    CollectValues(records);
    forall i | 0 <= i < |flairs| ensures records[i].Ok? <==> Resolvable(fs, needs, flairs[i]) {
      SubjectBuilt(fs, needs, flairs[i], records[i]);
    }
  }

  /**
   * A failing manifest raises the error of the first FLAIR path whose files
   * cannot be resolved; every path before it resolves.
   */
  lemma ManifestFirstFailure(fs: FileSystem, needs: Needs, flairs: seq<string>)
    requires Manifest(fs, needs, flairs).Err?
    ensures exists k :: 0 <= k < |flairs| && SubjectFor(fs, needs, flairs[k]) == Err(Manifest(fs, needs, flairs).error)
                        && !Resolvable(fs, needs, flairs[k])
                        && forall j :: 0 <= j < k ==> Resolvable(fs, needs, flairs[j])
    ensures MissingFile(Manifest(fs, needs, flairs).error)
  {
    var records := Records(fs, needs, flairs);
    CollectFirstError(records);
    var k :| 0 <= k < |records| && records[k] == Err(Collect(records).error)
             && forall j :: 0 <= j < k ==> records[j].Ok?;
    SubjectBuilt(fs, needs, flairs[k], records[k]);
    forall j | 0 <= j < k ensures Resolvable(fs, needs, flairs[j]) {
      SubjectBuilt(fs, needs, flairs[j], records[j]);
    }
  }
}
