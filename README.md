# microbleednet command layer, in Dafny

This project models the four sub-commands of microbleednet's command layer:
`train`, `evaluate`, `fine_tune` and `cross_validate`. Each one checks its
arguments and the input directory, builds the subject manifest
(`subj_name_dicts`) and hands it to a training or testing engine.

The model covers everything that happens up to that hand-off:

- the per-subject manifest loop, written once (`SubjectManifest`) and
  parameterised by what a command needs for each subject. `evaluate` needs only
  the T1 image. The training commands also need the manual mask, and under the
  weighted loss both distance maps. Each file is resolved `.nii.gz` first, then
  `.nii`, and otherwise raises an error that names the subject.
- the path handling it relies on (`Paths`): `str.split`, `os.path.join`,
  `os.path.basename` and `os.path.dirname` on POSIX paths.
- the hyperparameter chain (`Options`), which raises the first check that
  fails, in the source's order.
- the distance-directory checks and the model lookup (`Common`).
- one module per command. Each has a method that runs the checks step by step
  and calls the manifest loop (`BuildManifest`, a `while` loop with its
  invariant). The method is proved equal to a function stating the command's
  outcome: the first exception it raises, or the call it makes to the engine.
  Lemmas then state, for every input:
  - when the command succeeds, as an independent predicate (`…Accepted`);
  - what the engine receives;
  - which error each check raises once the checks before it pass (`…Errors`);
  - which exception kinds it raises.

The file system is two sets of paths: the regular files and the directories.
The list of FLAIR paths found by `glob` is an input sequence. The environment
used by the pretrained-model lookup is part of the `Host` value.

## Model

All source cells refer to `microbleednet/microbleed_net/microbleednet_commands.py`.

| member | source | states |
|---|---|---|
| Paths.BeforeFirst | microbleednet/microbleed_net/microbleednet_commands.py:65 | definition of `s.split(m)[0]`; properties in Paths.BeforeFirstSplits |
| Paths.AfterLast | microbleednet/microbleed_net/microbleednet_commands.py:66 | definition of `s.split(os.sep)[-1]` and `os.path.basename`; properties in Paths.AfterLastSuffix and Paths.AfterLastUnique |
| Paths.Join | microbleednet/microbleed_net/microbleednet_commands.py:76-79 | definition of `os.path.join` on two arguments; properties in Paths.JoinShape and Paths.JoinedLastComponent |
| Paths.StripTrailingSeps | microbleednet/microbleed_net/microbleednet_commands.py:252 | definition of `rstrip('/')` inside `os.path.dirname`; properties in Paths.StripTrailingSepsShape |
| Paths.Head | microbleednet/microbleed_net/microbleednet_commands.py:252-258 | definition of the part of a path before its last component; properties in Paths.HeadShape |
| Paths.DirName | microbleednet/microbleed_net/microbleednet_commands.py:252-258 | definition of `os.path.dirname`; properties in Paths.DirNameShape |
| Paths.BeforeFirstSplits | microbleednet/microbleed_net/microbleednet_commands.py:65 | `flair.split("_FLAIR.nii")[0]` is a prefix of the path in which no occurrence of the marker starts; it is the whole path when the marker is absent, and otherwise it ends exactly where the first marker begins |
| Paths.AfterLastSuffix | microbleednet/microbleed_net/microbleednet_commands.py:66 | `basepath.split(os.sep)[-1]` is a suffix of the base path that contains no separator; it is either the whole path or it is preceded by a separator |
| Paths.AfterLastUnique | microbleednet/microbleed_net/microbleednet_commands.py:66 | these three properties determine the last component uniquely |
| Paths.JoinShape | microbleednet/microbleed_net/microbleednet_commands.py:76-79 | `os.path.join(dir, name)` ends with `name`; an absolute name replaces the directory; otherwise the directory comes first, and exactly one character is added, a separator, exactly when the directory is non-empty and does not end in a separator |
| Paths.JoinedLastComponent | microbleednet/microbleed_net/microbleednet_commands.py:76-79 | a file name joined to any directory is the last component of the joined path |
| Paths.StripTrailingSepsShape | microbleednet/microbleed_net/microbleednet_commands.py:252 | stripping keeps a prefix that does not end in a separator and removes only separators |
| Paths.HeadShape | microbleednet/microbleed_net/microbleednet_commands.py:252-258 | the head followed by the last component is the whole path; the head is empty or ends in a separator, and is empty exactly when the path has no separator |
| Paths.DirNameShape | microbleednet/microbleed_net/microbleednet_commands.py:252-258 | `os.path.dirname` is the head of the path when the head is all separators, and otherwise the head with its trailing separators removed: a non-empty prefix of the head, not ending in a separator, followed in the head by separators only; it is empty exactly when the path has no separator |
| Options.CheckHyperparameters | microbleednet/microbleed_net/microbleednet_commands.py:111-151 | no failure exactly when every constraint holds (fractions ≤ 1, known optimizer and acquisition plane, batch size, epochs, batch factor, augmentation factor and classes ≥ 1, patience in [1, epochs], and under `everyN` saving, where the command checks it, an N given and in [1, epochs]); a reported failure is a violated check |
| Options.EarlierChecksPass | microbleednet/microbleed_net/microbleednet_commands.py:111-151 | the chain reports the first violated check: when a failure is raised, every check before it in source order (its `Rank`) passes |
| Options.Rank | microbleednet/microbleed_net/microbleednet_commands.py:111-151 | definition of the position of each check in the source's chain; used by Options.EarlierChecksPass |
| Options.Violates | microbleednet/microbleed_net/microbleednet_commands.py:111-151 | definition of the raise condition of each check on its own; properties in Options.CheckHyperparameters, Options.EarlierChecksPass and Options.AcceptedIffNoViolation |
| Options.AcceptedIffNoViolation | microbleednet/microbleed_net/microbleednet_commands.py:111-151 | the options are accepted exactly when no single check is violated |
| Options.SaveWeights | microbleednet/microbleed_net/microbleednet_commands.py:172-175 | definition of `save_wei`: false exactly when `save_full_model == 'True'`; stated per command in the …CallShape lemmas |
| Failures.Kind | microbleednet/microbleed_net/microbleednet_commands.py:21-675 | definition of the exception class of each raise: RuntimeError for missing pretrained data (lines 239 and 245), TypeError for comparing a missing `-cp_n` with an integer (line 146), ValueError otherwise; properties in the …ErrorKind lemmas |
| Failures.Message | microbleednet/microbleed_net/microbleednet_commands.py:21-675 | definition of the text each exception carries; no lemma states anything about it |
| Failures.OptionMessage | microbleednet/microbleed_net/microbleednet_commands.py:112-151 | definition of the text of each hyperparameter exception; no lemma states anything about it |
| SubjectManifest.Prefer | microbleednet/microbleed_net/microbleednet_commands.py:68-73 | definition of the resolution rule, `.nii.gz` first and `.nii` second; stated as `ResolvedAs` in SubjectManifest.SubjectCompanions |
| SubjectManifest.BasePath | microbleednet/microbleed_net/microbleednet_commands.py:65 | definition of `flair.split("_FLAIR.nii")[0]`; properties in Paths.BeforeFirstSplits |
| SubjectManifest.SubjectName | microbleednet/microbleed_net/microbleednet_commands.py:66 | definition of the subject name `basepath.split(os.sep)[-1]`; properties in Paths.AfterLastSuffix and Paths.AfterLastUnique |
| SubjectManifest.T1Gz | microbleednet/microbleed_net/microbleednet_commands.py:68-69 | definition of the preferred T1 candidate `basepath + '_T1.nii.gz'`; properties in SubjectManifest.SubjectResolution |
| SubjectManifest.T1Nii | microbleednet/microbleed_net/microbleednet_commands.py:70-71 | definition of the fallback T1 candidate `basepath + '_T1.nii'`; properties in SubjectManifest.SubjectResolution |
| SubjectManifest.CompanionGz | microbleednet/microbleed_net/microbleednet_commands.py:76-97 | definition of the preferred companion candidate `os.path.join(dir, name + role + '.nii.gz')`; properties in SubjectManifest.CompanionInDirectory and SubjectManifest.SubjectCompanions |
| SubjectManifest.CompanionNii | microbleednet/microbleed_net/microbleednet_commands.py:76-97 | definition of the fallback companion candidate `os.path.join(dir, name + role + '.nii')`; properties in SubjectManifest.CompanionInDirectory and SubjectManifest.SubjectCompanions |
| SubjectManifest.Companion | microbleednet/microbleed_net/microbleednet_commands.py:76-97 | definition of the resolution of the mask and distance maps; properties in SubjectManifest.CompanionInDirectory and SubjectManifest.SubjectCompanions |
| SubjectManifest.Resolvable | microbleednet/microbleed_net/microbleednet_commands.py:64-97 | definition of "every file the subject needs is on disk", stated independently of the loop; related to it by SubjectManifest.SubjectBuilt and SubjectManifest.ManifestBuilt |
| SubjectManifest.ResolvedAs | microbleednet/microbleed_net/microbleednet_commands.py:68-97 | definition of "this path is what the resolution rule picks"; used by SubjectManifest.SubjectCompanions and Common.LabelledRecords |
| SubjectManifest.SubjectFor | microbleednet/microbleed_net/microbleednet_commands.py:64-101 | definition of one iteration of the manifest loop; properties in SubjectManifest.SubjectResolution, SubjectBuilt, SubjectCompanions and SubjectCompanionErrors |
| SubjectManifest.SubjectResolution | microbleednet/microbleed_net/microbleednet_commands.py:64-73 | a record keeps the FLAIR path and the subject name cut from it; its T1 image is on disk, and it is the `.nii.gz` file if that exists and the `.nii` file otherwise; "T1 missing for <name>" is raised exactly when neither exists; `evaluate` records carry no mask and no distance maps |
| SubjectManifest.SubjectBuilt | microbleednet/microbleed_net/microbleednet_commands.py:64-101 | a record is built exactly when every file the command needs is on disk (one direction per clause); any error reports a missing file and names this subject |
| SubjectManifest.SubjectCompanions | microbleednet/microbleed_net/microbleednet_commands.py:76-101 | the mask of a labelled record is the label directory's `<name>_manualmask.nii.gz` if it exists, else its `.nii`, which exists; without the weighted loss the distance paths are None; with it, both maps are resolved the same way in their own directories |
| SubjectManifest.SubjectCompanionErrors | microbleednet/microbleed_net/microbleednet_commands.py:76-101 | "mask missing" is raised exactly when the T1 image exists and the mask does not; "GM distance missing" exactly under the weighted loss when T1 and mask exist and the GM map does not; "ventricle distance missing" exactly when T1, mask and GM map exist and the ventricle map does not; each names the subject |
| SubjectManifest.CompanionInDirectory | microbleednet/microbleed_net/microbleednet_commands.py:76-97 | a resolved companion file is on disk, lies under its directory and is named `<name><role>.nii.gz` or `<name><role>.nii` |
| SubjectManifest.Collect | microbleednet/microbleed_net/microbleednet_commands.py:63-109 | definition of the loop's early exit: the first error, or all values in order; properties in SubjectManifest.CollectValues, CollectFirstError and CollectKeepsFirstError |
| SubjectManifest.Records | microbleednet/microbleed_net/microbleednet_commands.py:64-109 | definition of the loop body's outcome for each FLAIR path, in order; properties in SubjectManifest.ManifestShape and SubjectManifest.ManifestFirstFailure |
| SubjectManifest.Manifest | microbleednet/microbleed_net/microbleednet_commands.py:63-109 | definition of the whole loop as a function; SubjectManifest.BuildManifest is proved equal to it, and its properties are in ManifestShape, ManifestBuilt and ManifestFirstFailure |
| SubjectManifest.CollectValues | microbleednet/microbleed_net/microbleednet_commands.py:63-109 | the loop succeeds exactly when every step succeeds, and then yields their records in order |
| SubjectManifest.CollectFirstError | microbleednet/microbleed_net/microbleednet_commands.py:63-109 | a failing loop raises the error of its first failing step, and every step before it succeeds |
| SubjectManifest.CollectKeepsFirstError | microbleednet/microbleed_net/microbleednet_commands.py:63-109 | once a prefix of the steps fails, the whole loop fails with the same error; this is the early exit of `raise` |
| SubjectManifest.BuildManifest | microbleednet/microbleed_net/microbleednet_commands.py:63-109 | the loop appends one record per FLAIR path and stops at the first missing file; the result equals the manifest function |
| SubjectManifest.ManifestShape | microbleednet/microbleed_net/microbleednet_commands.py:64-109 | one record per FLAIR path, in order, each the loop body's record for its path, with the path, the name cut from it and the T1 image picked by the resolution rule (`.nii.gz` before `.nii`); `evaluate` records have exactly the keys flair_path, t1_path, gmdist_path, ventdist_path and basename; training records have a mask on disk, and distance maps on disk exactly under the weighted loss; a built manifest has as many records as there are FLAIR paths |
| SubjectManifest.ManifestBuilt | microbleednet/microbleed_net/microbleednet_commands.py:63-109 | the manifest is built exactly when every subject's files can be resolved |
| SubjectManifest.ManifestFirstFailure | microbleednet/microbleed_net/microbleednet_commands.py:63-109 | a failing manifest raises the error of the first unresolvable subject; every subject before it resolves; the error reports a missing file; the error is one of the four missing-file errors |
| Common.DistanceDirsFor | microbleednet/microbleed_net/microbleednet_commands.py:45-60 | succeeds exactly when the loss is not weighted, or both distance directories are given and are directories; it yields no distance directories exactly when the loss is not weighted; each of the four errors is raised exactly when its check is the first to fail, GM before ventricles and "not given" before "not a directory" |
| Common.DistanceDirsNeeds | microbleednet/microbleed_net/microbleednet_commands.py:45-101 | once the distance directories pass their checks, the manifest is built with the mask from the label directory and, under the weighted loss, the two given distance directories |
| Common.LabelledRecords | microbleednet/microbleed_net/microbleednet_commands.py:64-109 | definition of the records a training command hands over: per FLAIR path, in order, the T1 image, the mask from the label directory and, exactly when distance directories are given, both distance maps, each picked by the resolution rule; established by Common.LabelledManifestShape |
| Common.LabelledManifestShape | microbleednet/microbleed_net/microbleednet_commands.py:64-109 | a training manifest has one labelled record per FLAIR path, in order, with the T1 image, the mask from the label directory and, exactly when distance directories are given, both distance maps from them, each picked by the resolution rule |
| Common.LocateModel | microbleednet/microbleed_net/microbleednet_commands.py:232-259 | a model is found exactly when a known pretrained name has installed or exported data, or all three view checkpoints exist; a custom model is split into the dirname and basename of `model_name`; the name error is raised exactly for an unknown pretrained name, the RuntimeError exactly when a known pretrained model is neither installed nor exported, and the model-file error exactly when a custom checkpoint is missing |
| TrainCommand.TrainOutcome | microbleednet/microbleed_net/microbleednet_commands.py:28-182 | definition of `train` as a function of its inputs; TrainCommand.Train is proved equal to it, and its properties are in the lemmas below |
| TrainCommand.Train | microbleednet/microbleed_net/microbleednet_commands.py:21-182 | the step-by-step command equals TrainOutcome |
| TrainCommand.TrainOptions | microbleednet/microbleed_net/microbleednet_commands.py:111-182 | after the manifest, `train` succeeds exactly when the options are accepted and the save type is known; a failing option check raises the first failed check; accepted options with an unknown save type raise the save-type error; the call carries the manifest |
| TrainCommand.TrainAcceptance | microbleednet/microbleed_net/microbleednet_commands.py:28-178 | `train` reaches the engine exactly when the input, model and label directories exist, the FLAIR list is not empty, the distance directories are valid, every subject resolves, the options are accepted and the checkpoint save type is known |
| TrainCommand.TrainRecords | microbleednet/microbleed_net/microbleednet_commands.py:63-109 | the engine receives one labelled record per FLAIR path, in order, with the T1 image and the mask from `-label_dir` chosen `.nii.gz` before `.nii`, and with the distance maps from `-gdir` and `-vdir`, chosen the same way, exactly under the weighted loss |
| TrainCommand.TrainCallShape | microbleednet/microbleed_net/microbleednet_commands.py:135-182 | each integer option reaching the engine is in range; optimizer and plane are known; the save case is the checkpoint save type; `save_wei` is false exactly when `save_full_model == 'True'`; checkpoints go to the model directory |
| TrainCommand.TrainErrors | microbleednet/microbleed_net/microbleednet_commands.py:28-101 | each check before the options raises its own error once the earlier ones pass: a missing input directory, an empty FLAIR list, a missing model directory, a missing label directory, the distance-directory error, then the first manifest error; after a built manifest the outcome is TrainOptions on it |
| TrainCommand.TrainOptionError | microbleednet/microbleed_net/microbleednet_commands.py:111-151 | an option error is raised only after every subject has resolved; it is violated, and every earlier check passes |
| TrainCommand.TrainErrorKind | microbleednet/microbleed_net/microbleednet_commands.py:28-178 | `train` never raises RuntimeError; a TypeError comes only from a missing `-cp_n` under `everyN` saving |
| EvaluateCommand.EvaluateOutcome | microbleednet/microbleed_net/microbleednet_commands.py:197-279 | definition of `evaluate` as a function of its inputs; properties in the lemmas below |
| EvaluateCommand.LoadCase | microbleednet/microbleed_net/microbleednet_commands.py:268-274 | definition of the rename of `specific` to `everyN`; properties in EvaluateCommand.EvaluateCallShape |
| EvaluateCommand.Evaluate | microbleednet/microbleed_net/microbleednet_commands.py:189-279 | the step-by-step command, with its in-place rewrite of `specific` to `everyN`, equals EvaluateOutcome |
| EvaluateCommand.EvaluateAcceptance | microbleednet/microbleed_net/microbleednet_commands.py:197-274 | `evaluate` reaches the engine exactly when the input and output directories exist, the FLAIR list is not empty, every T1 image resolves, classes ≥ 1, the model is found, the load type is best, last or specific, and `specific` comes with `-cp_n` |
| EvaluateCommand.EvaluateErrors | microbleednet/microbleed_net/microbleednet_commands.py:197-274 | each check raises its own error once the earlier ones pass: a missing input directory, an empty FLAIR list, a missing output directory, the first subject without a T1 image, classes < 1, the model lookup's error, an unknown load type, then `specific` without `-cp_n` |
| EvaluateCommand.EvaluateRecords | microbleednet/microbleed_net/microbleednet_commands.py:210-227 | one record per FLAIR path in order, with the T1 image chosen `.nii.gz` before `.nii`, without a `gt_path` key and with None distance paths |
| EvaluateCommand.EvaluateCallShape | microbleednet/microbleed_net/microbleednet_commands.py:229-279 | the engine gets the number of classes and `-cp_n` as given; the load type unchanged unless it is `specific`, which becomes everyN and then comes with the epoch; a pretrained model exactly when asked for, with the name asked for; a custom model by dirname and basename; the output directory |
| EvaluateCommand.EvaluateErrorKind | microbleednet/microbleed_net/microbleednet_commands.py:197-274 | `evaluate` never raises TypeError; it raises RuntimeError exactly when the directories exist, the FLAIR list is not empty, every T1 image resolves, classes ≥ 1 and a known pretrained model is neither installed nor exported |
| FineTuneCommand.FineTuneOutcome | microbleednet/microbleed_net/microbleednet_commands.py:293-486 | definition of `fine_tune` as a function of its inputs; properties in the lemmas below |
| FineTuneCommand.FineTune | microbleednet/microbleed_net/microbleednet_commands.py:286-486 | the step-by-step command equals FineTuneOutcome |
| FineTuneCommand.FineTuneOptions | microbleednet/microbleed_net/microbleednet_commands.py:375-486 | after the manifest, `fine_tune` succeeds exactly when the options are accepted, the model is found and the save type is known; otherwise it raises, in that order, the first failed option check, the model lookup's error, or the save-type error; the call carries the manifest |
| FineTuneCommand.FineTuneAcceptance | microbleednet/microbleed_net/microbleednet_commands.py:293-481 | `fine_tune` reaches the engine exactly when its directories exist, the FLAIR list is not empty, every subject resolves, the options are accepted, the model is found and the save type is known |
| FineTuneCommand.FineTuneErrors | microbleednet/microbleed_net/microbleednet_commands.py:293-373 | each check before the options raises its own error once the earlier ones pass: a missing input directory, an empty FLAIR list, a missing output directory, a missing label directory, the distance-directory error, then the first manifest error; after a built manifest the outcome is FineTuneOptions on it |
| FineTuneCommand.FineTuneRecords | microbleednet/microbleed_net/microbleednet_commands.py:327-373 | the engine receives one labelled record per FLAIR path, in order, with the T1 image and the mask from `-label_dir` chosen `.nii.gz` before `.nii`, and with the distance maps from `-gdir` and `-vdir`, chosen the same way, exactly under the weighted loss |
| FineTuneCommand.FineTuneCallShape | microbleednet/microbleed_net/microbleednet_commands.py:399-486 | integer options in range, the save case is known, `save_wei` is derived from `save_full_model`, a pretrained model exactly when asked for and with the name asked for, a custom model by dirname and basename, and checkpoints go to the output directory |
| FineTuneCommand.FineTuneEveryNGuardUnreachable | microbleednet/microbleed_net/microbleednet_commands.py:410-481 | the `-cp_n` guard for everyN saving never raises, because a missing N has already raised a TypeError in the range check |
| FineTuneCommand.FineTuneErrorKind | microbleednet/microbleed_net/microbleednet_commands.py:293-481 | RuntimeError exactly when every check before the model lookup passes and a known pretrained model is neither installed nor exported; TypeError only for a missing `-cp_n` under everyN saving |
| CrossValidateCommand.CrossValidateOutcome | microbleednet/microbleed_net/microbleednet_commands.py:499-675 | definition of `cross_validate` as a function of its inputs; properties in the lemmas below |
| CrossValidateCommand.CrossValidate | microbleednet/microbleed_net/microbleednet_commands.py:492-675 | the step-by-step command equals CrossValidateOutcome |
| CrossValidateCommand.CrossValidateOptions | microbleednet/microbleed_net/microbleednet_commands.py:590-669 | after the manifest, `cross_validate` succeeds exactly when the options (without the N range check) are accepted, resume ≤ folds ≤ subjects, the save type is known and everyN comes with `-cp_n`; otherwise it raises, in that order, the first failed option check, "more folds than subjects", "resume fold above folds", the save-type error or the `-cp_n` error |
| CrossValidateCommand.CrossValidateAcceptance | microbleednet/microbleed_net/microbleednet_commands.py:499-669 | `cross_validate` reaches the engine exactly when its directories exist, the FLAIR list is not empty, 1 ≤ resume fold ≤ folds ≤ number of subjects, every subject resolves and the options are accepted |
| CrossValidateCommand.CrossValidateErrors | microbleednet/microbleed_net/microbleednet_commands.py:499-588 | each check before the options raises its own error once the earlier ones pass: a missing input, output or label directory, an empty FLAIR list, folds < 1, resume fold < 1, the distance-directory error, then the first manifest error; after a built manifest the outcome is CrossValidateOptions on it |
| CrossValidateCommand.CrossValidateRecords | microbleednet/microbleed_net/microbleednet_commands.py:542-588 | the engine receives one labelled record per FLAIR path, in order, with the T1 image and the mask from `-label_dir` chosen `.nii.gz` before `.nii`, and with the distance maps from `-gdir` and `-vdir`, chosen the same way, exactly under the weighted loss |
| CrossValidateCommand.CrossValidateFolds | microbleednet/microbleed_net/microbleednet_commands.py:519-636 | the engine receives 1 ≤ resume fold ≤ folds ≤ number of records |
| CrossValidateCommand.CrossValidateCallShape | microbleednet/microbleed_net/microbleednet_commands.py:614-675 | integer options in range, `-cp_n` given under everyN saving, the save case and `save_wei` as derived, and output to the output directory |
| CrossValidateCommand.CrossValidateEveryNUnchecked | microbleednet/microbleed_net/microbleednet_commands.py:624-669 | the value of a given `-cp_n` never affects acceptance, because its range check is commented out |
| CrossValidateCommand.CrossValidateErrorKind | microbleednet/microbleed_net/microbleednet_commands.py:499-669 | every exception `cross_validate` raises is a ValueError |

## Left out

- File system, `glob` and `print`: the file system is two sets of paths, and the FLAIR list is an input in whatever order `glob` returns. The debug `print` of line 75 is not modelled.
- Engine calls (`microbleednet_train_function.main`, `microbleednet_test_function.main`, `microbleednet_finetune.main`, `microbleednet_cross_validate.main`): these modules are not part of this model. Each command ends with a value that records the arguments the engine would get.
- Parameter dictionaries (`training_params`, `eval_params`, `finetuning_params`, `cv_params`): these are field copies of the arguments. Only the fields the checks use are modelled. Pass-through arguments are not modelled: epsilon, momentum, milestones, fine-tuning layers, the load options of `fine_tune`, `save_resume_training`, `data_augmentation`, `intermediate` and `verbose`.
- Floating point: a float argument is either "not a float", for the `isinstance` test, or a real number compared with 1. NaN and infinities are not modelled. As in the code, there is no lower bound: the messages say "between 0 and 1", but only `> 1` is checked.
- Integer checks: the messages say "> 1", but the code checks `< 1`. The model follows the code, so 1 is accepted.
- Integer arguments: the model assumes they are Python ints; the argument parser is not part of this model. `-cp_n` may be None, and comparing None with an int raises a TypeError; this is the `EveryNMissing` failure.
- Pretrained lookup: `$FSLDIR/data/microbleednet/models/<name>` becomes the set `Host.installedModels`, and the `microbleednet_PRETRAINED_MODEL_PATH` variable becomes `Host.pretrainedModelPath`. The directory found is not kept, because the code never uses it.
- Unbound `model_dir` (lines 278 and 486): in the pretrained branch of `evaluate` and `fine_tune`, the code assigns `modeldir` but passes `model_dir`, which is unbound there. The engine call would fail. The model treats that branch as reaching the engine with the pretrained model's name.
- In-place `args.cp_load_type = 'everyN'` (line 272): `Evaluate` rewrites a local copy, and the value reaches the engine as `loadCase`. The written-back `args` object is not modelled.
- Separator: `os.sep` is fixed to `/`. Windows paths are not modelled.
- Exception texts: `Failures.Message` and `Failures.OptionMessage` give the text of each exception, but no lemma states anything about them.
