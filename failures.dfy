/** The exceptions the commands raise, with the kind and the text of each. */
module Failures {
  import opened Paths
  import opened Options

  datatype ExceptionKind = ValueError | RuntimeError | TypeError

  datatype Failure =
    | InvalidInputDir(dir: string)
    | NoFlairImages(dir: string)
    | InvalidDir(dir: string)
    | GmDirRequired
    | GmDirInvalid(dir: string)
    | VentDirRequired
    | VentDirInvalid(dir: string)
    | T1Missing(basename: string)
    | MaskMissing(basename: string)
    | GmDistMissing(basename: string)
    | VentDistMissing(basename: string)
    | BadOption(option: OptionFailure)
    | FoldNotPositive
    | ResumeFoldNotPositive
    | MoreFoldsThanSubjects
    | ResumeFoldAboveFolds
    | InvalidPretrainedName
    | PretrainedDataMissing(name: string)
    | InvalidModelFiles(modelName: string)
    | InvalidCpSaveType
    | InvalidCpLoadType
    | CpNRequiredForSpecific
    | CpNRequiredForEveryN

  function Kind(f: Failure): ExceptionKind {
    match f
    case PretrainedDataMissing(_) => RuntimeError
    case BadOption(EveryNMissing) => TypeError
    case _ => ValueError
  }

  function OptionMessage(f: OptionFailure): string {
    match f
    case LearningRateNotFloat => "Initial learning rate must be a float value"
    case LearningRateAboveOne => "Initial learning rate must be between 0 and 1"
    case UnknownOptimizer => "Invalid option for Optimizer: Valid options: adam, sgd"
    case UnknownAcqPlane => "Invalid option for acquisition plane: Valid options: axial, sagittal, coronal, all"
    case GammaNotFloat => "Learning rate reduction factor must be a float value"
    case GammaAboveOne => "Learning rate reduction factor must be between 0 and 1"
    case TrainPropNotFloat => "Training data proportion must be a float value"
    case TrainPropAboveOne => "Training data proportion must be between 0 and 1"
    case BatchSizeTooSmall => "Batch size must be an int and > 1"
    case NumEpochsTooSmall => "Number of epochs must be an int and > 1"
    case BatchFactorTooSmall => "Batch factor must be an int and > 1"
    case PatienceOutOfRange => "Early stopping patience value must be an int and > 1 and < number of epochs"
    case AugFactorTooSmall => "Augmentation factor must be an int and > 1"
    case EveryNMissing => "'<' not supported between instances of 'NoneType' and 'int'"
    case EveryNOutOfRange => "N value for saving checkpoints for every N epochs must be an int and > 1and < number of epochs"
    case NumClassesTooSmall => "Number of classes to consider in target segmentations must be an int and > 1"
  }

  /** The text each exception carries. */
  function Message(f: Failure): string {
    match f
    case InvalidInputDir(d) => d + " does not appear to be a valid input directory"
    case NoFlairImages(d) => d + " does not contain any FLAIR images / filenames NOT in required format"
    case InvalidDir(d) => d + " does not appear to be a valid directory"
    case GmDirRequired => "-gdir must be provided when using -loss is \"weighted\"!"
    case GmDirInvalid(d) => d + " does not appear to be a valid GM distance files directory"
    case VentDirRequired => "-vdir must be provided when using -loss is \"weighted\"!"
    case VentDirInvalid(d) => d + " does not appear to be a valid ventricle distance files directory"
    case T1Missing(b) => "T1 file does not exist for " + b
    case MaskMissing(b) => "Manual lesion mask does not exist for " + b
    case GmDistMissing(b) => "GM distance file does not exist for " + b
    case VentDistMissing(b) => "Ventricle distance file does not exist for " + b
    case BadOption(o) => OptionMessage(o)
    case FoldNotPositive => "Number of folds cannot be 0 or negative"
    case ResumeFoldNotPositive => "Fold to resume cannot be 0 or negative"
    case MoreFoldsThanSubjects => "Number of folds is greater than number of subjects!"
    case ResumeFoldAboveFolds => "The fold to resume CV cannot be higher than the total number of folds specified!"
    case InvalidPretrainedName => "Invalid name for Pretrained model: Valid options: mwsc, ukbb"
    case PretrainedDataMissing(n) =>
      "Cannot find data; export microbleednet_PRETRAINED_MODEL_PATH=/path/to/my/" + n + "/model"
    case InvalidModelFiles(m) =>
      var b := AfterLast(m, Sep);
      "In directory " + DirName(m) + ", " + b + "_axial.pth or" + b + "_sagittal.pth or" + b
      + "_coronal.pth " + "does not appear to be a valid model file"
    case InvalidCpSaveType => "Invalid option for checkpoint save type: Valid options: best, last, everyN"
    case InvalidCpLoadType => "Invalid option for checkpoint save type: Valid options: best, last, specific"
    case CpNRequiredForSpecific =>
      "-cp_n must be provided to specify the epoch for loading CP when using -cp_type is \"specific\"!"
    case CpNRequiredForEveryN =>
      "-cp_n must be provided to specify the epoch for loading CP when using -cp_type is \"everyN\"!"
  }
}
