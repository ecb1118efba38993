/**
 * The hyperparameter chain that `train`, `fine_tune` and `cross_validate`
 * run after building their manifest: float checks, enumerations, integer
 * ranges and the cross-field bounds, raising on the first violation.
 */
module Options {
  import opened Wrappers

  /** A value the source tests with `isinstance(x, float)` and then bounds by `x > 1`. */
  datatype FloatArg = NotAFloat | AFloat(value: real)

  const Optimizers: set<string> := {"adam", "sgd"}
  const AcqPlanes: set<string> := {"axial", "sagittal", "coronal", "all"}
  const SaveTypes: set<string> := {"best", "last", "everyN"}
  const LoadTypes: set<string> := {"best", "last", "specific"}
  const EveryN: string := "everyN"

  datatype Hyperparameters = Hyperparameters(
    initLearningRate: FloatArg,
    optimizer: string,
    acqPlane: string,
    lrSchGamma: FloatArg,
    trainProp: FloatArg,
    batchSize: int,
    numEpochs: int,
    batchFactor: int,
    earlyStopVal: int,
    augFactor: int,
    cpSaveType: string,
    cpEveryN: Option<int>,
    numClasses: int)

  /** One check of the chain that can fail, named after what it rejects. */
  datatype OptionFailure =
    | LearningRateNotFloat | LearningRateAboveOne
    | UnknownOptimizer | UnknownAcqPlane
    | GammaNotFloat | GammaAboveOne
    | TrainPropNotFloat | TrainPropAboveOne
    | BatchSizeTooSmall | NumEpochsTooSmall | BatchFactorTooSmall
    | PatienceOutOfRange | AugFactorTooSmall
    | EveryNMissing | EveryNOutOfRange
    | NumClassesTooSmall

  /** The position of a check in the source's chain. */
  function Rank(f: OptionFailure): nat {
    match f
    case LearningRateNotFloat => 0
    case LearningRateAboveOne => 1
    case UnknownOptimizer => 2
    case UnknownAcqPlane => 3
    case GammaNotFloat => 4
    case GammaAboveOne => 5
    case TrainPropNotFloat => 6
    case TrainPropAboveOne => 7
    case BatchSizeTooSmall => 8
    case NumEpochsTooSmall => 9
    case BatchFactorTooSmall => 10
    case PatienceOutOfRange => 11
    case AugFactorTooSmall => 12
    case EveryNMissing => 13
    case EveryNOutOfRange => 14
    case NumClassesTooSmall => 15
  }

  /**
   * The condition under which check `f` raises, taken on its own.
   * `checkEveryN` is false for `cross_validate`, where the N-range check is
   * commented out. `EveryNMissing` is the TypeError Python raises when it
   * compares a missing N (None) with an integer.
   */
  predicate Violates(h: Hyperparameters, checkEveryN: bool, f: OptionFailure) {
    match f
    case LearningRateNotFloat => h.initLearningRate.NotAFloat?
    case LearningRateAboveOne => h.initLearningRate.AFloat? && h.initLearningRate.value > 1.0
    case UnknownOptimizer => h.optimizer !in Optimizers
    case UnknownAcqPlane => h.acqPlane !in AcqPlanes
    case GammaNotFloat => h.lrSchGamma.NotAFloat?
    case GammaAboveOne => h.lrSchGamma.AFloat? && h.lrSchGamma.value > 1.0
    case TrainPropNotFloat => h.trainProp.NotAFloat?
    case TrainPropAboveOne => h.trainProp.AFloat? && h.trainProp.value > 1.0
    case BatchSizeTooSmall => h.batchSize < 1
    case NumEpochsTooSmall => h.numEpochs < 1
    case BatchFactorTooSmall => h.batchFactor < 1
    case PatienceOutOfRange => h.earlyStopVal < 1 || h.earlyStopVal > h.numEpochs
    case AugFactorTooSmall => h.augFactor < 1
    case EveryNMissing => checkEveryN && h.cpSaveType == EveryN && h.cpEveryN.None?
    case EveryNOutOfRange =>
      checkEveryN && h.cpSaveType == EveryN && h.cpEveryN.Some?
      && (h.cpEveryN.value < 1 || h.cpEveryN.value > h.numEpochs)
    case NumClassesTooSmall => h.numClasses < 1
  }

  /** A float that is not above one (the source does not bound it from below). */
  predicate Fraction(x: FloatArg) {
    x.AFloat? && x.value <= 1.0
  }

  /** The hyperparameters the chain lets through, stated as the constraints themselves. */
  predicate Accepted(h: Hyperparameters, checkEveryN: bool) {
    && Fraction(h.initLearningRate)
    && h.optimizer in Optimizers
    && h.acqPlane in AcqPlanes
    && Fraction(h.lrSchGamma)
    && Fraction(h.trainProp)
    && h.batchSize >= 1
    && h.numEpochs >= 1
    && h.batchFactor >= 1
    && 1 <= h.earlyStopVal <= h.numEpochs
    && h.augFactor >= 1
    && (checkEveryN && h.cpSaveType == EveryN ==> h.cpEveryN.Some? && 1 <= h.cpEveryN.value <= h.numEpochs)
    && h.numClasses >= 1
  }

  /** The chain itself, in the source's order: the first check that raises, or None. */
  function CheckHyperparameters(h: Hyperparameters, checkEveryN: bool): (r: Option<OptionFailure>)
    ensures r.None? <==> Accepted(h, checkEveryN)
    ensures r.Some? ==> Violates(h, checkEveryN, r.value)
  {
    if h.initLearningRate.NotAFloat? then Some(LearningRateNotFloat)
    else if h.initLearningRate.value > 1.0 then Some(LearningRateAboveOne)
    else if h.optimizer !in Optimizers then Some(UnknownOptimizer)
    else if h.acqPlane !in AcqPlanes then Some(UnknownAcqPlane)
    else if h.lrSchGamma.NotAFloat? then Some(GammaNotFloat)
    else if h.lrSchGamma.value > 1.0 then Some(GammaAboveOne)
    else if h.trainProp.NotAFloat? then Some(TrainPropNotFloat)
    else if h.trainProp.value > 1.0 then Some(TrainPropAboveOne)
    else if h.batchSize < 1 then Some(BatchSizeTooSmall)
    else if h.numEpochs < 1 then Some(NumEpochsTooSmall)
    else if h.batchFactor < 1 then Some(BatchFactorTooSmall)
    else if h.earlyStopVal < 1 || h.earlyStopVal > h.numEpochs then Some(PatienceOutOfRange)
    else if h.augFactor < 1 then Some(AugFactorTooSmall)
    else if checkEveryN && h.cpSaveType == EveryN && h.cpEveryN.None? then Some(EveryNMissing)
    else if checkEveryN && h.cpSaveType == EveryN && (h.cpEveryN.value < 1 || h.cpEveryN.value > h.numEpochs)
    then Some(EveryNOutOfRange)
    else if h.numClasses < 1 then Some(NumClassesTooSmall)
    else None
  }

  /** The chain reports the FIRST violated check: every check before it in source order passes. */
  lemma EarlierChecksPass(h: Hyperparameters, checkEveryN: bool, f: OptionFailure)
    requires CheckHyperparameters(h, checkEveryN) == Some(f)
    ensures forall g :: Rank(g) < Rank(f) ==> !Violates(h, checkEveryN, g)
  {
    forall g | Rank(g) < Rank(f) ensures !Violates(h, checkEveryN, g) {
      match g
      case LearningRateNotFloat =>
      case LearningRateAboveOne =>
      case UnknownOptimizer =>
      case UnknownAcqPlane =>
      case GammaNotFloat =>
      case GammaAboveOne =>
      case TrainPropNotFloat =>
      case TrainPropAboveOne =>
      case BatchSizeTooSmall =>
      case NumEpochsTooSmall =>
      case BatchFactorTooSmall =>
      case PatienceOutOfRange =>
      case AugFactorTooSmall =>
      case EveryNMissing =>
      case EveryNOutOfRange =>
      case NumClassesTooSmall =>
    }
  }

  /** The hyperparameters are accepted exactly when no single check raises. */
  lemma AcceptedIffNoViolation(h: Hyperparameters, checkEveryN: bool)
    ensures Accepted(h, checkEveryN) <==> forall g :: !Violates(h, checkEveryN, g)
  {
    if Accepted(h, checkEveryN) {
      forall g ensures !Violates(h, checkEveryN, g) {
        match g
        case LearningRateNotFloat =>
        case LearningRateAboveOne =>
        case UnknownOptimizer =>
        case UnknownAcqPlane =>
        case GammaNotFloat =>
        case GammaAboveOne =>
        case TrainPropNotFloat =>
        case TrainPropAboveOne =>
        case BatchSizeTooSmall =>
        case NumEpochsTooSmall =>
        case BatchFactorTooSmall =>
        case PatienceOutOfRange =>
        case AugFactorTooSmall =>
        case EveryNMissing =>
        case EveryNOutOfRange =>
        case NumClassesTooSmall =>
      }
    } else {
      var f := CheckHyperparameters(h, checkEveryN).value;
      assert Violates(h, checkEveryN, f);
    }
  }

  /** `save_wei`: only the weights are saved unless the full model is asked for with the string 'True'. */
  function SaveWeights(saveFullModel: string): bool {
    saveFullModel != "True"
  }
}
