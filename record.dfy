/**
  The aggregate kept per nodeclaim (Nodeclaimstruct, parser/parser.go:24-57),
  its fields grouped by the lifecycle phase that writes them, and the
  explicit ordered list of field names that the header row is built from.
 */
module Record {

  /**
    One nodeclaim's record. Timestamps and the disruption counts stay raw
    text, so "" (never seen) differs from any value. The three durations are
    nanoseconds (Go's time.Duration); the float seconds fields are not kept.
   */
  datatype Nodeclaim = Nodeclaim(
    // creation
    createdTime: string,
    nodePool: string,
    instanceTypes: string,
    // launch
    launchedTime: string,
    providerId: string,
    instanceType: string,
    zone: string,
    capacityType: string,
    // registration
    registeredTime: string,
    k8sNodeName: string,
    // initialization
    initializedTime: string,
    nodeReadyTime: int,
    // disruption
    disruptionTime: string,
    disruptionReason: string,
    disruptionDecision: string,
    disruptedNodeCount: string,
    replacementNodeCount: string,
    disruptedPodCount: string,
    // annotation
    annotationTime: string,
    annotation: string,
    // taint
    taintTime: string,
    taint: string,
    // interruption
    interruptionTime: string,
    interruptionKind: string,
    // deletion
    deletedTime: string,
    nodeTerminationTime: int,
    nodeLifecycleTime: int,
    // flags
    initialized: bool,
    deleted: bool)

  /** The zero value of the record: every string "", every duration 0, both flags false. */
  function Blank(): Nodeclaim
  {
    Nodeclaim("", "", "", "", "", "", "", "", "", "", "", 0, "", "", "", "", "", "", "", "", "", "", "", "", "", 0, 0, false, false)
  }

  /** The lifecycle phases; each event kind writes the fields of exactly one phase. */
  datatype Phase =
    | CreationPhase | LaunchPhase | RegistrationPhase | InitializationPhase | DisruptionPhase
    | AnnotationPhase | TaintPhase | InterruptionPhase | DeletionPhase

  /** `a` and `b` agree on every field of phase `ph`. */
  predicate SamePhase(a: Nodeclaim, b: Nodeclaim, ph: Phase)
  {
    match ph
    case CreationPhase =>
      a.createdTime == b.createdTime && a.nodePool == b.nodePool && a.instanceTypes == b.instanceTypes
    case LaunchPhase =>
      a.launchedTime == b.launchedTime && a.providerId == b.providerId && a.instanceType == b.instanceType
      && a.zone == b.zone && a.capacityType == b.capacityType
    case RegistrationPhase =>
      a.registeredTime == b.registeredTime && a.k8sNodeName == b.k8sNodeName
    case InitializationPhase =>
      a.initializedTime == b.initializedTime && a.nodeReadyTime == b.nodeReadyTime && a.initialized == b.initialized
    case DisruptionPhase =>
      a.disruptionTime == b.disruptionTime && a.disruptionReason == b.disruptionReason
      && a.disruptionDecision == b.disruptionDecision && a.disruptedNodeCount == b.disruptedNodeCount
      && a.replacementNodeCount == b.replacementNodeCount && a.disruptedPodCount == b.disruptedPodCount
    case AnnotationPhase =>
      a.annotationTime == b.annotationTime && a.annotation == b.annotation
    case TaintPhase =>
      a.taintTime == b.taintTime && a.taint == b.taint
    case InterruptionPhase =>
      a.interruptionTime == b.interruptionTime && a.interruptionKind == b.interruptionKind
    case DeletionPhase =>
      a.deletedTime == b.deletedTime && a.nodeTerminationTime == b.nodeTerminationTime
      && a.nodeLifecycleTime == b.nodeLifecycleTime && a.deleted == b.deleted
  }

  /** `a` with the fields of phase `ph` taken from `b`. */
  function WithPhase(a: Nodeclaim, b: Nodeclaim, ph: Phase): Nodeclaim
  {
    match ph
    case CreationPhase => a.(createdTime := b.createdTime, nodePool := b.nodePool, instanceTypes := b.instanceTypes)
    case LaunchPhase =>
      a.(launchedTime := b.launchedTime, providerId := b.providerId, instanceType := b.instanceType,
         zone := b.zone, capacityType := b.capacityType)
    case RegistrationPhase => a.(registeredTime := b.registeredTime, k8sNodeName := b.k8sNodeName)
    case InitializationPhase =>
      a.(initializedTime := b.initializedTime, nodeReadyTime := b.nodeReadyTime, initialized := b.initialized)
    case DisruptionPhase =>
      a.(disruptionTime := b.disruptionTime, disruptionReason := b.disruptionReason,
         disruptionDecision := b.disruptionDecision, disruptedNodeCount := b.disruptedNodeCount,
         replacementNodeCount := b.replacementNodeCount, disruptedPodCount := b.disruptedPodCount)
    case AnnotationPhase => a.(annotationTime := b.annotationTime, annotation := b.annotation)
    case TaintPhase => a.(taintTime := b.taintTime, taint := b.taint)
    case InterruptionPhase => a.(interruptionTime := b.interruptionTime, interruptionKind := b.interruptionKind)
    case DeletionPhase =>
      a.(deletedTime := b.deletedTime, nodeTerminationTime := b.nodeTerminationTime,
         nodeLifecycleTime := b.nodeLifecycleTime, deleted := b.deleted)
  }

  /** `b` differs from `a` at most in the fields of phase `ph`. */
  predicate OnlyPhaseChanged(a: Nodeclaim, b: Nodeclaim, ph: Phase)
  {
    b == WithPhase(a, b, ph)
  }

  /** A record changed only in phase `ph` agrees with the old one on every other phase. */
  lemma OtherPhasesKept(a: Nodeclaim, b: Nodeclaim, ph: Phase, q: Phase)
    requires OnlyPhaseChanged(a, b, ph) && q != ph
    ensures SamePhase(a, b, q)
  {
    match ph
    case CreationPhase =>
    case LaunchPhase =>
    case RegistrationPhase =>
    case InitializationPhase =>
    case DisruptionPhase =>
    case AnnotationPhase =>
    case TaintPhase =>
    case InterruptionPhase =>
    case DeletionPhase =>
  }

  /** Records that agree on every phase are equal: the phases cover all fields. */
  lemma PhasesCoverRecord(a: Nodeclaim, b: Nodeclaim)
    requires forall q: Phase :: SamePhase(a, b, q)
    ensures a == b
  {
    assert SamePhase(a, b, CreationPhase) && SamePhase(a, b, LaunchPhase) && SamePhase(a, b, RegistrationPhase);
    assert SamePhase(a, b, InitializationPhase) && SamePhase(a, b, DisruptionPhase) && SamePhase(a, b, AnnotationPhase);
    assert SamePhase(a, b, TaintPhase) && SamePhase(a, b, InterruptionPhase) && SamePhase(a, b, DeletionPhase);
  }

  /**
    The field names of the record in declaration order (parser/parser.go:25-56),
    the single source of column order for the header row.
   */
  function FieldNames(): (names: seq<string>)
    ensures |names| == 32
  {
    ["Createdtime", "Nodepool", "Instancetypes", "Launchedtime", "Providerid",
     "Instancetype", "Zone", "Capacitytype", "Registeredtime", "K8snodename",
     "Initializedtime", "Nodereadytime", "Nodereadytimesec", "Disruptiontime",
     "Disruptionreason", "Disruptiondecision", "Disruptednodecount",
     "Replacementnodecount", "Disruptedpodcount", "Annotationtime", "Annotation",
     "Tainttime", "Taint", "Interruptiontime", "Interruptionkind", "Deletedtime",
     "Nodeterminationtime", "Nodeterminationtimesec", "Nodelifecycletime",
     "Nodelifecycletimesec", "Initialized", "Deleted"]
  }

  /** No field name contains a comma, the separator of the header row. */
  lemma FieldNamesHaveNoComma()
    ensures forall j :: 0 <= j < 32 ==> ',' !in FieldNames()[j]
  {
    FirstNamesHaveNoComma();
    MiddleNamesHaveNoComma();
    LastNamesHaveNoComma();
  }

  // The three parts of FieldNamesHaveNoComma, each checked on its own.

  lemma FirstNamesHaveNoComma()
    ensures forall j :: 0 <= j < 11 ==> ',' !in FieldNames()[j]
  {
  }

  lemma MiddleNamesHaveNoComma()
    ensures forall j :: 11 <= j < 22 ==> ',' !in FieldNames()[j]
  {
  }

  lemma LastNamesHaveNoComma()
    ensures forall j :: 22 <= j < 32 ==> ',' !in FieldNames()[j]
  {
  }
}
