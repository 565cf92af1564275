/**
  The value-level meaning of ParseKarpenterLogs (parser/parser.go:135-529):
  what one log line does to the pair of maps the parser keeps, and what a
  whole stream of lines does. The class in module Engine is proved to act
  exactly as these functions say.
 */
module Aggregation {
  import opened Wrappers
  import opened Text
  import opened Record
  import opened Events

  /**
    The parser's two maps: the registry from nodeclaim name to its record
    (nodeclaimmap) and the index from Kubernetes node name to nodeclaim name
    (k8snodenamemap).
   */
  datatype State = State(registry: map<string, Nodeclaim>, index: map<string, string>)

  /** Both maps start empty (main.go:32-35). */
  function Empty(): State
  {
    State(map[], map[])
  }

  /**
    The structural invariant: every node name in the index leads to a
    nodeclaim that has a record. It holds because entries are never removed
    and the index is written only for a record that exists.
   */
  predicate Inv(st: State)
  {
    forall n :: n in st.index ==> st.index[n] in st.registry
  }

  /** Elapsed nanoseconds between two timestamps under the timestamp parser `parse`. */
  function Elapsed(parse: string -> int, start: string, end: string): int
  {
    parse(end) - parse(start)
  }

  // ---------------------------------------------------------------------
  // What each event does to one record
  // ---------------------------------------------------------------------

  /** The fresh record a "created nodeclaim" line stores (parser/parser.go:155-209). */
  function NewNodeclaim(sub: Submatch): (r: Nodeclaim)
    requires |sub| == Groups(CreatedPattern) + 1
    ensures r.createdTime == sub[1] && r.nodePool == sub[2]
    ensures r.instanceTypes == NormalizeInstanceTypes(sub[4]) && ' ' !in r.instanceTypes
    ensures OnlyPhaseChanged(Blank(), r, CreationPhase)
  {
    Blank().(createdTime := sub[1], nodePool := sub[2], instanceTypes := NormalizeInstanceTypes(sub[4]))
  }

  /** A "launched nodeclaim" line applied to an existing record (parser/parser.go:222-238). */
  function Launch(e: Nodeclaim, sub: Submatch): (r: Nodeclaim)
    requires |sub| == Groups(LaunchedPattern) + 1
    ensures r.launchedTime == sub[1] && r.instanceType == sub[4] && r.zone == sub[5] && r.capacityType == sub[6]
    ensures r.providerId == LastSegment(sub[3]) && '/' !in r.providerId
    ensures OnlyPhaseChanged(e, r, LaunchPhase)
  {
    e.(launchedTime := sub[1], providerId := LastSegment(sub[3]), instanceType := sub[4],
       zone := sub[5], capacityType := sub[6])
  }

  /** A "registered nodeclaim" line applied to an existing record (parser/parser.go:254-264). */
  function Register(e: Nodeclaim, sub: Submatch): (r: Nodeclaim)
    requires |sub| == Groups(RegisteredPattern) + 1
    ensures r.registeredTime == sub[1] && r.k8sNodeName == sub[3]
    ensures OnlyPhaseChanged(e, r, RegistrationPhase)
  {
    e.(registeredTime := sub[1], k8sNodeName := sub[3])
  }

  /**
    An "initialized nodeclaim" line (parser/parser.go:280-294): the time is
    stored as given, the record is marked initialized even when the time is
    empty, and the startup duration is computed only when both the creation
    and the initialization time are known; otherwise it keeps its value.
   */
  function Initialize(e: Nodeclaim, time: string, parse: string -> int): (r: Nodeclaim)
    ensures r.initializedTime == time && r.initialized
    ensures time != "" && e.createdTime != "" ==> r.nodeReadyTime == parse(time) - parse(e.createdTime)
    ensures time == "" || e.createdTime == "" ==> r.nodeReadyTime == e.nodeReadyTime
    ensures OnlyPhaseChanged(e, r, InitializationPhase)
  {
    var ready := if time != "" && e.createdTime != "" then Elapsed(parse, e.createdTime, time) else e.nodeReadyTime;
    e.(initializedTime := time, nodeReadyTime := ready, initialized := true)
  }

  /** A "disrupting node(s)" line (parser/parser.go:310-332): the six disruption fields, last write wins. */
  function Disrupt(e: Nodeclaim, sub: Submatch): (r: Nodeclaim)
    requires |sub| == Groups(DisruptingPattern) + 1
    ensures r.disruptionTime == sub[1] && r.disruptionReason == sub[2] && r.disruptionDecision == sub[3]
    ensures r.disruptedNodeCount == sub[4] && r.replacementNodeCount == sub[5] && r.disruptedPodCount == sub[6]
    ensures OnlyPhaseChanged(e, r, DisruptionPhase)
  {
    e.(disruptionTime := sub[1], disruptionReason := sub[2], disruptionDecision := sub[3],
       disruptedNodeCount := sub[4], replacementNodeCount := sub[5], disruptedPodCount := sub[6])
  }

  /** An "initiating delete from interruption message" line (parser/parser.go:347-356). */
  function Interrupt(e: Nodeclaim, sub: Submatch): (r: Nodeclaim)
    requires |sub| == Groups(InterruptionPattern) + 1
    ensures r.interruptionTime == sub[1] && r.interruptionKind == sub[2]
    ensures OnlyPhaseChanged(e, r, InterruptionPhase)
  {
    e.(interruptionTime := sub[1], interruptionKind := sub[2])
  }

  /**
    An "annotated nodeclaim" line (parser/parser.go:372-385): the annotation
    becomes "key:value", replacing whatever annotation the record held.
   */
  function Annotate(e: Nodeclaim, sub: Submatch): (r: Nodeclaim)
    requires |sub| == Groups(AnnotatedPattern) + 1
    ensures r.annotationTime == sub[1] && r.annotation == sub[3] + ":" + sub[4]
    ensures OnlyPhaseChanged(e, r, AnnotationPhase)
  {
    e.(annotationTime := sub[1], annotation := sub[3] + ":" + sub[4])
  }

  /**
    A "tainted node" line that carries the taint (parser/parser.go:400-418 and
    437-452): the taint becomes "key:value:effect", replacing the old one.
   */
  function TaintWith(e: Nodeclaim, time: string, key: string, value: string, effect: string): (r: Nodeclaim)
    ensures r.taintTime == time && r.taint == key + ":" + value + ":" + effect
    ensures OnlyPhaseChanged(e, r, TaintPhase)
  {
    e.(taintTime := time, taint := key + ":" + value + ":" + effect)
  }

  /** A Karpenter 0.37 "tainted node" line, which has no taint: only the time (parser/parser.go:470-476). */
  function TaintTimeOnly(e: Nodeclaim, time: string): (r: Nodeclaim)
    ensures r.taintTime == time && r.taint == e.taint
    ensures OnlyPhaseChanged(e, r, TaintPhase)
  {
    e.(taintTime := time)
  }

  /**
    A "deleted nodeclaim" line (parser/parser.go:497-519): marked deleted
    even when the time is empty; with a time, the lifecycle duration is
    computed when the creation time is known and the termination duration
    when the annotation time is known; each keeps its value otherwise.
   */
  function Delete(e: Nodeclaim, time: string, parse: string -> int): (r: Nodeclaim)
    ensures r.deletedTime == time && r.deleted
    ensures time != "" && e.createdTime != "" ==> r.nodeLifecycleTime == parse(time) - parse(e.createdTime)
    ensures time == "" || e.createdTime == "" ==> r.nodeLifecycleTime == e.nodeLifecycleTime
    ensures time != "" && e.annotationTime != "" ==> r.nodeTerminationTime == parse(time) - parse(e.annotationTime)
    ensures time == "" || e.annotationTime == "" ==> r.nodeTerminationTime == e.nodeTerminationTime
    ensures OnlyPhaseChanged(e, r, DeletionPhase)
  {
    var lifecycle := if time != "" && e.createdTime != "" then Elapsed(parse, e.createdTime, time) else e.nodeLifecycleTime;
    var termination := if time != "" && e.annotationTime != "" then Elapsed(parse, e.annotationTime, time) else e.nodeTerminationTime;
    e.(deletedTime := time, nodeLifecycleTime := lifecycle, nodeTerminationTime := termination, deleted := true)
  }

  // ---------------------------------------------------------------------
  // What each event does to the two maps
  // ---------------------------------------------------------------------

  /** A nodeclaim name the handlers act on: non-empty and already in the registry. */
  predicate Known(st: State, id: string)
  {
    id != "" && id in st.registry
  }

  /** A node name the tier-2 and tier-3 taint handlers act on: non-empty and indexed. */
  predicate KnownNode(st: State, node: string)
  {
    node != "" && node in st.index && st.index[node] in st.registry
  }

  /** `r` is `st` with only the record of `id` replaced; the keys and the index are kept. */
  predicate OnlyRecordChanged(st: State, r: State, id: string)
  {
    r.index == st.index && id in st.registry && id in r.registry
    && r.registry == st.registry[id := r.registry[id]]
  }

  /** Read out: the same names have records, and every record but that of `id` is the old one. */
  lemma OnlyRecordChangedKeeps(st: State, r: State, id: string, k: string)
    requires OnlyRecordChanged(st, r, id)
    ensures r.index == st.index && r.registry.Keys == st.registry.Keys
    ensures k in st.registry && k != id ==> r.registry[k] == st.registry[k]
  {
  }

  /**
    "created nodeclaim": stores a fresh record under the nodeclaim name,
    discarding any record stored under it before. The name is not checked
    for being empty.
   */
  function ApplyCreated(st: State, sub: Option<Submatch>): (r: State)
    requires sub.Some? ==> |sub.value| == Groups(CreatedPattern) + 1
    ensures sub.None? ==> r == st
    ensures sub.Some? ==>
      var id := sub.value[3];
      r.index == st.index && r.registry.Keys == st.registry.Keys + {id} && r.registry[id] == NewNodeclaim(sub.value)
      && forall k :: k in st.registry && k != id ==> r.registry[k] == st.registry[k]
    ensures Inv(st) ==> Inv(r)
  {
    if sub.None? then st
    else st.(registry := st.registry[sub.value[3] := NewNodeclaim(sub.value)])
  }

  /** "launched nodeclaim": updates the record of a known nodeclaim, otherwise nothing. */
  function ApplyLaunched(st: State, sub: Option<Submatch>): (r: State)
    requires sub.Some? ==> |sub.value| == Groups(LaunchedPattern) + 1
    ensures sub.None? || !Known(st, sub.value[2]) ==> r == st
    ensures sub.Some? && Known(st, sub.value[2]) ==>
      var id := sub.value[2];
      OnlyRecordChanged(st, r, id) && r.registry[id] == Launch(st.registry[id], sub.value)
  {
    if sub.Some? && Known(st, sub.value[2]) then
      var id := sub.value[2];
      st.(registry := st.registry[id := Launch(st.registry[id], sub.value)])
    else st
  }

  /**
    "registered nodeclaim": updates the record of a known nodeclaim and maps
    the node name to it, overwriting an earlier mapping of that node name.
    The node name is not checked for being empty.
   */
  function ApplyRegistered(st: State, sub: Option<Submatch>): (r: State)
    requires sub.Some? ==> |sub.value| == Groups(RegisteredPattern) + 1
    ensures sub.None? || !Known(st, sub.value[2]) ==> r == st
    ensures sub.Some? && Known(st, sub.value[2]) ==>
      var id, node := sub.value[2], sub.value[3];
      r.registry.Keys == st.registry.Keys && r.registry[id] == Register(st.registry[id], sub.value)
      && (forall k :: k in st.registry && k != id ==> r.registry[k] == st.registry[k])
      && r.index.Keys == st.index.Keys + {node} && r.index[node] == id
      && (forall n :: n in st.index && n != node ==> r.index[n] == st.index[n])
    ensures Inv(st) ==> Inv(r)
  {
    if sub.Some? && Known(st, sub.value[2]) then
      var id := sub.value[2];
      State(st.registry[id := Register(st.registry[id], sub.value)], st.index[sub.value[3] := id])
    else st
  }

  /** "initialized nodeclaim": updates the record of a known nodeclaim, otherwise nothing. */
  function ApplyInitialized(st: State, sub: Option<Submatch>, parse: string -> int): (r: State)
    requires sub.Some? ==> |sub.value| == Groups(ClaimNamespacePattern) + 1
    ensures sub.None? || !Known(st, sub.value[2]) ==> r == st
    ensures sub.Some? && Known(st, sub.value[2]) ==>
      var id := sub.value[2];
      OnlyRecordChanged(st, r, id) && r.registry[id] == Initialize(st.registry[id], sub.value[1], parse)
  {
    if sub.Some? && Known(st, sub.value[2]) then
      var id := sub.value[2];
      st.(registry := st.registry[id := Initialize(st.registry[id], sub.value[1], parse)])
    else st
  }

  /** "disrupting node(s)": the nodeclaim name is the seventh group. */
  function ApplyDisrupting(st: State, sub: Option<Submatch>): (r: State)
    requires sub.Some? ==> |sub.value| == Groups(DisruptingPattern) + 1
    ensures sub.None? || !Known(st, sub.value[7]) ==> r == st
    ensures sub.Some? && Known(st, sub.value[7]) ==>
      var id := sub.value[7];
      OnlyRecordChanged(st, r, id) && r.registry[id] == Disrupt(st.registry[id], sub.value)
  {
    if sub.Some? && Known(st, sub.value[7]) then
      var id := sub.value[7];
      st.(registry := st.registry[id := Disrupt(st.registry[id], sub.value)])
    else st
  }

  /** "initiating delete from interruption message": the nodeclaim name is the third group. */
  function ApplyInterruption(st: State, sub: Option<Submatch>): (r: State)
    requires sub.Some? ==> |sub.value| == Groups(InterruptionPattern) + 1
    ensures sub.None? || !Known(st, sub.value[3]) ==> r == st
    ensures sub.Some? && Known(st, sub.value[3]) ==>
      var id := sub.value[3];
      OnlyRecordChanged(st, r, id) && r.registry[id] == Interrupt(st.registry[id], sub.value)
  {
    if sub.Some? && Known(st, sub.value[3]) then
      var id := sub.value[3];
      st.(registry := st.registry[id := Interrupt(st.registry[id], sub.value)])
    else st
  }

  /** "annotated nodeclaim": updates the record of a known nodeclaim, otherwise nothing. */
  function ApplyAnnotated(st: State, sub: Option<Submatch>): (r: State)
    requires sub.Some? ==> |sub.value| == Groups(AnnotatedPattern) + 1
    ensures sub.None? || !Known(st, sub.value[2]) ==> r == st
    ensures sub.Some? && Known(st, sub.value[2]) ==>
      var id := sub.value[2];
      OnlyRecordChanged(st, r, id) && r.registry[id] == Annotate(st.registry[id], sub.value)
  {
    if sub.Some? && Known(st, sub.value[2]) then
      var id := sub.value[2];
      st.(registry := st.registry[id := Annotate(st.registry[id], sub.value)])
    else st
  }

  /**
    "tainted node", three tiers tried in order (parser/parser.go:391-486):
    the Karpenter 1.1 pattern names the nodeclaim; failing that, the 1.0
    pattern names the node, resolved through the index; failing that, the
    0.37 pattern names the node and carries no taint, so only the time is
    stored. A tier whose pattern matched but whose name is empty or unknown
    does nothing and does not fall through.
   */
  function ApplyTainted(st: State, claim: Option<Submatch>, node: Option<Submatch>, bare: Option<Submatch>): (r: State)
    requires claim.Some? ==> |claim.value| == Groups(TaintClaimPattern) + 1
    requires node.Some? ==> |node.value| == Groups(TaintNodePattern) + 1
    requires bare.Some? ==> |bare.value| == Groups(NodeNamespacePattern) + 1
    ensures claim.Some? && Known(st, claim.value[2]) ==>
      var s, id := claim.value, claim.value[2];
      OnlyRecordChanged(st, r, id) && r.registry[id] == TaintWith(st.registry[id], s[1], s[3], s[4], s[5])
    ensures claim.None? && node.Some? && KnownNode(st, node.value[2]) ==>
      var s, id := node.value, st.index[node.value[2]];
      OnlyRecordChanged(st, r, id) && r.registry[id] == TaintWith(st.registry[id], s[1], s[3], s[4], s[5])
    ensures claim.None? && node.None? && bare.Some? && KnownNode(st, bare.value[2]) ==>
      var id := st.index[bare.value[2]];
      OnlyRecordChanged(st, r, id) && r.registry[id] == TaintTimeOnly(st.registry[id], bare.value[1])
    ensures claim.Some? && !Known(st, claim.value[2]) ==> r == st
    ensures claim.None? && node.Some? && !KnownNode(st, node.value[2]) ==> r == st
    ensures claim.None? && node.None? && (bare.None? || !KnownNode(st, bare.value[2])) ==> r == st
  {
    if claim.Some? then
      var s := claim.value;
      if Known(st, s[2]) then st.(registry := st.registry[s[2] := TaintWith(st.registry[s[2]], s[1], s[3], s[4], s[5])])
      else st
    else if node.Some? then
      var s := node.value;
      if KnownNode(st, s[2]) then
        var id := st.index[s[2]];
        st.(registry := st.registry[id := TaintWith(st.registry[id], s[1], s[3], s[4], s[5])])
      else st
    else if bare.Some? && KnownNode(st, bare.value[2]) then
      var id := st.index[bare.value[2]];
      st.(registry := st.registry[id := TaintTimeOnly(st.registry[id], bare.value[1])])
    else st
  }

  /** "deleted nodeclaim": updates the record of a known nodeclaim, otherwise nothing. */
  function ApplyDeleted(st: State, sub: Option<Submatch>, parse: string -> int): (r: State)
    requires sub.Some? ==> |sub.value| == Groups(ClaimNamespacePattern) + 1
    ensures sub.None? || !Known(st, sub.value[2]) ==> r == st
    ensures sub.Some? && Known(st, sub.value[2]) ==>
      var id := sub.value[2];
      OnlyRecordChanged(st, r, id) && r.registry[id] == Delete(st.registry[id], sub.value[1], parse)
  {
    if sub.Some? && Known(st, sub.value[2]) then
      var id := sub.value[2];
      st.(registry := st.registry[id := Delete(st.registry[id], sub.value[1], parse)])
    else st
  }

  // ---------------------------------------------------------------------
  // One line, and a stream of lines
  // ---------------------------------------------------------------------

  /** The line is a "created nodeclaim" line whose pattern matched with nodeclaim name `id`. */
  predicate Creates(line: Line, id: string)
  {
    KindOf(line) == Some(CreatedNodeclaim)
    && CreatedPattern in line.submatches && |line.submatches[CreatedPattern]| > 3
    && line.submatches[CreatedPattern][3] == id
  }

  /**
    ParseKarpenterLogs on one line: classify the message, then apply the
    handler of its kind to the submatches of that kind's pattern(s).
   */
  function Step(st: State, line: Line, parse: string -> int): State
    requires WellFormed(line)
  {
    match KindOf(line)
    case None => st
    case Some(k) => Handle(st, k, line, parse)
  }

  /** The handler of kind `k` applied to the submatches of that kind's pattern(s). */
  function Handle(st: State, k: Kind, line: Line, parse: string -> int): State
    requires WellFormed(line)
  {
    match k
    case CreatedNodeclaim => ApplyCreated(st, MatchPattern(line, CreatedPattern))
    case LaunchedNodeclaim => ApplyLaunched(st, MatchPattern(line, LaunchedPattern))
    case RegisteredNodeclaim => ApplyRegistered(st, MatchPattern(line, RegisteredPattern))
    case InitializedNodeclaim => ApplyInitialized(st, MatchPattern(line, ClaimNamespacePattern), parse)
    case DisruptingNodes => ApplyDisrupting(st, MatchPattern(line, DisruptingPattern))
    case InterruptionDelete => ApplyInterruption(st, MatchPattern(line, InterruptionPattern))
    case AnnotatedNodeclaim => ApplyAnnotated(st, MatchPattern(line, AnnotatedPattern))
    case TaintedNode =>
      ApplyTainted(st, MatchPattern(line, TaintClaimPattern), MatchPattern(line, TaintNodePattern),
                   MatchPattern(line, NodeNamespacePattern))
    case DeletedNodeclaim => ApplyDeleted(st, MatchPattern(line, ClaimNamespacePattern), parse)
  }

  /** One line keeps the index invariant. */
  lemma StepPreservesInv(st: State, line: Line, parse: string -> int)
    requires WellFormed(line) && Inv(st)
    ensures Inv(Step(st, line, parse))
  {
    match KindOf(line)
    case None =>
    case Some(k) =>
      match k
      case CreatedNodeclaim =>
      case LaunchedNodeclaim =>
      case RegisteredNodeclaim =>
      case InitializedNodeclaim =>
      case DisruptingNodes =>
      case InterruptionDelete =>
      case AnnotatedNodeclaim =>
      case TaintedNode =>
      case DeletedNodeclaim =>
  }

  /** A line whose message is missing or not one of the nine kinds changes nothing. */
  lemma StepIgnoresUnclassified(st: State, line: Line, parse: string -> int)
    requires WellFormed(line) && KindOf(line).None?
    ensures Step(st, line, parse) == st
  {
  }

  /** One line removes no record and no index entry. */
  lemma StepKeepsKeys(st: State, line: Line, parse: string -> int)
    requires WellFormed(line)
    ensures st.registry.Keys <= Step(st, line, parse).registry.Keys
    ensures st.index.Keys <= Step(st, line, parse).index.Keys
  {
    match KindOf(line)
    case None =>
    case Some(k) =>
      match k
      case CreatedNodeclaim =>
      case LaunchedNodeclaim =>
      case RegisteredNodeclaim =>
      case InitializedNodeclaim =>
      case DisruptingNodes =>
      case InterruptionDelete =>
      case AnnotatedNodeclaim =>
      case TaintedNode =>
      case DeletedNodeclaim =>
  }

  /** One line adds a record only when it is a "created nodeclaim" line, under its own nodeclaim name. */
  lemma StepNewRecords(st: State, line: Line, parse: string -> int)
    requires WellFormed(line)
    ensures forall id :: id in Step(st, line, parse).registry && id !in st.registry ==> Creates(line, id)
  {
    match KindOf(line)
    case None =>
    case Some(k) =>
      match k
      case CreatedNodeclaim =>
      case LaunchedNodeclaim =>
      case RegisteredNodeclaim =>
      case InitializedNodeclaim =>
      case DisruptingNodes =>
      case InterruptionDelete =>
      case AnnotatedNodeclaim =>
      case TaintedNode =>
      case DeletedNodeclaim =>
  }

  /** Only a "registered nodeclaim" line touches the index. */
  lemma StepIndexOnlyOnRegistered(st: State, line: Line, parse: string -> int)
    requires WellFormed(line) && KindOf(line) != Some(RegisteredNodeclaim)
    ensures Step(st, line, parse).index == st.index
  {
    match KindOf(line)
    case None =>
    case Some(k) =>
      match k
      case CreatedNodeclaim =>
      case LaunchedNodeclaim =>
      case RegisteredNodeclaim =>
      case InitializedNodeclaim =>
      case DisruptingNodes =>
      case InterruptionDelete =>
      case AnnotatedNodeclaim =>
      case TaintedNode =>
      case DeletedNodeclaim =>
  }

  /** Every line of a stream is well formed. */
  predicate AllWellFormed(lines: seq<Line>)
  {
    forall i :: 0 <= i < |lines| ==> WellFormed(lines[i])
  }

  /** NonBlockingParser (parser/parser.go:124-131): the lines applied one after another. */
  function Fold(st: State, lines: seq<Line>, parse: string -> int): State
    requires AllWellFormed(lines)
    decreases |lines|
  {
    if lines == [] then st else Fold(Step(st, lines[0], parse), lines[1..], parse)
  }

  /** The index invariant holds after any stream of lines. */
  lemma {:induction false} FoldPreservesInv(st: State, lines: seq<Line>, parse: string -> int)
    requires AllWellFormed(lines) && Inv(st)
    ensures Inv(Fold(st, lines, parse))
    decreases |lines|
  {
    if lines != [] {
      StepPreservesInv(st, lines[0], parse);
      FoldPreservesInv(Step(st, lines[0], parse), lines[1..], parse);
    }
  }

  /**
    Records and index entries are never removed, and a nodeclaim name gets
    a record only through a "created nodeclaim" line of the stream.
   */
  lemma {:induction false} FoldKeys(st: State, lines: seq<Line>, parse: string -> int)
    requires AllWellFormed(lines)
    ensures st.registry.Keys <= Fold(st, lines, parse).registry.Keys
    ensures st.index.Keys <= Fold(st, lines, parse).index.Keys
    ensures forall id :: id in Fold(st, lines, parse).registry && id !in st.registry ==>
      exists i :: 0 <= i < |lines| && Creates(lines[i], id)
    decreases |lines|
  {
    if lines != [] {
      var next := Step(st, lines[0], parse);
      StepKeepsKeys(st, lines[0], parse);
      StepNewRecords(st, lines[0], parse);
      FoldKeys(next, lines[1..], parse);
      forall id | id in Fold(st, lines, parse).registry && id !in st.registry
        ensures exists i :: 0 <= i < |lines| && Creates(lines[i], id)
      {
        if id in next.registry {
          assert Creates(lines[0], id);
        } else {
          var i :| 0 <= i < |lines[1..]| && Creates(lines[1..][i], id);
          assert Creates(lines[i + 1], id);
        }
      }
    }
  }

  /** Every record of a stream read from empty maps comes from one of its "created nodeclaim" lines. */
  lemma EveryRecordWasCreated(lines: seq<Line>, parse: string -> int)
    requires AllWellFormed(lines)
    ensures Inv(Fold(Empty(), lines, parse))
    ensures forall id :: id in Fold(Empty(), lines, parse).registry ==>
      exists i :: 0 <= i < |lines| && Creates(lines[i], id)
  {
    FoldPreservesInv(Empty(), lines, parse);
    FoldKeys(Empty(), lines, parse);
  }

  /** The stream of lines a stream `a + b` is read as: `a` first, then `b` from where `a` left off. */
  lemma {:induction false} FoldAppend(st: State, a: seq<Line>, b: seq<Line>, parse: string -> int)
    requires AllWellFormed(a) && AllWellFormed(b)
    ensures AllWellFormed(a + b)
    ensures Fold(st, a + b, parse) == Fold(Fold(st, a, parse), b, parse)
    decreases |a|
  {
    assert AllWellFormed(a + b) by {
      forall i | 0 <= i < |a + b| ensures WellFormed((a + b)[i]) {
        if i < |a| { assert (a + b)[i] == a[i]; } else { assert (a + b)[i] == b[i - |a|]; }
      }
    }
    if a == [] {
      assert a + b == b;
    } else {
      assert (a + b)[0] == a[0] && (a + b)[1..] == a[1..] + b;
      assert AllWellFormed(a[1..]) by {
        forall i | 0 <= i < |a[1..]| ensures WellFormed(a[1..][i]) { assert a[1..][i] == a[i + 1]; }
      }
      FoldAppend(Step(st, a[0], parse), a[1..], b, parse);
    }
  }

  // ---------------------------------------------------------------------
  // Scenarios
  // ---------------------------------------------------------------------

  /** A line of kind `k` on which exactly the pattern `p` matched, with submatches `sub`. */
  function EventLine(k: Kind, p: Pattern, sub: Submatch): (line: Line)
    requires |sub| == Groups(p) + 1
    ensures WellFormed(line) && KindOf(line) == Some(k) && MatchPattern(line, p) == Some(sub)
    ensures forall q :: q != p ==> MatchPattern(line, q).None?
  {
    ClassifyMessageText(k);
    Line(Some(MessageText(k)), map[p := sub])
  }

  /**
    created, launched, registered, initialized and deleted for one nodeclaim
    from empty maps: with timestamps the parser reads in increasing order, the
    startup and lifecycle durations are the differences to the creation time
    and are not negative; the node name resolves to the nodeclaim.
   */
  lemma Lifecycle(c: Submatch, l: Submatch, g: Submatch, i: Submatch, d: Submatch, parse: string -> int)
    requires |c| == 5 && |l| == 7 && |g| == 4 && |i| == 3 && |d| == 3
    requires c[3] != "" && l[2] == c[3] && g[2] == c[3] && i[2] == c[3] && d[2] == c[3]
    requires c[1] != "" && i[1] != "" && d[1] != ""
    requires parse(c[1]) <= parse(i[1]) <= parse(d[1])
    ensures var lines := [EventLine(CreatedNodeclaim, CreatedPattern, c), EventLine(LaunchedNodeclaim, LaunchedPattern, l),
                          EventLine(RegisteredNodeclaim, RegisteredPattern, g), EventLine(InitializedNodeclaim, ClaimNamespacePattern, i),
                          EventLine(DeletedNodeclaim, ClaimNamespacePattern, d)];
      AllWellFormed(lines) &&
      var st := Fold(Empty(), lines, parse);
      && c[3] in st.registry
      && st.registry[c[3]].nodeReadyTime == parse(i[1]) - parse(c[1]) >= 0
      && st.registry[c[3]].nodeLifecycleTime == parse(d[1]) - parse(c[1]) >= 0
      && st.registry[c[3]].initialized && st.registry[c[3]].deleted
      && st.index == map[g[3] := c[3]]
  {
    var id := c[3];
    var L1, L2, L3 := EventLine(CreatedNodeclaim, CreatedPattern, c), EventLine(LaunchedNodeclaim, LaunchedPattern, l),
                      EventLine(RegisteredNodeclaim, RegisteredPattern, g);
    var L4, L5 := EventLine(InitializedNodeclaim, ClaimNamespacePattern, i), EventLine(DeletedNodeclaim, ClaimNamespacePattern, d);
    FoldFive(Empty(), L1, L2, L3, L4, L5, parse);
    var s1 := Step(Empty(), L1, parse);
    StepCreated(Empty(), L1, parse);
    var s2 := Step(s1, L2, parse);
    StepLaunched(s1, L2, parse);
    var s3 := Step(s2, L3, parse);
    StepRegistered(s2, L3, parse);
    var s4 := Step(s3, L4, parse);
    StepInitialized(s3, L4, parse);
    var s5 := Step(s4, L5, parse);
    StepDeleted(s4, L5, parse);
    assert s1.registry[id] == NewNodeclaim(c) && s1.index == map[];
    assert s2.registry[id] == Launch(s1.registry[id], l) && s2.index == map[];
    assert s3.registry[id] == Register(s2.registry[id], g) && s3.index == map[g[3] := id];
    assert s4.registry[id] == Initialize(s3.registry[id], i[1], parse) && s4.index == s3.index;
    assert s5.registry[id] == Delete(s4.registry[id], d[1], parse) && s5.index == s4.index;
    assert s4.registry[id].createdTime == c[1];
  }

  // One step on a line of a known kind is that kind's handler; the scenarios below use these.

  lemma StepCreated(st: State, line: Line, parse: string -> int)
    requires WellFormed(line) && KindOf(line) == Some(CreatedNodeclaim)
    ensures Step(st, line, parse) == ApplyCreated(st, MatchPattern(line, CreatedPattern))
  {
    assert Step(st, line, parse) == Handle(st, CreatedNodeclaim, line, parse);
  }

  lemma StepLaunched(st: State, line: Line, parse: string -> int)
    requires WellFormed(line) && KindOf(line) == Some(LaunchedNodeclaim)
    ensures Step(st, line, parse) == ApplyLaunched(st, MatchPattern(line, LaunchedPattern))
  {
    assert Step(st, line, parse) == Handle(st, LaunchedNodeclaim, line, parse);
  }

  lemma StepRegistered(st: State, line: Line, parse: string -> int)
    requires WellFormed(line) && KindOf(line) == Some(RegisteredNodeclaim)
    ensures Step(st, line, parse) == ApplyRegistered(st, MatchPattern(line, RegisteredPattern))
  {
    assert Step(st, line, parse) == Handle(st, RegisteredNodeclaim, line, parse);
  }

  lemma StepInitialized(st: State, line: Line, parse: string -> int)
    requires WellFormed(line) && KindOf(line) == Some(InitializedNodeclaim)
    ensures Step(st, line, parse) == ApplyInitialized(st, MatchPattern(line, ClaimNamespacePattern), parse)
  {
    assert Step(st, line, parse) == Handle(st, InitializedNodeclaim, line, parse);
  }

  lemma StepDisrupting(st: State, line: Line, parse: string -> int)
    requires WellFormed(line) && KindOf(line) == Some(DisruptingNodes)
    ensures Step(st, line, parse) == ApplyDisrupting(st, MatchPattern(line, DisruptingPattern))
  {
    assert Step(st, line, parse) == Handle(st, DisruptingNodes, line, parse);
  }

  lemma StepInterruption(st: State, line: Line, parse: string -> int)
    requires WellFormed(line) && KindOf(line) == Some(InterruptionDelete)
    ensures Step(st, line, parse) == ApplyInterruption(st, MatchPattern(line, InterruptionPattern))
  {
    assert Step(st, line, parse) == Handle(st, InterruptionDelete, line, parse);
  }

  lemma StepAnnotated(st: State, line: Line, parse: string -> int)
    requires WellFormed(line) && KindOf(line) == Some(AnnotatedNodeclaim)
    ensures Step(st, line, parse) == ApplyAnnotated(st, MatchPattern(line, AnnotatedPattern))
  {
    assert Step(st, line, parse) == Handle(st, AnnotatedNodeclaim, line, parse);
  }

  lemma StepTainted(st: State, line: Line, parse: string -> int)
    requires WellFormed(line) && KindOf(line) == Some(TaintedNode)
    ensures Step(st, line, parse) == ApplyTainted(st, MatchPattern(line, TaintClaimPattern),
      MatchPattern(line, TaintNodePattern), MatchPattern(line, NodeNamespacePattern))
  {
    assert Step(st, line, parse) == Handle(st, TaintedNode, line, parse);
  }

  lemma StepDeleted(st: State, line: Line, parse: string -> int)
    requires WellFormed(line) && KindOf(line) == Some(DeletedNodeclaim)
    ensures Step(st, line, parse) == ApplyDeleted(st, MatchPattern(line, ClaimNamespacePattern), parse)
  {
    assert Step(st, line, parse) == Handle(st, DeletedNodeclaim, line, parse);
  }

  /** Reading a stream that starts with `a` is one step followed by the rest. */
  lemma FoldCons(st: State, a: Line, rest: seq<Line>, parse: string -> int)
    requires WellFormed(a) && AllWellFormed(rest)
    ensures AllWellFormed([a] + rest)
    ensures Fold(st, [a] + rest, parse) == Fold(Step(st, a, parse), rest, parse)
  {
    assert ([a] + rest)[0] == a && ([a] + rest)[1..] == rest;
    assert forall i :: 0 < i < |[a] + rest| ==> ([a] + rest)[i] == rest[i - 1];
  }

  /** Reading five lines is five steps. */
  lemma FoldFive(st: State, a: Line, b: Line, c: Line, d: Line, e: Line, parse: string -> int)
    requires WellFormed(a) && WellFormed(b) && WellFormed(c) && WellFormed(d) && WellFormed(e)
    ensures AllWellFormed([a, b, c, d, e])
    ensures Fold(st, [a, b, c, d, e], parse)
         == Step(Step(Step(Step(Step(st, a, parse), b, parse), c, parse), d, parse), e, parse)
  {
    var s1 := Step(st, a, parse);
    var s2 := Step(s1, b, parse);
    var s3 := Step(s2, c, parse);
    var s4 := Step(s3, d, parse);
    FoldCons(s4, e, [], parse);
    assert [e] + [] == [e];
    FoldCons(s3, d, [e], parse);
    assert [d] + [e] == [d, e];
    FoldCons(s2, c, [d, e], parse);
    assert [c] + [d, e] == [c, d, e];
    FoldCons(s1, b, [c, d, e], parse);
    assert [b] + [c, d, e] == [b, c, d, e];
    FoldCons(st, a, [b, c, d, e], parse);
    assert [a] + [b, c, d, e] == [a, b, c, d, e];
  }

  /**
    Two "disrupting node(s)" lines for one nodeclaim: the record keeps only
    the second one's disruption fields, whatever the first one said.
   */
  lemma DisruptionLastWriteWins(st: State, first: Submatch, second: Submatch, parse: string -> int)
    requires |first| == 8 && |second| == 8 && Known(st, first[7]) && second[7] == first[7]
    ensures var r := Fold(st, [EventLine(DisruptingNodes, DisruptingPattern, first),
                               EventLine(DisruptingNodes, DisruptingPattern, second)], parse);
      r.registry.Keys == st.registry.Keys && r.index == st.index
      && r.registry[first[7]] == Disrupt(st.registry[first[7]], second)
  {
    var L1, L2 := EventLine(DisruptingNodes, DisruptingPattern, first), EventLine(DisruptingNodes, DisruptingPattern, second);
    var e := st.registry[first[7]];
    var s1 := Step(st, L1, parse);
    StepDisrupting(st, L1, parse);
    assert s1.registry[first[7]] == Disrupt(e, first);
    var s2 := Step(s1, L2, parse);
    StepDisrupting(s1, L2, parse);
    assert s2.registry[first[7]] == Disrupt(Disrupt(e, first), second);
    assert Disrupt(Disrupt(e, first), second) == Disrupt(e, second);
    FoldCons(s1, L2, [], parse);
    assert [L2] + [] == [L2];
    FoldCons(st, L1, [L2], parse);
    assert [L1] + [L2] == [L1, L2];
  }

  /**
    A Karpenter 0.37 "tainted node" line whose node name is in the index
    sets only the taint time of the nodeclaim it resolves to; the taint
    itself and every other record are untouched.
   */
  lemma BareTaintSetsOnlyTime(st: State, bare: Submatch, parse: string -> int)
    requires |bare| == 3 && KnownNode(st, bare[2])
    ensures var r := Step(st, EventLine(TaintedNode, NodeNamespacePattern, bare), parse);
      var id := st.index[bare[2]];
      OnlyRecordChanged(st, r, id) && r.registry[id].taintTime == bare[1]
      && r.registry[id].taint == st.registry[id].taint && OnlyPhaseChanged(st.registry[id], r.registry[id], TaintPhase)
  {
    var line := EventLine(TaintedNode, NodeNamespacePattern, bare);
    StepTainted(st, line, parse);
    assert Step(st, line, parse) == ApplyTainted(st, None, None, Some(bare));
  }
}
