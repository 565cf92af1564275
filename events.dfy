/**
  What the regular-expression stage of ParseKarpenterLogs makes of one log
  line. The regex engine itself is not modelled: a `Line` carries the text
  captured by the classifier pattern `"message":"(.*)","commit"` (or nothing
  when it did not match) and, for each extraction pattern that matched, the
  slice FindStringSubmatch returned (the whole match first, then one entry
  per group).
 */
module Events {
  import opened Wrappers

  /** The nine message kinds the classifier switch recognises (parser/parser.go:150-488). */
  datatype Kind =
    | CreatedNodeclaim | LaunchedNodeclaim | RegisteredNodeclaim | InitializedNodeclaim
    | DisruptingNodes | InterruptionDelete | AnnotatedNodeclaim | TaintedNode | DeletedNodeclaim

  /** The message text each kind is recognised by. */
  function MessageText(k: Kind): string
  {
    match k
    case CreatedNodeclaim => "created nodeclaim"
    case LaunchedNodeclaim => "launched nodeclaim"
    case RegisteredNodeclaim => "registered nodeclaim"
    case InitializedNodeclaim => "initialized nodeclaim"
    case DisruptingNodes => "disrupting node(s)"
    case InterruptionDelete => "initiating delete from interruption message"
    case AnnotatedNodeclaim => "annotated nodeclaim"
    case TaintedNode => "tainted node"
    case DeletedNodeclaim => "deleted nodeclaim"
  }

  /** The cases of the classifier switch, in the order of parser.go's switch. */
  function SwitchOrder(): (kinds: seq<Kind>)
    ensures |kinds| == 9
  {
    [CreatedNodeclaim, LaunchedNodeclaim, RegisteredNodeclaim, InitializedNodeclaim, DisruptingNodes,
     InterruptionDelete, AnnotatedNodeclaim, TaintedNode, DeletedNodeclaim]
  }

  /** The first of `kinds` whose text is `message`, as a switch on strings tries its cases. */
  function FirstCase(message: string, kinds: seq<Kind>): Option<Kind>
    decreases |kinds|
  {
    if kinds == [] then None
    else if MessageText(kinds[0]) == message then Some(kinds[0])
    else FirstCase(message, kinds[1..])
  }

  /**
    The classifier switch: the kind whose message text is exactly `message`,
    or None for every other message, which the parser ignores.
   */
  function Classify(message: string): (r: Option<Kind>)
    ensures r.Some? ==> MessageText(r.value) == message
  {
    FirstCaseSound(message, SwitchOrder());
    FirstCase(message, SwitchOrder())
  }

  /** The switch finds a case exactly when some case's text is the message, and then one with that text. */
  lemma {:induction false} FirstCaseSound(message: string, kinds: seq<Kind>)
    ensures FirstCase(message, kinds).Some? ==>
      FirstCase(message, kinds).value in kinds && MessageText(FirstCase(message, kinds).value) == message
    ensures FirstCase(message, kinds).None? ==> forall i :: 0 <= i < |kinds| ==> MessageText(kinds[i]) != message
    decreases |kinds|
  {
    if kinds != [] && MessageText(kinds[0]) != message {
      FirstCaseSound(message, kinds[1..]);
      assert forall i :: 0 < i < |kinds| ==> kinds[i] == kinds[1..][i - 1];
    }
  }

  /** A message is classified exactly when it is one of the nine texts, and then as the kind of that text. */
  lemma ClassifySound(message: string)
    ensures Classify(message).Some? ==> MessageText(Classify(message).value) == message
    ensures Classify(message).None? ==> forall kind: Kind :: MessageText(kind) != message
  {
    FirstCaseSound(message, SwitchOrder());
    if Classify(message).None? {
      forall kind: Kind ensures MessageText(kind) != message {
        var i := match kind
          case CreatedNodeclaim => 0 case LaunchedNodeclaim => 1 case RegisteredNodeclaim => 2
          case InitializedNodeclaim => 3 case DisruptingNodes => 4 case InterruptionDelete => 5
          case AnnotatedNodeclaim => 6 case TaintedNode => 7 case DeletedNodeclaim => 8;
        assert SwitchOrder()[i] == kind;
      }
    }
  }

  /** No two kinds share a text: the texts differ in length or in their first letter. */
  lemma MessageTextInjective(a: Kind, b: Kind)
    requires MessageText(a) == MessageText(b)
    ensures a == b
  {
    var t := MessageText(b);
    match a
    case CreatedNodeclaim => assert |t| == 17 && t[0] == 'c';
    case LaunchedNodeclaim => assert t[0] == 'l';
    case RegisteredNodeclaim => assert t[0] == 'r';
    case InitializedNodeclaim => assert |t| == 21 && t[0] == 'i';
    case DisruptingNodes => assert |t| == 18 && t[0] == 'd';
    case InterruptionDelete => assert |t| == 43;
    case AnnotatedNodeclaim => assert t[0] == 'a';
    case TaintedNode => assert t[0] == 't';
    case DeletedNodeclaim => assert |t| == 17 && t[0] == 'd';
  }

  /** Each kind's own text classifies as that kind. */
  lemma ClassifyMessageText(k: Kind)
    ensures Classify(MessageText(k)) == Some(k)
  {
    ClassifySound(MessageText(k));
    MessageTextInjective(Classify(MessageText(k)).value, k);
  }

  /**
    The distinct extraction patterns. "initialized nodeclaim" and "deleted
    nodeclaim" use the same pattern text (parser/parser.go:273, 490), so they
    share one value here.
   */
  datatype Pattern =
    | CreatedPattern        // time, nodepool, nodeclaim, instance-types
    | LaunchedPattern       // time, nodeclaim, provider-id, instance-type, zone, capacity-type
    | RegisteredPattern     // time, nodeclaim, node
    | ClaimNamespacePattern // time, nodeclaim
    | DisruptingPattern     // time, reason, decision, three counts, nodeclaim
    | InterruptionPattern   // time, messageKind, nodeclaim
    | AnnotatedPattern      // time, nodeclaim, annotation key, annotation value
    | TaintClaimPattern     // time, nodeclaim, taint key, value, effect (Karpenter 1.1 and later)
    | TaintNodePattern      // time, node, taint key, value, effect (Karpenter 1.0)
    | NodeNamespacePattern  // time, node (Karpenter 0.37)

  /** The number of capture groups of each pattern. */
  function Groups(p: Pattern): nat
  {
    match p
    case CreatedPattern => 4
    case LaunchedPattern => 6
    case RegisteredPattern => 3
    case ClaimNamespacePattern => 2
    case DisruptingPattern => 7
    case InterruptionPattern => 3
    case AnnotatedPattern => 4
    case TaintClaimPattern => 5
    case TaintNodePattern => 5
    case NodeNamespacePattern => 2
  }

  /** FindStringSubmatch's result: the whole match, then each group's text. */
  type Submatch = seq<string>

  datatype Line = Line(message: Option<string>, submatches: map<Pattern, Submatch>)

  /** Every recorded match has one entry more than its pattern has groups. */
  predicate WellFormed(line: Line)
  {
    forall p :: p in line.submatches ==> |line.submatches[p]| == Groups(p) + 1
  }

  /** matchPattern (parser/parser.go:82-85): the submatches of `p`, or None when it did not match. */
  function MatchPattern(line: Line, p: Pattern): (r: Option<Submatch>)
    requires WellFormed(line)
    ensures r.Some? <==> p in line.submatches
    ensures r.Some? ==> |r.value| == Groups(p) + 1 && r.value == line.submatches[p]
  {
    if p in line.submatches then Some(line.submatches[p]) else None
  }

  /** The kind the classifier gives the line, if any. */
  function KindOf(line: Line): Option<Kind>
  {
    if line.message.Some? then Classify(line.message.value) else None
  }
}
