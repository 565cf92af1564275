/**
  The parser as the program runs it: the two maps are fields that
  ParseKarpenterLogs reads and rewrites in place, and each event handler
  keeps the parser's loop over the submatches with a switch on the group
  number. Every line handler, ParseKarpenterLogs and NonBlockingParser is
  proved to leave the maps exactly as the matching function of module
  Aggregation says; Populatenodeclaimmap states directly the order in which
  it decodes the ConfigMap entries.
 */
module Engine {
  import opened Wrappers
  import opened Text
  import opened Record
  import opened Events
  import opened Aggregation
  import opened Export

  class Aggregator {
    /** nodeclaimmap: nodeclaim name to its record. */
    var registry: map<string, Nodeclaim>
    /** k8snodenamemap: Kubernetes node name to nodeclaim name. */
    var index: map<string, string>
    /** The timestamp parser (datetime.Parse), in nanoseconds. */
    const parse: string -> int

    /** The two maps as a value. */
    function Snapshot(): State
      reads this
    {
      State(registry, index)
    }

    ghost predicate Valid()
      reads this
    {
      Inv(Snapshot())
    }

    /** Both maps start empty (main.go:32-35). */
    constructor (parse: string -> int)
      ensures Snapshot() == Empty() && this.parse == parse && Valid()
    {
      registry := map[];
      index := map[];
      this.parse := parse;
    }

    /** "created nodeclaim" (parser/parser.go:151-212). */
    method Created(sub: Option<Submatch>)
      requires sub.Some? ==> |sub.value| == Groups(CreatedPattern) + 1
      modifies this
      ensures Snapshot() == ApplyCreated(old(Snapshot()), sub)
    {
      if sub.Some? {
        var s := sub.value;
        var createdTime, nodePool, instanceTypes, nodeclaim := "", "", "", "";
        var i := 0;
        while i < |s| - 1
          invariant 0 <= i <= |s| - 1
          invariant createdTime == (if i > 0 then s[1] else "")
          invariant nodePool == (if i > 1 then s[2] else "")
          invariant nodeclaim == (if i > 2 then s[3] else "")
          invariant instanceTypes == (if i > 3 then NormalizeInstanceTypes(s[4]) else "")
        {
          var val := s[i + 1];
          if i == 0 {
            createdTime := val;
          } else if i == 1 {
            nodePool := val;
          } else if i == 2 {
            nodeclaim := val;
          } else if i == 3 {
            instanceTypes := NormalizeInstanceTypes(val);
          }
          i := i + 1;
        }
        registry := registry[nodeclaim := Blank().(createdTime := createdTime, nodePool := nodePool, instanceTypes := instanceTypes)];
      }
    }

    /** "launched nodeclaim" (parser/parser.go:213-244). */
    method Launched(sub: Option<Submatch>)
      requires sub.Some? ==> |sub.value| == Groups(LaunchedPattern) + 1
      modifies this
      ensures Snapshot() == ApplyLaunched(old(Snapshot()), sub)
    {
      ApplyLaunchedCases(Snapshot(), sub);
      if sub.Some? {
        var s := sub.value;
        var nodeclaim := s[2];
        if nodeclaim != "" && nodeclaim in registry {
          var entry := LaunchLoop(registry[nodeclaim], s);
          registry := registry[nodeclaim := entry];
        }
      }
    }

    /**
      "registered nodeclaim" (parser/parser.go:245-270): the index entry is
      written inside the loop, when the node name group is reached.
     */
    method Registered(sub: Option<Submatch>)
      requires sub.Some? ==> |sub.value| == Groups(RegisteredPattern) + 1
      modifies this
      ensures Snapshot() == ApplyRegistered(old(Snapshot()), sub)
    {
      if sub.Some? {
        var s := sub.value;
        var nodeclaim := s[2];
        if nodeclaim != "" && nodeclaim in registry {
          var e := registry[nodeclaim];
          var entry := e;
          var i := 0;
          while i < |s| - 1
            invariant 0 <= i <= |s| - 1
            invariant registry == old(registry)
            invariant entry == e.(registeredTime := if i > 0 then s[1] else e.registeredTime,
                                  k8sNodeName := if i > 2 then s[3] else e.k8sNodeName)
            invariant index == if i > 2 then old(index)[s[3] := nodeclaim] else old(index)
          {
            var val := s[i + 1];
            if i == 0 {
              entry := entry.(registeredTime := val);
            } else if i == 2 {
              entry := entry.(k8sNodeName := val);
              index := index[val := nodeclaim];
            }
            i := i + 1;
          }
          registry := registry[nodeclaim := entry];
        }
      }
    }

    /** "initialized nodeclaim" (parser/parser.go:271-300). */
    method Initialized(sub: Option<Submatch>)
      requires sub.Some? ==> |sub.value| == Groups(ClaimNamespacePattern) + 1
      modifies this
      ensures Snapshot() == ApplyInitialized(old(Snapshot()), sub, parse)
    {
      if sub.Some? {
        var s := sub.value;
        var nodeclaim := s[2];
        if nodeclaim != "" && nodeclaim in registry {
          var e := registry[nodeclaim];
          var entry := e.(initializedTime := s[1]);
          if entry.initializedTime != "" {
            if entry.createdTime != "" {
              entry := entry.(nodeReadyTime := parse(entry.initializedTime) - parse(entry.createdTime));
            }
          }
          entry := entry.(initialized := true);
          assert entry == Initialize(e, s[1], parse);
          registry := registry[nodeclaim := entry];
        }
      }
    }

    /** "disrupting node(s)" (parser/parser.go:301-337): the nodeclaim name is the seventh group. */
    method Disrupting(sub: Option<Submatch>)
      requires sub.Some? ==> |sub.value| == Groups(DisruptingPattern) + 1
      modifies this
      ensures Snapshot() == ApplyDisrupting(old(Snapshot()), sub)
    {
      if sub.Some? {
        var s := sub.value;
        var nodeclaim := s[7];
        if nodeclaim != "" && nodeclaim in registry {
          var e := registry[nodeclaim];
          var entry := e;
          var i := 0;
          while i < |s| - 1
            invariant 0 <= i <= |s| - 1
            invariant entry == e.(disruptionTime := if i > 0 then s[1] else e.disruptionTime,
                                  disruptionReason := if i > 1 then s[2] else e.disruptionReason,
                                  disruptionDecision := if i > 2 then s[3] else e.disruptionDecision,
                                  disruptedNodeCount := if i > 3 then s[4] else e.disruptedNodeCount,
                                  replacementNodeCount := if i > 4 then s[5] else e.replacementNodeCount,
                                  disruptedPodCount := if i > 5 then s[6] else e.disruptedPodCount)
          {
            var val := s[i + 1];
            if i == 0 {
              entry := entry.(disruptionTime := val);
            } else if i == 1 {
              entry := entry.(disruptionReason := val);
            } else if i == 2 {
              entry := entry.(disruptionDecision := val);
            } else if i == 3 {
              entry := entry.(disruptedNodeCount := val);
            } else if i == 4 {
              entry := entry.(replacementNodeCount := val);
            } else if i == 5 {
              entry := entry.(disruptedPodCount := val);
            }
            i := i + 1;
          }
          registry := registry[nodeclaim := entry];
        }
      }
    }

    /** "initiating delete from interruption message" (parser/parser.go:338-362). */
    method Interruption(sub: Option<Submatch>)
      requires sub.Some? ==> |sub.value| == Groups(InterruptionPattern) + 1
      modifies this
      ensures Snapshot() == ApplyInterruption(old(Snapshot()), sub)
    {
      if sub.Some? {
        var s := sub.value;
        var nodeclaim := s[3];
        if nodeclaim != "" && nodeclaim in registry {
          var e := registry[nodeclaim];
          var entry := e;
          var i := 0;
          while i < |s| - 1
            invariant 0 <= i <= |s| - 1
            invariant entry == e.(interruptionTime := if i > 0 then s[1] else e.interruptionTime,
                                  interruptionKind := if i > 1 then s[2] else e.interruptionKind)
          {
            var val := s[i + 1];
            if i == 0 {
              entry := entry.(interruptionTime := val);
            } else if i == 1 {
              entry := entry.(interruptionKind := val);
            }
            i := i + 1;
          }
          registry := registry[nodeclaim := entry];
        }
      }
    }

    /**
      "annotated nodeclaim" (parser/parser.go:363-390): the key is stored,
      then the value is appended to it, and the record is written back on
      every pass of the loop.
     */
    method Annotated(sub: Option<Submatch>)
      requires sub.Some? ==> |sub.value| == Groups(AnnotatedPattern) + 1
      modifies this
      ensures Snapshot() == ApplyAnnotated(old(Snapshot()), sub)
    {
      if sub.Some? {
        var s := sub.value;
        var nodeclaim := s[2];
        if nodeclaim != "" && nodeclaim in registry {
          var e := registry[nodeclaim];
          var entry := e;
          var i := 0;
          while i < |s| - 1
            invariant 0 <= i <= |s| - 1
            invariant index == old(index)
            invariant entry == e.(annotationTime := if i > 0 then s[1] else e.annotationTime,
                                  annotation := if i > 3 then s[3] + ":" + s[4] else if i > 2 then s[3] else e.annotation)
            invariant registry == if i == 0 then old(registry) else old(registry)[nodeclaim := entry]
          {
            var val := s[i + 1];
            if i == 0 {
              entry := entry.(annotationTime := val);
            } else if i == 2 {
              entry := entry.(annotation := val);
            } else if i == 3 {
              entry := entry.(annotation := entry.annotation + ":" + val);
            }
            registry := registry[nodeclaim := entry];
            i := i + 1;
          }
        }
      }
    }

    /**
      The loop tainted tiers 1 and 2 share (parser/parser.go:402-420 and
      437-452): time, then key, then ":value", then ":effect", the record
      written back on every pass.
     */
    method TaintLoop(nodeclaim: string, s: Submatch)
      requires nodeclaim in registry && |s| == 6
      modifies this
      ensures index == old(index)
      ensures registry == old(registry)[nodeclaim := TaintWith(old(registry)[nodeclaim], s[1], s[3], s[4], s[5])]
    {
      var e := registry[nodeclaim];
      var entry := e;
      var i := 0;
      while i < |s| - 1
        invariant 0 <= i <= |s| - 1
        invariant index == old(index)
        invariant entry == e.(taintTime := if i > 0 then s[1] else e.taintTime,
                              taint := if i > 4 then s[3] + ":" + s[4] + ":" + s[5]
                                       else if i > 3 then s[3] + ":" + s[4]
                                       else if i > 2 then s[3] else e.taint)
        invariant registry == if i == 0 then old(registry) else old(registry)[nodeclaim := entry]
      {
        var val := s[i + 1];
        if i == 0 {
          entry := entry.(taintTime := val);
        } else if i == 2 {
          entry := entry.(taint := val);
        } else if i == 3 {
          entry := entry.(taint := entry.taint + ":" + val);
        } else if i == 4 {
          entry := entry.(taint := entry.taint + ":" + val);
        }
        registry := registry[nodeclaim := entry];
        i := i + 1;
      }
    }

    /**
      "tainted node" (parser/parser.go:391-486): the Karpenter 1.1 pattern
      first, then the 1.0 pattern resolved through the index, then the 0.37
      pattern, which carries only the time.
     */
    method Tainted(claim: Option<Submatch>, node: Option<Submatch>, bare: Option<Submatch>)
      requires claim.Some? ==> |claim.value| == Groups(TaintClaimPattern) + 1
      requires node.Some? ==> |node.value| == Groups(TaintNodePattern) + 1
      requires bare.Some? ==> |bare.value| == Groups(NodeNamespacePattern) + 1
      modifies this
      ensures Snapshot() == ApplyTainted(old(Snapshot()), claim, node, bare)
    {
      if claim.Some? {
        var s := claim.value;
        var nodeclaim := s[2];
        if nodeclaim != "" && nodeclaim in registry {
          TaintLoop(nodeclaim, s);
        }
      } else if node.Some? {
        var s := node.value;
        var k8sNodeName := s[2];
        if k8sNodeName != "" && k8sNodeName in index {
          var nodeclaim := index[k8sNodeName];
          if nodeclaim in registry {
            TaintLoop(nodeclaim, s);
          }
        }
      } else if bare.Some? {
        var s := bare.value;
        var k8sNodeName := s[2];
        if k8sNodeName != "" && k8sNodeName in index {
          var nodeclaim := index[k8sNodeName];
          if nodeclaim in registry {
            var e := registry[nodeclaim];
            var entry := e;
            var i := 0;
            while i < |s| - 1
              invariant 0 <= i <= |s| - 1
              invariant index == old(index)
              invariant entry == e.(taintTime := if i > 0 then s[1] else e.taintTime)
              invariant registry == if i == 0 then old(registry) else old(registry)[nodeclaim := entry]
            {
              var val := s[i + 1];
              if i == 0 {
                entry := entry.(taintTime := val);
              }
              registry := registry[nodeclaim := entry];
              i := i + 1;
            }
          }
        }
      }
    }

    /** "deleted nodeclaim" (parser/parser.go:488-525). */
    method Deleted(sub: Option<Submatch>)
      requires sub.Some? ==> |sub.value| == Groups(ClaimNamespacePattern) + 1
      modifies this
      ensures Snapshot() == ApplyDeleted(old(Snapshot()), sub, parse)
    {
      if sub.Some? {
        var s := sub.value;
        var nodeclaim := s[2];
        if nodeclaim != "" && nodeclaim in registry {
          var e := registry[nodeclaim];
          var entry := e.(deletedTime := s[1]);
          if entry.deletedTime != "" {
            if entry.createdTime != "" {
              entry := entry.(nodeLifecycleTime := parse(entry.deletedTime) - parse(entry.createdTime));
            }
            if entry.annotationTime != "" {
              entry := entry.(nodeTerminationTime := parse(entry.deletedTime) - parse(entry.annotationTime));
            }
          }
          entry := entry.(deleted := true);
          assert entry == Delete(e, s[1], parse);
          registry := registry[nodeclaim := entry];
        }
      }
    }

    /** The switch on the message kind: the handler of kind `k` on the submatches of its pattern(s). */
    method HandleKind(k: Kind, line: Line)
      requires WellFormed(line)
      modifies this
      ensures Snapshot() == Handle(old(Snapshot()), k, line, parse)
    {
      match k
      case CreatedNodeclaim => Created(MatchPattern(line, CreatedPattern));
      case LaunchedNodeclaim => Launched(MatchPattern(line, LaunchedPattern));
      case RegisteredNodeclaim => Registered(MatchPattern(line, RegisteredPattern));
      case InitializedNodeclaim => Initialized(MatchPattern(line, ClaimNamespacePattern));
      case DisruptingNodes => Disrupting(MatchPattern(line, DisruptingPattern));
      case InterruptionDelete => Interruption(MatchPattern(line, InterruptionPattern));
      case AnnotatedNodeclaim => Annotated(MatchPattern(line, AnnotatedPattern));
      case TaintedNode =>
        Tainted(MatchPattern(line, TaintClaimPattern), MatchPattern(line, TaintNodePattern),
                MatchPattern(line, NodeNamespacePattern));
      case DeletedNodeclaim => Deleted(MatchPattern(line, ClaimNamespacePattern));
    }

    /**
      ParseKarpenterLogs (parser/parser.go:135-529): classify the message,
      then run the handler of its kind; any other line is ignored.
     */
    method ParseKarpenterLogs(line: Line)
      requires WellFormed(line)
      modifies this
      ensures Snapshot() == Step(old(Snapshot()), line, parse)
      ensures old(Valid()) ==> Valid()
    {
      ghost var st := Snapshot();
      if line.message.Some? {
        var kind := Classify(line.message.value);
        if kind.Some? {
          HandleKind(kind.value, line);
        }
      }
      assert Snapshot() == Step(st, line, parse);
      if Inv(st) {
        StepPreservesInv(st, line, parse);
      }
    }

    /** NonBlockingParser (parser/parser.go:124-132): every line of the stream, in order. */
    method NonBlockingParser(lines: seq<Line>)
      requires AllWellFormed(lines)
      modifies this
      ensures Snapshot() == Fold(old(Snapshot()), lines, parse)
      ensures old(Valid()) ==> Valid()
    {
      ghost var st := Snapshot();
      var i := 0;
      while i < |lines|
        invariant 0 <= i <= |lines|
        invariant AllWellFormed(lines[..i])
        invariant Snapshot() == Fold(st, lines[..i], parse)
        invariant Inv(st) ==> Valid()
      {
        ghost var before := Snapshot();
        ParseKarpenterLogs(lines[i]);
        assert lines[..i + 1] == lines[..i] + [lines[i]];
        FoldAppend(st, lines[..i], [lines[i]], parse);
        FoldCons(before, lines[i], [], parse);
        assert [lines[i]] + [] == [lines[i]];
        i := i + 1;
      }
      assert lines[..i] == lines;
    }

    /**
      Populatenodeclaimmap (parser/parser.go:98-108): each ConfigMap entry is
      decoded into one struct that is reused across entries (so a field the
      text lacks keeps the previous entry's value) and stored, even when
      decoding failed. `decode(previous, text)` stands for json.Unmarshal.
     */
    method Populatenodeclaimmap(cmdata: map<string, string>, decode: (Nodeclaim, string) -> Nodeclaim)
      returns (ghost order: seq<string>)
      modifies this
      ensures index == old(index)
      ensures registry.Keys == old(registry).Keys + cmdata.Keys
      ensures forall k :: k in old(registry) && k !in cmdata ==> registry[k] == old(registry)[k]
      ensures DistinctKeysInOrder(order) && forall k :: k in cmdata <==> k in order
      ensures DecodedInOrder(registry, cmdata, order, decode)
      ensures old(Valid()) ==> Valid()
    {
      var nodeclaimstruct := Blank();
      var rest := cmdata.Keys;
      order := [];
      while rest != {}
        invariant index == old(index)
        invariant Populated(old(registry), registry, cmdata, rest, order, decode, nodeclaimstruct)
        decreases rest
      {
        var key :| key in rest;
        PopulateStep(old(registry), registry, cmdata, rest, order, decode, nodeclaimstruct, key);
        nodeclaimstruct := decode(nodeclaimstruct, cmdata[key]);
        registry := registry[key := nodeclaimstruct];
        order := order + [key];
        rest := rest - {key};
      }
    }
  }

  /** "launched nodeclaim" replaces exactly the record of a known nodeclaim by the launched one, and else does nothing. */
  lemma ApplyLaunchedCases(st: State, sub: Option<Submatch>)
    requires sub.Some? ==> |sub.value| == Groups(LaunchedPattern) + 1
    ensures ApplyLaunched(st, sub) ==
      if sub.Some? && Known(st, sub.value[2]) then State(st.registry[sub.value[2] := Launch(st.registry[sub.value[2]], sub.value)], st.index)
      else st
  {
  }

  /**
    The submatch loop of "launched nodeclaim" (parser/parser.go:219-237): a
    switch on the group number stores each group in its field of the entry.
   */
  method LaunchLoop(e: Nodeclaim, s: Submatch) returns (entry: Nodeclaim)
    requires |s| == Groups(LaunchedPattern) + 1
    ensures entry == Launch(e, s)
  {
    entry := e;
    var i := 0;
    while i < |s| - 1
      invariant 0 <= i <= |s| - 1
      invariant entry == LaunchedAfter(e, s, i)
    {
      var val := s[i + 1];
      if i == 0 {
        entry := entry.(launchedTime := val);
      } else if i == 2 {
        entry := entry.(providerId := LastSegment(val));
      } else if i == 3 {
        entry := entry.(instanceType := val);
      } else if i == 4 {
        entry := entry.(zone := val);
      } else if i == 5 {
        entry := entry.(capacityType := val);
      }
      i := i + 1;
    }
    LaunchedAfterAll(e, s);
  }

  /** One pass of the "launched nodeclaim" loop: group `i + 1` (`val`) stored in the field the switch picks. */
  function LaunchField(entry: Nodeclaim, i: int, val: string): Nodeclaim
  {
    if i == 0 then entry.(launchedTime := val)
    else if i == 2 then entry.(providerId := LastSegment(val))
    else if i == 3 then entry.(instanceType := val)
    else if i == 4 then entry.(zone := val)
    else if i == 5 then entry.(capacityType := val)
    else entry
  }

  /** The entry after the first `i` passes of the "launched nodeclaim" loop over `s[1..]`. */
  function LaunchedAfter(e: Nodeclaim, s: Submatch, i: nat): Nodeclaim
    requires i < |s|
  {
    if i == 0 then e else LaunchField(LaunchedAfter(e, s, i - 1), i - 1, s[i])
  }

  /** All six passes of the loop make the launched record. */
  lemma LaunchedAfterAll(e: Nodeclaim, s: Submatch)
    requires |s| == Groups(LaunchedPattern) + 1
    ensures LaunchedAfter(e, s, 6) == Launch(e, s)
  {
    assert LaunchedAfter(e, s, 0) == e;
    assert LaunchedAfter(e, s, 1) == e.(launchedTime := s[1]);
    assert LaunchedAfter(e, s, 2) == LaunchedAfter(e, s, 1);
    assert LaunchedAfter(e, s, 3) == LaunchedAfter(e, s, 2).(providerId := LastSegment(s[3]));
    assert LaunchedAfter(e, s, 4) == LaunchedAfter(e, s, 3).(instanceType := s[4]);
    assert LaunchedAfter(e, s, 5) == LaunchedAfter(e, s, 4).(zone := s[5]);
    assert LaunchedAfter(e, s, 6) == LaunchedAfter(e, s, 5).(capacityType := s[6]);
  }

  /** No key occurs twice in `order`. */
  predicate DistinctKeysInOrder(order: seq<string>)
  {
    forall i, j :: 0 <= i < j < |order| ==> order[i] != order[j]
  }

  /**
    The keys of `order` were decoded in that order into one reused struct:
    the first from the zero struct, each later one from the record stored
    for the key before it.
   */
  predicate DecodedInOrder(registry: map<string, Nodeclaim>, cmdata: map<string, string>, order: seq<string>,
                           decode: (Nodeclaim, string) -> Nodeclaim)
  {
    (forall j :: 0 <= j < |order| ==> order[j] in registry && order[j] in cmdata)
    && (|order| > 0 ==> registry[order[0]] == decode(Blank(), cmdata[order[0]]))
    && forall i :: 0 < i < |order| ==> registry[order[i]] == decode(registry[order[i - 1]], cmdata[order[i]])
  }

  /**
    The state of Populatenodeclaimmap's loop over the ConfigMap data, started
    on registry `before`: the keys of `order` are done, those of `rest` are
    left, and `current` is the struct decoded last.
   */
  ghost predicate Populated(before: map<string, Nodeclaim>, registry: map<string, Nodeclaim>, cmdata: map<string, string>,
                            rest: set<string>, order: seq<string>, decode: (Nodeclaim, string) -> Nodeclaim, current: Nodeclaim)
  {
    rest <= cmdata.Keys
    && registry.Keys == before.Keys + (cmdata.Keys - rest)
    && (forall k :: k in before && k !in cmdata ==> registry[k] == before[k])
    && DistinctKeysInOrder(order) && (forall k :: k in order <==> k in cmdata && k !in rest)
    && DecodedInOrder(registry, cmdata, order, decode)
    && current == if order == [] then Blank() else registry[order[|order| - 1]]
  }

  /** Decoding one more key into the reused struct and storing it keeps the loop state. */
  lemma PopulateStep(before: map<string, Nodeclaim>, registry: map<string, Nodeclaim>, cmdata: map<string, string>,
                     rest: set<string>, order: seq<string>, decode: (Nodeclaim, string) -> Nodeclaim, current: Nodeclaim,
                     key: string)
    requires Populated(before, registry, cmdata, rest, order, decode, current) && key in rest
    ensures var next := decode(current, cmdata[key]);
      Populated(before, registry[key := next], cmdata, rest - {key}, order + [key], decode, next)
  {
    var next := decode(current, cmdata[key]);
    DecodedStep(registry, cmdata, order, key, next, decode);
    var o := order + [key];
    assert o[|o| - 1] == key;
    forall i, j | 0 <= i < j < |o| ensures o[i] != o[j] {
      if j < |order| { assert o[i] == order[i] && o[j] == order[j]; } else { assert o[i] == order[i] && o[i] in order; }
    }
  }

  /** Storing the next key's record, decoded from the last one stored, extends the decoding order by that key. */
  lemma DecodedStep(registry: map<string, Nodeclaim>, cmdata: map<string, string>, order: seq<string>, key: string,
                    v: Nodeclaim, decode: (Nodeclaim, string) -> Nodeclaim)
    requires DecodedInOrder(registry, cmdata, order, decode) && key in cmdata && key !in order
    requires v == decode(if order == [] then Blank() else registry[order[|order| - 1]], cmdata[key])
    ensures DecodedInOrder(registry[key := v], cmdata, order + [key], decode)
  {
    var r, o := registry[key := v], order + [key];
    forall j | 0 <= j < |order| ensures o[j] == order[j] && r[o[j]] == registry[order[j]] {
      assert order[j] != key;
    }
    assert o[|order|] == key;
  }

  /**
    The ConfigMap round trip: the data ConvertResult produces, read back by
    Populatenodeclaimmap into a fresh parser. With a
    decoder that reads back whatever the encoder wrote, every record is
    restored exactly and the index starts empty.
   */
  method Restore(m: map<string, Nodeclaim>, encode: Nodeclaim -> string, decode: (Nodeclaim, string) -> Nodeclaim,
                 parse: string -> int) returns (agg: Aggregator)
    requires forall previous, v :: decode(previous, encode(v)) == v
    ensures fresh(agg) && agg.registry == m && agg.index == map[] && agg.Valid()
  {
    var data := ConvertResult(m, encode);
    agg := new Aggregator(parse);
    ghost var order := agg.Populatenodeclaimmap(data, decode);
    assert agg.registry.Keys == m.Keys;
    forall k | k in m ensures agg.registry[k] == m[k] {
      var i :| 0 <= i < |order| && order[i] == k;
      if i > 0 {
        assert agg.registry[k] == decode(agg.registry[order[i - 1]], encode(m[k]));
      }
    }
  }
}
