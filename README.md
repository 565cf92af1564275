# Nodeclaim aggregation engine of LogParserForKarpenter

LogParserForKarpenter reads Karpenter controller logs in JSON, one line at a
time, and builds one record per nodeclaim. The record holds the creation,
launch, registration, initialization, disruption, interruption, annotation,
taint and deletion facts the logs report, plus three durations derived from
them. The parser keeps two maps:

- the registry (`nodeclaimmap`), from nodeclaim name to its record;
- the index (`k8snodenamemap`), from Kubernetes node name to nodeclaim name.
  The 1.0 and 0.37 "tainted node" messages name only the node, so the index
  resolves them.

Each line's message text is matched against nine known texts. Every other
line is ignored. A "created nodeclaim" line stores a fresh record. The other
eight kinds update the record of a nodeclaim that already exists and is named
by a non-empty group or, for the node-level "tainted node" lines, by the index
entry of the named node. For export, the registry is sorted by creation time and
each record is turned into a string keyed by nodeclaim name. That map is the
ConfigMap data, and `Populatenodeclaimmap` reads it back. The CSV header row
names the key column and the record's fields with awk-style 1-based column
numbers.

Modules:

- `Wrappers`: `Option`.
- `Text`: the string operations the parser uses.
  - The instance-type replacer.
  - `strings.Contains` and `strings.LastIndex`.
  - The last `/`-segment of a provider id.
  - Go's byte-wise string order, which the sort compares with.
  - Decimal rendering, join and split.
- `Record`: the record, and its fields grouped into the nine phases that the
  event kinds write.
- `Events`: what the regular-expression stage gives one line.
  - The classifier switch.
  - The extraction patterns with their group counts.
  - `matchPattern`.
- `Aggregation`: the value-level meaning of a line and of a stream of lines.
  - One function per event kind on the two maps.
  - `Step` for one line and `Fold` for a stream.
  - The invariants and scenarios proved about them.
- `Export`: the export side.
  - `sortResult`: the registry collected into a sequence, then a stable sort
    by creation time.
  - `ConvertResult`.
  - The header row.
- `Engine`: class `Aggregator`. It holds the two maps as mutable fields, and
  its handler methods keep the parser's loop over the submatches with a switch
  on the group number. Each line handler, `ParseKarpenterLogs` and
  `NonBlockingParser` is proved to leave the maps exactly as the matching
  `Aggregation` function says. `Populatenodeclaimmap` has no such function:
  its contract states directly the order in which it decodes the ConfigMap
  entries into one reused struct.

The code is followed wherever its behaviour is subtle:

- An annotation or taint replaces the previous one. It is not accumulated.
- A Karpenter 0.37 "tainted node" line sets only the taint time.
- A "created nodeclaim" line does not check its nodeclaim name for being empty.
  A second "created" line for the same name discards the record gathered so
  far.
- A "registered nodeclaim" line writes the index even when the node name is
  empty. It overwrites an earlier mapping of the same node name.
- A duration whose timestamps are missing keeps its previous value.
  - The record is still marked initialized or deleted.
- The three taint tiers fall through only when a tier's pattern did not match.
  - A tier whose pattern matched but whose name is empty or unknown does
    nothing.
- Records with equal creation times come out of the sort in map iteration
  order. That order is random, so arrival order is not preserved.
  - The model picks that order nondeterministically.

## Model

| member | source | states |
|---|---|---|
| Text.Contains | parser/parser.go:167 | the substring test used as the guard agrees with the backward scan that LastIndex makes, so it holds exactly when LastIndex finds an occurrence |
| Text.Replace | parser/parser.go:142 | the replacer's output has no space; its rewriting of lists is stated by ReplaceJoin and ReplaceOthersSuffix |
| Text.LastIndex | parser/parser.go:167-168 | the result is -1 exactly when the needle does not occur; otherwise the needle occurs there and at no later position |
| Text.NormalizeInstanceTypes | parser/parser.go:167-172 | the normalised instance-type list contains no space; what it makes of an untruncated list is stated by NormalizeUntruncated, and of a truncated one by NormalizeTruncatedList |
| Text.NormalizeUntruncated | parser/parser.go:167-172 | a ", "-separated list of plain names, without Karpenter's " and N other(s)" suffix, has no " and ", so it is not cut and becomes the "\|"-separated list |
| Text.NormalizeTruncatedList | parser/parser.go:165-172 | Karpenter's truncated list "a, b, c and N other(s)" becomes "a\|b\|c\|andNothers": the names joined by "\|", then the suffix without spaces |
| Text.ReplaceJoin | parser/parser.go:142 | the replacer turns a ", "-separated list of plain names into the "\|"-separated list of the same names |
| Text.ReplaceOthersSuffix | parser/parser.go:169 | the suffix " and N other(s)" becomes "andNothers" |
| Text.LastAndBeforeCount | parser/parser.go:168 | in "... and N other(s)" the last " and " is the one before the count, so the cut falls there |
| Text.LastSegment | parser/parser.go:229-230 | the last element of splitting at "/": the longest suffix without "/", preceded by "/" whenever it is not the whole text |
| Text.LastSegmentIsLastPiece | parser/parser.go:229-230 | LastSegment is the last piece that splitting at "/" returns |
| Text.LastSegmentOfPath | parser/parser.go:229-230 | a provider URI ".../zone/i-0abc" yields its final component |
| Text.LexLess | parser/parser.go:544 | definition (no contract): Go's string `<`, comparing character by character, with a proper prefix first; its order properties are the five lemmas below |
| Text.LexLessIrreflexive | parser/parser.go:543-545 | the string order the sort compares creation times with is irreflexive |
| Text.LexLessAsymmetric | parser/parser.go:543-545 | the order is asymmetric |
| Text.LexLessTransitive | parser/parser.go:543-545 | the order is transitive |
| Text.LexLessTotal | parser/parser.go:543-545 | any two different strings are ordered one way or the other |
| Text.LexNotLessTransitive | parser/parser.go:543-545 | "not after" is transitive |
| Text.NatToString | parser/parser.go:77 | the decimal rendering of a column number is a non-empty digit string without a leading zero |
| Text.NatToStringRoundTrip | parser/parser.go:77 | reading the rendered digits back gives the number |
| Text.Split | parser/parser.go:229 | strings.Split for one separator character: it always returns at least one piece; what the pieces are is stated by SplitJoin and LastSegmentIsLastPiece |
| Text.SplitJoin | parser/parser.go:66-79 | joining separator-free pieces and splitting at the separator gives the pieces back |
| Record.Blank | parser/parser.go:177-209 | definition (no contract): the zero struct a "created nodeclaim" line starts from, with every string "", every duration 0 and both flags false; NewNodeclaim states what is set on top of it |
| Record.OtherPhasesKept | parser/parser.go:24-56 | a record changed only in one phase agrees with the old record on every other phase |
| Record.PhasesCoverRecord | parser/parser.go:24-56 | records that agree on all nine phases are equal: the phases cover every field |
| Record.FieldNames | parser/parser.go:24-56 | the 32 field names of the record type, in declaration order |
| Record.FieldNamesHaveNoComma | parser/parser.go:24-56 | no field name contains the CSV separator |
| Events.Classify | parser/parser.go:150 | a kind found by the switch has exactly the message as its text; that nothing else is ignored wrongly is ClassifySound |
| Events.ClassifySound | parser/parser.go:145-150 | a message is classified exactly when it is one of the nine texts, and then as the kind with that text; every other message gets no kind |
| Events.ClassifyMessageText | parser/parser.go:150-488 | each kind's own text is classified as that kind: no switch case shadows another |
| Aggregation.NewNodeclaim | parser/parser.go:155-209 | the fresh record holds the creation time, node pool and normalised instance types, and every other field is blank |
| Aggregation.Launch | parser/parser.go:217-238 | the launch time, instance type, zone and capacity type are the groups, the provider id is the last "/"-segment of its group, and only launch fields change |
| Aggregation.Register | parser/parser.go:249-264 | the registration time and node name are stored, and only registration fields change |
| Aggregation.Initialize | parser/parser.go:275-294 | the time is stored and the record marked initialized; the startup duration is initialized minus created when both are known, and otherwise keeps its value |
| Aggregation.Disrupt | parser/parser.go:305-332 | the six disruption fields are the groups, and only disruption fields change |
| Aggregation.Interrupt | parser/parser.go:342-356 | the interruption time and message kind are stored, and only interruption fields change |
| Aggregation.Annotate | parser/parser.go:367-384 | the annotation becomes "key:value", replacing the old one, and only annotation fields change |
| Aggregation.TaintWith | parser/parser.go:398-418 | the taint becomes "key:value:effect", replacing the old one, and only taint fields change |
| Aggregation.TaintTimeOnly | parser/parser.go:462-476 | only the taint time changes; the taint is kept |
| Aggregation.Delete | parser/parser.go:495-519 | the time is stored and the record marked deleted; the lifecycle duration (from creation) and the termination duration (from annotation) are computed when their start is known, and otherwise keep their value |
| Aggregation.ApplyCreated | parser/parser.go:151-212 | nothing changes without a match; otherwise the name's record becomes the fresh record, every other record and the index stay, and the index invariant is kept |
| Aggregation.ApplyLaunched | parser/parser.go:213-244 | only a known, non-empty nodeclaim's record changes, to its launched form; otherwise nothing changes |
| Aggregation.ApplyRegistered | parser/parser.go:245-270 | for a known nodeclaim, its record is registered and the node name maps to it, every other entry of both maps stays, and the index invariant is kept; otherwise nothing changes |
| Aggregation.ApplyInitialized | parser/parser.go:271-300 | only a known nodeclaim's record changes, to its initialized form; otherwise nothing changes |
| Aggregation.ApplyDisrupting | parser/parser.go:301-337 | only the record named by the seventh group changes, when known, to its disrupted form |
| Aggregation.ApplyInterruption | parser/parser.go:338-362 | only the record named by the third group changes, when known, to its interrupted form |
| Aggregation.ApplyAnnotated | parser/parser.go:363-390 | only a known nodeclaim's record changes, to its annotated form |
| Aggregation.ApplyTainted | parser/parser.go:391-486 | the three tiers in order: the nodeclaim tier when it matched; otherwise the node tier resolved through the index; otherwise the time-only tier. A matched tier with an empty or unknown name changes nothing |
| Aggregation.ApplyDeleted | parser/parser.go:488-525 | only a known nodeclaim's record changes, to its deleted form |
| Aggregation.Step | parser/parser.go:135-529 | definition (no contract): a line without a message, or with one of no kind, leaves the maps alone; otherwise the handler of its kind runs. Its properties are the Step lemmas below |
| Aggregation.Handle | parser/parser.go:150-488 | definition (no contract): the switch on the kind, each case applying its handler to the submatches of its pattern(s); the taint case passes all three tiers' submatches |
| Aggregation.StepPreservesInv | parser/parser.go:135-529 | after any one line, every indexed node still leads to a nodeclaim with a record |
| Aggregation.StepIgnoresUnclassified | parser/parser.go:145-150 | a line without a message or with any other message leaves both maps unchanged |
| Aggregation.StepKeepsKeys | parser/parser.go:135-529 | no line removes a record or an index entry |
| Aggregation.StepNewRecords | parser/parser.go:175-177 | a line adds a record only when it is a matched "created nodeclaim" line, and then under its own nodeclaim name |
| Aggregation.StepIndexOnlyOnRegistered | parser/parser.go:262 | only a "registered nodeclaim" line changes the index |
| Aggregation.EventLine | parser/parser.go:145-154 | the constructed line is well formed, has the given kind, and matches exactly the given pattern |
| Aggregation.Fold | parser/parser.go:124-132 | definition (no contract): the lines applied one after another, in stream order. Its properties are FoldPreservesInv, FoldKeys, EveryRecordWasCreated and FoldAppend |
| Aggregation.FoldPreservesInv | parser/parser.go:124-132 | the index invariant holds after any stream of lines |
| Aggregation.FoldKeys | parser/parser.go:124-132 | a stream removes nothing, and every record it adds comes from one of its "created nodeclaim" lines |
| Aggregation.EveryRecordWasCreated | parser/parser.go:124-132 | from empty maps, every record has a "created nodeclaim" line in the stream, and the index invariant holds |
| Aggregation.FoldAppend | parser/parser.go:124-132 | reading `a + b` is reading `a`, then `b` from where `a` left off |
| Aggregation.Lifecycle | parser/parser.go:151-525 | created, launched, registered, initialized and deleted from empty maps: the startup and lifecycle durations are the differences to the creation time and are not negative, both flags are set, and the index is exactly node name to nodeclaim |
| Aggregation.DisruptionLastWriteWins | parser/parser.go:305-332 | of two disruption lines for one nodeclaim, only the second one's fields remain |
| Aggregation.BareTaintSetsOnlyTime | parser/parser.go:460-476 | a 0.37 "tainted node" line for an indexed node sets only the taint time of its nodeclaim and changes nothing else |
| Export.InsertByCreated | parser/parser.go:543-545 | inserting into a sequence sorted by creation time keeps it sorted and adds exactly that entry |
| Export.SortByCreated | parser/parser.go:543-545 | the result is sorted by creation time in Go's string order and is a permutation of the input |
| Export.PermutationKeepsEntries | parser/parser.go:532-548 | a permutation of the registry's entries, each key once, is again all of them, each key once |
| Export.CollectEntries | parser/parser.go:535-541 | the collected sequence has one entry per registry key, holding that key's record |
| Export.SortResult | parser/parser.go:532-548 | the sorted sequence is sorted by creation time and holds every registry entry exactly once |
| Export.EncodeEntries | parser/parser.go:583-590 | the data has exactly the keys of the entries, each mapped to the encoding of its record |
| Export.ConvertResult | parser/parser.go:575-595 | the data have exactly the registry's keys, each mapped to the encoding of its record; an empty registry gives empty data |
| Export.ColumnNames | parser/parser.go:66-79 | the key column's name, then the record's field names |
| Export.HeaderColumns | parser/parser.go:66-79 | column j is labelled with its name and position j + 1 |
| Export.NamesHaveNoComma | parser/parser.go:66-79 | no column name contains a comma |
| Export.ColumnsHaveNoComma | parser/parser.go:66-79 | no column label contains a comma |
| Export.BuildHeader | parser/parser.go:66-79 | the header is the 33 labels joined by ",", and splitting it at commas gives them back |
| Export.HeaderSplitsIntoColumns | parser/parser.go:66-79 | splitting the joined header at commas gives the 33 labels |
| Engine.Aggregator.constructor | main.go:31-35 | both maps start empty |
| Engine.Aggregator.Created | parser/parser.go:151-212 | the maps become exactly ApplyCreated of the old maps |
| Engine.Aggregator.Launched | parser/parser.go:213-244 | the maps become exactly ApplyLaunched of the old maps |
| Engine.LaunchLoop | parser/parser.go:219-237 | the switch over the group numbers, run once per group, leaves the entry exactly in its Launch form: launch time, last segment of the provider id, instance type, zone and capacity type |
| Engine.Aggregator.Registered | parser/parser.go:245-270 | the maps become exactly ApplyRegistered of the old maps |
| Engine.Aggregator.Initialized | parser/parser.go:271-300 | the maps become exactly ApplyInitialized of the old maps |
| Engine.Aggregator.Disrupting | parser/parser.go:301-337 | the maps become exactly ApplyDisrupting of the old maps |
| Engine.Aggregator.Interruption | parser/parser.go:338-362 | the maps become exactly ApplyInterruption of the old maps |
| Engine.Aggregator.Annotated | parser/parser.go:363-390 | the maps become exactly ApplyAnnotated of the old maps |
| Engine.Aggregator.TaintLoop | parser/parser.go:400-418 | the submatch loop of a taint-carrying tier replaces exactly that record by its TaintWith form |
| Engine.Aggregator.Tainted | parser/parser.go:391-486 | the maps become exactly ApplyTainted of the old maps |
| Engine.Aggregator.Deleted | parser/parser.go:488-525 | the maps become exactly ApplyDeleted of the old maps |
| Engine.Aggregator.HandleKind | parser/parser.go:150-526 | the maps become exactly Handle of the old maps for the line's kind |
| Engine.Aggregator.ParseKarpenterLogs | parser/parser.go:135-529 | the maps become exactly Step of the old maps, and the index invariant is kept |
| Engine.Aggregator.NonBlockingParser | parser/parser.go:124-132 | the maps become exactly Fold of the old maps over the lines, and the index invariant is kept |
| Engine.Aggregator.Populatenodeclaimmap | parser/parser.go:98-108 | the ConfigMap keys are visited in some order, each key once; the first is decoded from the zero struct and each later one from the struct stored for the key before it; every other record and the index stay |
| Engine.Restore | parser/parser.go:575-595 | ConvertResult's data read back by Populatenodeclaimmap into a fresh parser restore every record exactly, given a decoder that inverts the encoder |

## Left out

- The regular-expression engine, and with it `matchPattern` (parser/parser.go:82-85): a line is given by its classifier capture and by what each extraction pattern's FindStringSubmatch returned, and Events.MatchPattern only looks that result up. The model does not check the patterns against log text.
- Reading input (`bufio.Scanner`), `BlockingParser`, the Ctrl-C signal goroutine and `scannerErr`: these are I/O and concurrency. NonBlockingParser is modelled over a given sequence of lines.
- Diagnostics written to stderr, and the `inputline` counter, which only feeds them.
- `datetime.Parse`: it is a parameter `parse` from timestamp text to nanoseconds. Its failure mode is not modelled.
- Aggregation.Elapsed: a plain integer difference, without the saturation of Go's `time.Time.Sub` at the int64 range.
- The float fields `Nodereadytimesec`, `Nodelifecycletimesec` and `Nodeterminationtimesec`: the parser sets each one next to its duration (parser/parser.go:288, 505, 513), and `json.Marshal` in ConvertResult puts them into the ConfigMap data. The model drops them because each is `.Seconds()` of a duration it keeps, and floating point is out of scope. They are still counted among the 32 header field names.
- JSON encoding and decoding: `json.Marshal` is a parameter `encode`. `json.Unmarshal` into the reused struct is a parameter `decode(previous, text)`. Encoding errors are not modelled, and a decoding error still stores the struct, as the code does.
- Byte-level strings: a Dafny `string` is a sequence of Unicode scalar values, while a Go string is bytes. Log text is assumed to be valid UTF-8. Only then do LexLess, Split and LastIndex agree with Go's byte-wise order and byte offsets, and only then can `json.Marshal`, which turns invalid bytes into U+FFFD, have a decoder that inverts it, as Engine.Restore assumes.
- `PrintSortedResult`: it only prints. The sorted sequence and the header it prints are modelled by SortResult and BuildHeader.
- Export.SortResult: does not state that entries with equal creation times keep their arrival order, because the parser fills the slice in random map order before the stable sort.
- `reflect` in `init`: the field names are written out in declaration order in Record.FieldNames.
- k8s/k8s.go (connecting to Kubernetes, log streaming, writing the ConfigMap) and the command-line handling in main.go and tools/lp4kcm.go. The ConfigMap round trip is stated by Engine.Restore. The function that reads the ConfigMap back is not part of this model.
- Concurrency: `k8s.go` runs NonBlockingParser in goroutines over shared maps, without locking. The model is sequential.
