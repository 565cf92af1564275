/**
  Turning the registry into output: the (key, record) slice sorted by
  creation time (sortResult), the ConfigMap data with one encoded record
  per nodeclaim (ConvertResult), and the CSV header row built from the
  record's field names (init).
 */
module Export {
  import opened Text
  import opened Record

  /** keyvalue (parser/parser.go:59-62): one registry entry. */
  datatype KeyValue = KeyValue(key: string, value: Nodeclaim)

  /** No entry has a creation time, compared byte-wise, below an earlier entry's. */
  predicate SortedByCreated(s: seq<KeyValue>)
  {
    forall i, j :: 0 <= i < j < |s| ==> !LexLess(s[j].value.createdTime, s[i].value.createdTime)
  }

  /** Every entry of `s` is at or above `x` in creation time. */
  predicate AllAtLeast(x: KeyValue, s: seq<KeyValue>)
  {
    forall i :: 0 <= i < |s| ==> !LexLess(s[i].value.createdTime, x.value.createdTime)
  }

  /** An entry strictly below the head of a sorted sequence is strictly below all of it. */
  lemma BelowHead(x: KeyValue, s: seq<KeyValue>)
    requires |s| > 0 && SortedByCreated(s) && LexLess(x.value.createdTime, s[0].value.createdTime)
    ensures AllAtLeast(x, s)
  {
    forall i | 0 <= i < |s|
      ensures !LexLess(s[i].value.createdTime, x.value.createdTime)
    {
      if LexLess(s[i].value.createdTime, x.value.createdTime) {
        LexLessTransitive(s[i].value.createdTime, x.value.createdTime, s[0].value.createdTime);
        if i == 0 {
          LexLessIrreflexive(s[0].value.createdTime);
        }
      }
    }
  }

  /** Putting an entry in front of a sorted sequence it is not above keeps it sorted. */
  lemma ConsSorted(y: KeyValue, r: seq<KeyValue>)
    requires AllAtLeast(y, r) && SortedByCreated(r)
    ensures SortedByCreated([y] + r)
  {
    forall i, j | 0 <= i < j < |[y] + r|
      ensures !LexLess(([y] + r)[j].value.createdTime, ([y] + r)[i].value.createdTime)
    {
      assert ([y] + r)[j] == r[j - 1];
      if i > 0 {
        assert ([y] + r)[i] == r[i - 1];
      }
    }
  }

  /** The head of a sorted sequence is at or below the rest, and the rest is sorted. */
  lemma TailSorted(s: seq<KeyValue>)
    requires |s| > 0 && SortedByCreated(s)
    ensures AllAtLeast(s[0], s[1..]) && SortedByCreated(s[1..])
  {
    assert forall i :: 0 <= i < |s[1..]| ==> s[1..][i] == s[i + 1];
  }

  /** A lower bound of every entry of `s` and of `x` bounds every entry of a permutation of `s` and `x`. */
  lemma AllAtLeastOfMultiset(y: KeyValue, s: seq<KeyValue>, x: KeyValue, r: seq<KeyValue>)
    requires AllAtLeast(y, s) && !LexLess(x.value.createdTime, y.value.createdTime)
    requires multiset(r) == multiset(s) + multiset{x}
    ensures AllAtLeast(y, r)
  {
    forall i | 0 <= i < |r|
      ensures !LexLess(r[i].value.createdTime, y.value.createdTime)
    {
      assert r[i] in multiset(r);
      if r[i] != x {
        assert r[i] in multiset(s);
        var j :| 0 <= j < |s| && s[j] == r[i];
      }
    }
  }

  /** Inserting an entry after every entry not above it keeps the order (the step of a stable sort). */
  function InsertByCreated(x: KeyValue, s: seq<KeyValue>): (r: seq<KeyValue>)
    requires SortedByCreated(s)
    ensures SortedByCreated(r)
    ensures multiset(r) == multiset(s) + multiset{x}
    decreases |s|
  {
    if s == [] then [x]
    else if LexLess(x.value.createdTime, s[0].value.createdTime) then
      BelowHead(x, s);
      ConsSorted(x, s);
      [x] + s
    else
      TailSorted(s);
      var rest := InsertByCreated(x, s[1..]);
      assert s == [s[0]] + s[1..];
      AllAtLeastOfMultiset(s[0], s[1..], x, rest);
      ConsSorted(s[0], rest);
      [s[0]] + rest
  }

  /** sort.SliceStable by creation time: each entry inserted, in input order, after the entries not above it. */
  function SortByCreated(s: seq<KeyValue>): (r: seq<KeyValue>)
    ensures SortedByCreated(r)
    ensures multiset(r) == multiset(s)
    decreases |s|
  {
    if s == [] then []
    else
      assert s == s[..|s| - 1] + [s[|s| - 1]];
      InsertByCreated(s[|s| - 1], SortByCreated(s[..|s| - 1]))
  }

  /** Each entry of `s` is the registry's own entry for its key. */
  predicate EntriesOf(s: seq<KeyValue>, m: map<string, Nodeclaim>)
  {
    forall i :: 0 <= i < |s| ==> s[i].key in m && s[i].value == m[s[i].key]
  }

  /** No key occurs twice in `s`. */
  predicate DistinctKeys(s: seq<KeyValue>)
  {
    forall i, j :: 0 <= i < j < |s| ==> s[i].key != s[j].key
  }

  /** Every key of the registry occurs in `s`. */
  predicate CoversKeys(s: seq<KeyValue>, m: map<string, Nodeclaim>)
  {
    forall k :: k in m ==> exists i :: 0 <= i < |s| && s[i].key == k
  }

  /** An entry that occurs at two positions occurs at least twice in the multiset. */
  lemma TwiceInMultiset(s: seq<KeyValue>, i: int, j: int)
    requires 0 <= i < j < |s| && s[i] == s[j]
    ensures multiset(s)[s[i]] >= 2
  {
    assert s == s[..j] + s[j..];
    assert s[i] == s[..j][i] && s[j] == s[j..][0];
    assert multiset(s) == multiset(s[..j]) + multiset(s[j..]);
  }

  /** With distinct keys no entry occurs twice. */
  lemma {:induction false} DistinctKeysOnce(s: seq<KeyValue>, x: KeyValue)
    requires DistinctKeys(s)
    ensures multiset(s)[x] <= 1
    decreases |s|
  {
    if s != [] {
      var init, last := s[..|s| - 1], s[|s| - 1];
      assert s == init + [last];
      assert DistinctKeys(init) by {
        forall i, j | 0 <= i < j < |init| ensures init[i].key != init[j].key {
          assert init[i] == s[i] && init[j] == s[j];
        }
      }
      DistinctKeysOnce(init, x);
      if x == last {
        assert x !in init by {
          forall i | 0 <= i < |init| ensures init[i] != x {
            assert init[i] == s[i];
          }
        }
      }
    }
  }

  /** A permutation of the registry's entries, each key once, is again the registry's entries, each key once. */
  lemma PermutationKeepsEntries(a: seq<KeyValue>, b: seq<KeyValue>, m: map<string, Nodeclaim>)
    requires multiset(a) == multiset(b)
    requires EntriesOf(a, m) && DistinctKeys(a) && CoversKeys(a, m)
    ensures |b| == |a| && EntriesOf(b, m) && DistinctKeys(b) && CoversKeys(b, m)
  {
    assert |b| == |multiset(b)| == |multiset(a)| == |a|;
    forall i | 0 <= i < |b| ensures b[i].key in m && b[i].value == m[b[i].key] {
      assert b[i] in multiset(a);
      var j :| 0 <= j < |a| && a[j] == b[i];
    }
    forall i, j | 0 <= i < j < |b| ensures b[i].key != b[j].key {
      if b[i].key == b[j].key {
        TwiceInMultiset(b, i, j);
        DistinctKeysOnce(a, b[i]);
      }
    }
    forall k | k in m ensures exists i :: 0 <= i < |b| && b[i].key == k {
      var j :| 0 <= j < |a| && a[j].key == k;
      assert a[j] in multiset(b);
      var i :| 0 <= i < |b| && b[i] == a[j];
    }
  }

  /**
    `s` holds the registry's entries for the keys outside `rest`, each once,
    as the collecting loop of sortResult has built it so far.
   */
  predicate Collected(s: seq<KeyValue>, rest: set<string>, m: map<string, Nodeclaim>)
  {
    && rest <= m.Keys
    && EntriesOf(s, m) && DistinctKeys(s)
    && (forall i :: 0 <= i < |s| ==> s[i].key !in rest)
    && (forall k :: k in m && k !in rest ==> exists i :: 0 <= i < |s| && s[i].key == k)
  }

  /** Appending the entry of a key still to be collected keeps the collection exact. */
  lemma CollectStep(s: seq<KeyValue>, rest: set<string>, m: map<string, Nodeclaim>, k: string)
    requires Collected(s, rest, m) && k in rest
    ensures Collected(s + [KeyValue(k, m[k])], rest - {k}, m)
  {
    var t := s + [KeyValue(k, m[k])];
    assert t[|s|].key == k;
    assert forall i :: 0 <= i < |s| ==> t[i] == s[i];
  }

  /**
    The collecting loop of sortResult (parser/parser.go:536-541): every
    registry entry appended once, in map iteration order, which is any order.
   */
  method CollectEntries(m: map<string, Nodeclaim>) returns (s: seq<KeyValue>)
    ensures |s| == |m|
    ensures EntriesOf(s, m) && DistinctKeys(s) && CoversKeys(s, m)
  {
    s := [];
    var rest := m.Keys;
    while rest != {}
      invariant |s| + |rest| == |m|
      invariant Collected(s, rest, m)
      decreases rest
    {
      var k :| k in rest;
      CollectStep(s, rest, m, k);
      s := s + [KeyValue(k, m[k])];
      rest := rest - {k};
    }
  }

  /**
    sortResult (parser/parser.go:532-548): the registry's entries collected,
    then sorted by creation time. The result is the registry's entries, each
    key exactly once, in creation order.
   */
  method SortResult(m: map<string, Nodeclaim>) returns (s: seq<KeyValue>)
    ensures SortedByCreated(s)
    ensures |s| == |m|
    ensures EntriesOf(s, m) && DistinctKeys(s) && CoversKeys(s, m)
  {
    var unsorted := CollectEntries(m);
    s := SortByCreated(unsorted);
    PermutationKeepsEntries(unsorted, s, m);
  }

  /**
    The encoding loop of ConvertResult (parser/parser.go:582-590): each entry's
    record, encoded, stored under its key. `encode` stands for json.Marshal.
   */
  method EncodeEntries(s: seq<KeyValue>, m: map<string, Nodeclaim>, encode: Nodeclaim -> string)
    returns (data: map<string, string>)
    requires EntriesOf(s, m)
    ensures forall k :: k in data <==> exists j :: 0 <= j < |s| && s[j].key == k
    ensures forall k :: k in data ==> k in m && data[k] == encode(m[k])
  {
    data := map[];
    for i := 0 to |s|
      invariant forall k :: k in data <==> exists j :: 0 <= j < i && s[j].key == k
      invariant forall k :: k in data ==> k in m && data[k] == encode(m[k])
    {
      data := data[s[i].key := encode(s[i].value)];
    }
  }

  /**
    ConvertResult (parser/parser.go:575-595): the ConfigMap data, one entry
    per nodeclaim holding its encoded record; empty for an empty registry.
   */
  method ConvertResult(m: map<string, Nodeclaim>, encode: Nodeclaim -> string) returns (data: map<string, string>)
    ensures data.Keys == m.Keys
    ensures forall k :: k in m ==> data[k] == encode(m[k])
  {
    data := map[];
    if |m| != 0 {
      var s := SortResult(m);
      data := EncodeEntries(s, m, encode);
    } else {
      assert m.Keys == {};
    }
  }

  // ---------------------------------------------------------------------
  // The header row (init, parser/parser.go:66-79)
  // ---------------------------------------------------------------------

  /**
    The column names in output order: the key, then the record's fields. This
    and HeaderColumns are the closed forms the header loop is proved against.
   */
  function ColumnNames(): (names: seq<string>)
    ensures |names| == 33 && names[0] == "Nodeclaim" && names[1..] == FieldNames()
  {
    ["Nodeclaim"] + FieldNames()
  }

  /** A column label: the name and its 1-based position, as awk counts fields. */
  function Column(name: string, position: nat): string
  {
    name + "[" + NatToString(position) + "]"
  }

  /** The header's columns, in closed form: column j is labelled with position j + 1. */
  function HeaderColumns(): (cols: seq<string>)
    ensures |cols| == 33
    ensures forall j :: 0 <= j < 33 ==> cols[j] == Column(ColumnNames()[j], j + 1)
  {
    seq(33, j requires 0 <= j < 33 => Column(ColumnNames()[j], j + 1))
  }

  /** No column name contains the CSV separator. */
  lemma NamesHaveNoComma()
    ensures forall j :: 0 <= j < 33 ==> ',' !in ColumnNames()[j]
  {
    var names := ColumnNames();
    FieldNamesHaveNoComma();
    assert ',' !in names[0];
    forall j | 0 < j < 33 ensures ',' !in names[j] {
      assert names[j] == FieldNames()[j - 1];
    }
  }

  /** No column label contains the CSV separator. */
  lemma ColumnsHaveNoComma()
    ensures forall j :: 0 <= j < 33 ==> ',' !in HeaderColumns()[j]
  {
    NamesHaveNoComma();
    forall j | 0 <= j < 33 ensures ',' !in HeaderColumns()[j] {
      var digits := NatToString(j + 1);
      assert Digits(digits);
      assert ',' !in digits;
    }
  }

  /**
    init (parser/parser.go:66-79): the header starts with the key column and
    appends ",Name[position]" for each field. Splitting it at commas gives
    back exactly the 33 labelled columns.
   */
  method BuildHeader() returns (header: string)
    ensures header == Join(",", HeaderColumns())
    ensures Split(header, ',') == HeaderColumns()
  {
    var names := FieldNames();
    header := "Nodeclaim[1]";
    HeaderStart();
    for i := 0 to |names|
      invariant header == Join(",", HeaderColumns()[..i + 1])
    {
      HeaderStep(i);
      header := header + "," + names[i] + "[" + NatToString(i + 2) + "]";
    }
    assert HeaderColumns()[..|names| + 1] == HeaderColumns();
    HeaderSplitsIntoColumns();
  }

  /** The header starts as the key column's label. */
  lemma HeaderStart()
    ensures Join(",", HeaderColumns()[..1]) == "Nodeclaim[1]"
  {
    var cols := HeaderColumns();
    assert cols[..1] == [cols[0]];
    assert cols[0] == Column("Nodeclaim", 1);
  }

  /** Appending field `i`'s label to the header of the first i + 1 columns gives the header of i + 2. */
  lemma HeaderStep(i: nat)
    requires i < 32
    ensures Join(",", HeaderColumns()[..i + 2])
         == Join(",", HeaderColumns()[..i + 1]) + "," + FieldNames()[i] + "[" + NatToString(i + 2) + "]"
  {
    var cols := HeaderColumns();
    assert cols[..i + 2][..i + 1] == cols[..i + 1];
    assert ColumnNames()[i + 1] == FieldNames()[i];
    assert cols[i + 1] == FieldNames()[i] + "[" + NatToString(i + 2) + "]";
  }

  /** Splitting the joined header at commas gives back the 33 column labels. */
  lemma HeaderSplitsIntoColumns()
    ensures Split(Join(",", HeaderColumns()), ',') == HeaderColumns()
  {
    ColumnsHaveNoComma();
    SplitJoin(HeaderColumns(), ',');
  }
}
