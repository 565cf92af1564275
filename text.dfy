/**
  The string operations the parser relies on: the instance-type replacer,
  substring search, the last "/"-segment of a provider id, Go's order on
  strings, decimal rendering of column numbers, and separator joining and
  splitting (used to state what the header row looks like).
 */
module Text {

  // ---------------------------------------------------------------------
  // Substring search (Go's strings.Contains and strings.LastIndex)
  // ---------------------------------------------------------------------

  /** `t` occurs in `s` starting at position `i`. */
  predicate OccursAt(s: string, t: string, i: int)
  {
    0 <= i && i + |t| <= |s| && s[i..i + |t|] == t
  }

  /** Go's strings.Contains: decided by the same backward scan that LastIndex makes. */
  predicate Contains(s: string, t: string)
    ensures Contains(s, t) <==> LastIndexUpTo(s, t, |s| - |t|) >= 0
  {
    exists i | 0 <= i <= |s| - |t| :: OccursAt(s, t, i)
  }

  /** The last occurrence of `t` in `s` at a position no greater than `i`, or -1. */
  function LastIndexUpTo(s: string, t: string, i: int): (k: int)
    requires i <= |s| - |t|
    ensures k == -1 || (0 <= k <= i && OccursAt(s, t, k))
    ensures forall j :: k < j <= i ==> !OccursAt(s, t, j)
    decreases if i < 0 then 0 else i + 1
  {
    if i < 0 then -1
    else if OccursAt(s, t, i) then i
    else LastIndexUpTo(s, t, i - 1)
  }

  /** Go's strings.LastIndex: where the last occurrence of `t` starts, -1 if there is none. */
  function LastIndex(s: string, t: string): (k: int)
    ensures k == -1 <==> !Contains(s, t)
    ensures k != -1 ==> OccursAt(s, t, k)
    ensures forall j :: k < j ==> !OccursAt(s, t, j)
  {
    LastIndexUpTo(s, t, |s| - |t|)
  }

  // ---------------------------------------------------------------------
  // Instance-type normalisation (parser/parser.go:142, 167-172)
  // ---------------------------------------------------------------------

  /** Text the replacer copies unchanged: no comma, space or opening parenthesis. */
  predicate Plain(s: string)
  {
    forall i :: 0 <= i < |s| ==> s[i] != ',' && s[i] != ' ' && s[i] != '('
  }

  /**
    strings.NewReplacer(", ", "|", " ", "", "(s)", "s").Replace: scanning left
    to right without overlaps, ", " becomes "|", any other space is dropped and
    "(s)" becomes "s". The three old strings start with different characters,
    so at most one of them can match at any position and the argument order
    that Go uses to break ties never matters.
   */
  function Replace(s: string): (r: string)
    ensures ' ' !in r
    decreases |s|
  {
    if |s| == 0 then ""
    else if |s| >= 2 && s[0] == ',' && s[1] == ' ' then "|" + Replace(s[2..])
    else if s[0] == ' ' then Replace(s[1..])
    else if |s| >= 3 && s[0] == '(' && s[1] == 's' && s[2] == ')' then "s" + Replace(s[3..])
    else [s[0]] + Replace(s[1..])
  }

  /**
    The requested instance types of a "created nodeclaim" line. Karpenter
    truncates long lists to "a, b, c and N other(s)"; that text is cut at the
    last " and " and the two parts are normalised separately and joined by "|".
   */
  function NormalizeInstanceTypes(raw: string): (r: string)
    ensures ' ' !in r
  {
    if Contains(raw, " and ") then
      var position := LastIndex(raw, " and ");
      Replace(raw[..position]) + "|" + Replace(raw[position..])
    else
      Replace(raw)
  }

  /** Plain text passes through the replacer unchanged. */
  lemma {:induction false} ReplacePlainPrefix(p: string, x: string)
    requires Plain(p)
    ensures Replace(p + x) == p + Replace(x)
    decreases |p|
  {
    if |p| > 0 {
      var s := p + x;
      assert s[0] == p[0];
      assert s[1..] == p[1..] + x;
      ReplacePlainPrefix(p[1..], x);
      assert p == [p[0]] + p[1..];
    } else {
      assert p + x == x;
    }
  }

  /** A space that does not follow a comma is dropped. */
  lemma ReplaceDropsSpace(x: string)
    ensures Replace(" " + x) == Replace(x)
  {
    var s := " " + x;
    assert s[0] == ' ';
    assert s[1..] == x;
  }

  /** ", " followed by more text becomes "|". */
  lemma ReplaceCommaSpace(x: string)
    ensures Replace(", " + x) == "|" + Replace(x)
  {
    assert (", " + x)[..2] == ", ";
    assert (", " + x)[2..] == x;
  }

  /** Joins `parts` with `sep` between neighbours (Go's strings.Join). */
  function Join(sep: string, parts: seq<string>): string
  {
    if |parts| == 0 then ""
    else if |parts| == 1 then parts[0]
    else Join(sep, parts[..|parts| - 1]) + sep + parts[|parts| - 1]
  }

  /** The comma-separated list Karpenter prints becomes the "|"-separated list. */
  lemma {:induction false} ReplaceJoin(names: seq<string>)
    requires forall i :: 0 <= i < |names| ==> Plain(names[i])
    ensures Replace(Join(", ", names)) == Join("|", names)
    decreases |names|
  {
    if |names| == 1 {
      ReplacePlainPrefix(names[0], "");
      assert names[0] + "" == names[0];
    } else if |names| > 1 {
      var init := names[..|names| - 1];
      var last := names[|names| - 1];
      ReplaceJoin(init);
      assert Join(", ", names) == Join(", ", init) + (", " + last);
      ReplaceSplitBeforeComma(Join(", ", init), ", " + last);
      ReplaceCommaSpace(last);
      ReplacePlainPrefix(last, "");
      assert last + "" == last;
    }
  }

  /** A first character that starts none of the three rules is copied, whatever follows it. */
  lemma ReplaceCopiesHead(a: string, b: string)
    requires |a| > 0 && |b| > 0 && b[0] == ','
    requires !(|a| >= 2 && a[0] == ',' && a[1] == ' ') && a[0] != ' '
    requires !(|a| >= 3 && a[0] == '(' && a[1] == 's' && a[2] == ')')
    ensures Replace(a + b) == [a[0]] + Replace(a[1..] + b)
  {
    var s := a + b;
    assert s[0] == a[0];
    assert |a| >= 2 ==> s[1] == a[1];
    assert |a| >= 3 ==> s[2] == a[2];
    assert |a| == 1 ==> s[1] == ',';
    assert |a| == 2 ==> s[2] == ',';
    assert s[1..] == a[1..] + b;
  }

  /** No replaced text spans a boundary that is followed by a comma. */
  lemma {:induction false} ReplaceSplitBeforeComma(a: string, b: string)
    requires |b| > 0 && b[0] == ','
    ensures Replace(a + b) == Replace(a) + Replace(b)
    decreases |a|
  {
    var s := a + b;
    if |a| == 0 {
      assert s == b;
    } else if |a| >= 2 && a[0] == ',' && a[1] == ' ' {
      assert s[0] == ',' && s[1] == ' ';
      assert s[2..] == a[2..] + b;
      ReplaceSplitBeforeComma(a[2..], b);
    } else if a[0] == ' ' {
      assert s[0] == ' ';
      assert s[1..] == a[1..] + b;
      ReplaceSplitBeforeComma(a[1..], b);
    } else if |a| >= 3 && a[0] == '(' && a[1] == 's' && a[2] == ')' {
      assert s[0] == '(' && s[1] == 's' && s[2] == ')';
      assert s[3..] == a[3..] + b;
      ReplaceSplitBeforeComma(a[3..], b);
    } else {
      ReplaceCopiesHead(a, b);
      ReplaceSplitBeforeComma(a[1..], b);
    }
  }

  /** Only decimal digits. */
  predicate Digits(s: string)
  {
    forall i :: 0 <= i < |s| ==> '0' <= s[i] <= '9'
  }

  /** A text differing from `t` in one character at position `i` is no occurrence of `t` there. */
  lemma MismatchAt(s: string, t: string, i: int, k: int)
    requires 0 <= i && 0 <= k < |t|
    requires i + |t| <= |s| ==> s[i + k] != t[k]
    ensures !OccursAt(s, t, i)
  {
    if i + |t| <= |s| {
      assert s[i..i + |t|][k] == s[i + k];
    }
  }

  /** In "a, b and N other(s)" the last " and " is the one before the count. */
  lemma LastAndBeforeCount(j: string, count: string)
    requires Digits(count)
    ensures LastIndex(j + (" and " + count + " other(s)"), " and ") == |j|
  {
    var pat, others := " and ", " other(s)";
    var t := pat + count + others;
    var s := j + t;
    assert OccursAt(s, pat, |j|) by { assert s[|j|..|j| + 5] == t[..5]; }
    forall i | |j| < i
      ensures !OccursAt(s, pat, i)
    {
      var d := i - |j|;
      if i + 5 <= |s| {
        assert s[i] == t[d] && s[i + 1] == t[d + 1];
        if d < 4 {
          assert t[d] == pat[d];
          MismatchAt(s, pat, i, 0);
        } else if d == 4 {
          if |count| > 0 { assert t[5] == count[0]; } else { assert t[5] == others[0]; }
          MismatchAt(s, pat, i, 1);
        } else if d < 5 + |count| {
          assert t[d] == count[d - 5];
          MismatchAt(s, pat, i, 0);
        } else {
          var e := d - 5 - |count|;
          assert t[d] == others[e] && t[d + 1] == others[e + 1];
          if e == 0 { MismatchAt(s, pat, i, 1); } else { MismatchAt(s, pat, i, 0); }
        }
      } else {
        assert !OccursAt(s, pat, i);
      }
    }
  }

  /** The suffix " and N other(s)" becomes "andNothers". */
  lemma ReplaceOthersSuffix(count: string)
    requires Digits(count)
    ensures Replace(" and " + count + " other(s)") == "and" + count + "others"
  {
    assert Plain(count) by {
      forall i | 0 <= i < |count|
        ensures count[i] != ',' && count[i] != ' ' && count[i] != '('
      {
        assert '0' <= count[i] <= '9';
      }
    }
    var tail := " " + ("other" + "(s)");
    calc {
      Replace(" and " + count + " other(s)");
      { assert " and " + count + " other(s)" == " " + ("and" + (" " + (count + tail))); }
      Replace(" " + ("and" + (" " + (count + tail))));
      { ReplaceDropsSpace("and" + (" " + (count + tail))); }
      Replace("and" + (" " + (count + tail)));
      { ReplacePlainPrefix("and", " " + (count + tail)); }
      "and" + Replace(" " + (count + tail));
      { ReplaceDropsSpace(count + tail); }
      "and" + Replace(count + tail);
      { ReplacePlainPrefix(count, tail); }
      "and" + (count + Replace(tail));
      { ReplaceDropsSpace("other" + "(s)"); }
      "and" + (count + Replace("other" + "(s)"));
      { ReplacePlainPrefix("other", "(s)"); }
      "and" + (count + ("other" + Replace("(s)")));
      { assert "(s)"[..3] == "(s)"; assert "(s)"[3..] == ""; }
      "and" + count + "others";
    }
  }

  /** Every space in `s` directly follows a comma, as in a ", "-separated list of plain names. */
  predicate SpacesFollowCommas(s: string)
  {
    forall i :: 0 <= i < |s| && s[i] == ' ' ==> 0 < i && s[i - 1] == ','
  }

  /** Karpenter's ", "-separated list of plain names has a space only after each comma. */
  lemma {:induction false} JoinSpacesFollowCommas(names: seq<string>)
    requires forall i :: 0 <= i < |names| ==> Plain(names[i])
    ensures SpacesFollowCommas(Join(", ", names))
    decreases |names|
  {
    if |names| >= 2 {
      var init := names[..|names| - 1];
      var last := names[|names| - 1];
      JoinSpacesFollowCommas(init);
      var j := Join(", ", init);
      var s := j + ", " + last;
      assert Join(", ", names) == s;
      assert s[|j|] == ',';
      assert forall k :: |j| + 2 <= k < |s| ==> s[k] == last[k - |j| - 2];
      forall i | 0 <= i < |s| && s[i] == ' ' ensures 0 < i && s[i - 1] == ',' {
        if i < |j| {
          assert s[i] == j[i];
        }
      }
    }
  }

  /** Text whose spaces all follow commas never contains " and ", whose last space follows a 'd'. */
  lemma NoAndWhereSpacesFollowCommas(s: string)
    requires SpacesFollowCommas(s)
    ensures !Contains(s, " and ")
  {
    forall i | 0 <= i <= |s| - 5 ensures !OccursAt(s, " and ", i) {
      if s[i + 4] == ' ' {
        MismatchAt(s, " and ", i, 3);
      } else {
        MismatchAt(s, " and ", i, 4);
      }
    }
  }

  /** An untruncated list "a, b, c" is not cut, and becomes "a|b|c". */
  lemma NormalizeUntruncated(names: seq<string>)
    requires forall i :: 0 <= i < |names| ==> Plain(names[i])
    ensures NormalizeInstanceTypes(Join(", ", names)) == Join("|", names)
  {
    JoinSpacesFollowCommas(names);
    NoAndWhereSpacesFollowCommas(Join(", ", names));
    ReplaceJoin(names);
  }

  /**
    A truncated list "a, b, c and N other(s)" becomes "a|b|c|andNothers": the
    explicit types joined by "|", then the suffix with its spaces removed.
   */
  lemma NormalizeTruncatedList(names: seq<string>, count: string)
    requires forall i :: 0 <= i < |names| ==> Plain(names[i])
    requires Digits(count)
    ensures NormalizeInstanceTypes(Join(", ", names) + " and " + count + " other(s)")
         == Join("|", names) + "|and" + count + "others"
  {
    var j := Join(", ", names);
    NormalizeCutsBeforeCount(j, count);
    ReplaceJoin(names);
    ReplaceOthersSuffix(count);
    ConcatOthers(Join("|", names), count);
  }

  /** Helper for NormalizeTruncatedList: regrouping the concatenation of the two halves. */
  lemma ConcatOthers(types: string, count: string)
    ensures types + "|" + ("and" + count + "others") == types + "|and" + count + "others"
  {
  }

  /** The text is cut at the " and " that precedes the count. */
  lemma NormalizeCutsBeforeCount(j: string, count: string)
    requires Digits(count)
    ensures NormalizeInstanceTypes(j + " and " + count + " other(s)")
         == Replace(j) + "|" + Replace(" and " + count + " other(s)")
  {
    var t := " and " + count + " other(s)";
    assert j + " and " + count + " other(s)" == j + t;
    LastAndBeforeCount(j, count);
    NormalizeCutsAt(j, t);
  }

  /** When the last " and " starts where `t` starts, the two sides are replaced separately. */
  lemma NormalizeCutsAt(j: string, t: string)
    requires LastIndex(j + t, " and ") == |j|
    ensures NormalizeInstanceTypes(j + t) == Replace(j) + "|" + Replace(t)
  {
    var s := j + t;
    assert s[..|j|] == j && s[|j|..] == t;
  }

  // ---------------------------------------------------------------------
  // Provider id (parser/parser.go:229-230)
  // ---------------------------------------------------------------------

  /**
    The last element of strings.Split(s, "/"): the text after the last "/", or
    all of `s` when it has none. It is the longest suffix without a "/".
   */
  function LastSegment(s: string): (r: string)
    ensures '/' !in r
    ensures |r| <= |s| && r == s[|s| - |r|..]
    ensures |r| < |s| ==> s[|s| - |r| - 1] == '/'
    ensures '/' !in s ==> r == s
  {
    if |s| == 0 || s[|s| - 1] == '/' then ""
    else LastSegment(s[..|s| - 1]) + [s[|s| - 1]]
  }

  /** LastSegment is the last piece that strings.Split(s, "/") returns. */
  lemma {:induction false} LastSegmentIsLastPiece(s: string)
    ensures LastSegment(s) == Split(s, '/')[|Split(s, '/')| - 1]
    decreases |s|
  {
    if |s| > 0 {
      LastSegmentIsLastPiece(s[..|s| - 1]);
    }
  }

  /** A provider URI "aws:///zone/i-0abc" yields its final component "i-0abc". */
  lemma LastSegmentOfPath(prefix: string, segment: string)
    requires '/' !in segment
    ensures LastSegment(prefix + "/" + segment) == segment
  {
    var s := prefix + "/" + segment;
    var r := LastSegment(s);
    assert s[|s| - |segment|..] == segment;
    assert s[|s| - |segment| - 1] == '/';

  }

  // ---------------------------------------------------------------------
  // Go's `<` on strings (parser/parser.go:543-545)
  // ---------------------------------------------------------------------

  /**
    Go's `a < b` on strings: lexicographic by bytes. Comparing characters by
    code point gives the same order, because UTF-8 preserves code point order.
   */
  predicate LexLess(a: string, b: string)
  {
    if |a| == 0 then |b| > 0
    else if |b| == 0 then false
    else if a[0] != b[0] then a[0] < b[0]
    else LexLess(a[1..], b[1..])
  }

  lemma {:induction false} LexLessIrreflexive(a: string)
    ensures !LexLess(a, a)
  {
    if |a| > 0 { LexLessIrreflexive(a[1..]); }
  }

  lemma {:induction false} LexLessAsymmetric(a: string, b: string)
    requires LexLess(a, b)
    ensures !LexLess(b, a)
  {
    if |a| > 0 && |b| > 0 && a[0] == b[0] { LexLessAsymmetric(a[1..], b[1..]); }
  }

  lemma {:induction false} LexLessTransitive(a: string, b: string, c: string)
    requires LexLess(a, b) && LexLess(b, c)
    ensures LexLess(a, c)
  {
    if |a| > 0 && |b| > 0 && |c| > 0 && a[0] == b[0] && b[0] == c[0] {
      LexLessTransitive(a[1..], b[1..], c[1..]);
    }
  }

  /** Any two different strings are ordered one way or the other. */
  lemma {:induction false} LexLessTotal(a: string, b: string)
    ensures a == b || LexLess(a, b) || LexLess(b, a)
  {
    if |a| > 0 && |b| > 0 && a[0] == b[0] {
      LexLessTotal(a[1..], b[1..]);
      if a[1..] == b[1..] {
        assert a == [a[0]] + a[1..] && b == [b[0]] + b[1..];
      }
    }
  }

  /** "Not after" (Go's `<=`) is transitive too. */
  lemma LexNotLessTransitive(a: string, b: string, c: string)
    requires !LexLess(b, a) && !LexLess(c, b)
    ensures !LexLess(c, a)
  {
    if LexLess(c, a) {
      LexLessTotal(a, b);
      if a != b {
        LexLessTransitive(c, a, b);
      }
    }
  }

  // ---------------------------------------------------------------------
  // Decimal numbers (the %d of the header, parser/parser.go:77)
  // ---------------------------------------------------------------------

  function DigitChar(d: nat): (c: char)
    requires d < 10
  {
    (48 + d) as char
  }

  /** Decimal rendering of `n`, without leading zeros. */
  function NatToString(n: nat): (r: string)
    ensures |r| > 0 && Digits(r)
    ensures r[0] == '0' ==> n == 0
  {
    if n < 10 then [DigitChar(n)]
    else NatToString(n / 10) + [DigitChar(n % 10)]
  }

  /** The number a string of decimal digits denotes. */
  function DecimalValue(s: string): nat
    requires Digits(s)
  {
    if |s| == 0 then 0
    else 10 * DecimalValue(s[..|s| - 1]) + (s[|s| - 1] as int - 48)
  }

  /** Reading back a rendered number gives the number. */
  lemma {:induction false} NatToStringRoundTrip(n: nat)
    ensures DecimalValue(NatToString(n)) == n
  {
    if n >= 10 {
      var r := NatToString(n);
      assert r[..|r| - 1] == NatToString(n / 10);
      NatToStringRoundTrip(n / 10);
    }
  }

  // ---------------------------------------------------------------------
  // Splitting at a separator character
  // ---------------------------------------------------------------------

  /** The pieces of `s` between occurrences of `c` (Go's strings.Split for one character). */
  function Split(s: string, c: char): (r: seq<string>)
    ensures |r| > 0
  {
    if |s| == 0 then [""]
    else
      var init := Split(s[..|s| - 1], c);
      if s[|s| - 1] == c then init + [""]
      else init[..|init| - 1] + [init[|init| - 1] + [s[|s| - 1]]]
  }

  /** Splitting text that ends in a separator-free piece after a separator. */
  lemma {:induction false} SplitSnoc(a: string, c: char, x: string)
    requires c !in x
    ensures Split(a + [c] + x, c) == Split(a, c) + [x]
    decreases |x|
  {
    if |x| == 0 {
      assert a + [c] + x == a + [c];
      assert (a + [c])[..|a + [c]| - 1] == a;
    } else {
      var x' := x[..|x| - 1];
      var s := a + [c] + x;
      assert s[..|s| - 1] == a + [c] + x';
      assert s[|s| - 1] == x[|x| - 1];
      SplitSnoc(a, c, x');
      assert x' + [x[|x| - 1]] == x;
    }
  }

  /** Text without the separator is one piece. */
  lemma {:induction false} SplitNone(x: string, c: char)
    requires c !in x
    ensures Split(x, c) == [x]
    decreases |x|
  {
    if |x| > 0 {
      SplitNone(x[..|x| - 1], c);
      assert x[..|x| - 1] + [x[|x| - 1]] == x;
    }
  }

  /** Joining separator-free pieces and splitting again gives the pieces back. */
  lemma {:induction false} SplitJoin(parts: seq<string>, c: char)
    requires |parts| > 0
    requires forall i :: 0 <= i < |parts| ==> c !in parts[i]
    ensures Split(Join([c], parts), c) == parts
    decreases |parts|
  {
    if |parts| == 1 {
      SplitNone(parts[0], c);
    } else {
      var init := parts[..|parts| - 1];
      SplitJoin(init, c);
      SplitSnoc(Join([c], init), c, parts[|parts| - 1]);
      assert init + [parts[|parts| - 1]] == parts;
    }
  }
}
