/**
  The handful of Go `strings` operations (and the string order `<`) that the
  jq builder relies on, over strings seen as sequences of characters, plus
  `Join`, the reference form of the list the builder's loop accumulates.
  Each one is a reference definition whose contract says what the library
  promises; the lemmas relate them to one another (Split against Join,
  TrimSpace against its own fixed points, Less as a strict total order).
*/
module GoStrings {

  /** `strings.LastIndex(s, string(c))` for a one-character needle: -1 when `c` is absent. */
  function LastIndex(s: string, c: char): (r: int)
    ensures -1 <= r < |s|
    ensures r == -1 <==> c !in s
    ensures r >= 0 ==> s[r] == c && c !in s[r + 1..]
  {
    if |s| == 0 then -1
    else if s[|s| - 1] == c then |s| - 1
    else
      assert s == s[..|s| - 1] + [s[|s| - 1]];
      var r := LastIndex(s[..|s| - 1], c);
      assert r >= 0 ==> s[r + 1..] == s[..|s| - 1][r + 1..] + [s[|s| - 1]];
      r
  }

  /** The last occurrence of `c` is the position after which `c` no longer appears. */
  lemma LastIndexAt(s: string, c: char, r: nat)
    requires r < |s| && s[r] == c && c !in s[r + 1..]
    ensures LastIndex(s, c) == r
  {
    var l := LastIndex(s, c);
    assert forall k :: l < k < |s| ==> s[k] != c by {
      forall k | l < k < |s| ensures s[k] != c {
        assert s[k] == s[l + 1..][k - l - 1];
      }
    }
    assert forall k :: r < k < |s| ==> s[k] != c by {
      forall k | r < k < |s| ensures s[k] != c {
        assert s[k] == s[r + 1..][k - r - 1];
      }
    }
  }

  /** A character in neither the parts nor the separator is not in their join. */
  lemma {:induction false} NotInJoin(parts: seq<string>, sep: string, c: char)
    requires c !in sep
    requires forall i :: 0 <= i < |parts| ==> c !in parts[i]
    ensures c !in Join(parts, sep)
  {
    if |parts| > 1 {
      NotInJoin(parts[1..], sep, c);
    }
  }

  /** `strings.Index(s, string(c))` for a one-character needle: -1 when `c` is absent. */
  function Index(s: string, c: char): (r: int)
    ensures -1 <= r < |s|
    ensures r == -1 <==> c !in s
    ensures r >= 0 ==> s[r] == c && c !in s[..r]
  {
    if |s| == 0 then -1
    else if s[0] == c then 0
    else
      assert s == [s[0]] + s[1..];
      var r := Index(s[1..], c);
      if r == -1 then -1
      else
        assert s[..r + 1] == [s[0]] + s[1..][..r];
        r + 1
  }

  /** The first occurrence of `c` is the position before which `c` does not appear. */
  lemma IndexAt(s: string, c: char, r: nat)
    requires r < |s| && s[r] == c && c !in s[..r]
    ensures Index(s, c) == r
  {
    var l := Index(s, c);
    assert s[r] in s;
    assert forall k :: 0 <= k < r ==> s[k] != c by {
      forall k | 0 <= k < r ensures s[k] != c {
        assert s[k] == s[..r][k];
      }
    }
    assert forall k :: 0 <= k < l ==> s[k] != c by {
      forall k | 0 <= k < l ensures s[k] != c {
        assert s[k] == s[..l][k];
      }
    }
  }

  /**
    The parts separated by `sep`: the reference definition of the text the
    builder's loop accumulates between the braces (the file itself never
    calls `strings.Join`).
  */
  function Join(parts: seq<string>, sep: string): string
  {
    if |parts| == 0 then ""
    else if |parts| == 1 then parts[0]
    else parts[0] + sep + Join(parts[1..], sep)
  }

  /** Appending one more part to a non-empty join adds the separator and the part. */
  lemma {:induction false} JoinSnoc(parts: seq<string>, x: string, sep: string)
    requires |parts| >= 1
    ensures Join(parts + [x], sep) == Join(parts, sep) + sep + x
  {
    if |parts| > 1 {
      assert (parts + [x])[1..] == parts[1..] + [x];
      JoinSnoc(parts[1..], x, sep);
    }
  }

  /** `strings.Split(s, string(sep))` for a one-character separator. */
  function Split(s: string, sep: char): (parts: seq<string>)
    ensures |parts| >= 1
    ensures forall i :: 0 <= i < |parts| ==> sep !in parts[i]
    decreases |s|
  {
    var i := Index(s, sep);
    if i == -1 then [s]
    else [s[..i]] + Split(s[i + 1..], sep)
  }

  /** There is one more piece than there are separators. */
  lemma {:induction false} SplitCount(s: string, sep: char)
    ensures |Split(s, sep)| == multiset(s)[sep] + 1
    decreases |s|
  {
    var i := Index(s, sep);
    if i == -1 {
      assert multiset(s)[sep] == 0;
    } else {
      Around(s, i);
      assert multiset(s[..i])[sep] == 0;
      SplitCount(s[i + 1..], sep);
    }
  }

  /** A string is what comes before position `i`, the character there, and what follows. */
  lemma Around(s: string, i: nat)
    requires i < |s|
    ensures s == s[..i] + [s[i]] + s[i + 1..]
  {
  }

  /** Joining the pieces of a split with the separator gives the string back. */
  lemma {:induction false} JoinSplit(s: string, sep: char)
    ensures Join(Split(s, sep), [sep]) == s
    decreases |s|
  {
    var i := Index(s, sep);
    if i != -1 {
      var rest := Split(s[i + 1..], sep);
      JoinSplit(s[i + 1..], sep);
      var parts := [s[..i]] + rest;
      assert Split(s, sep) == parts;
      assert parts[1..] == rest;
      assert Join(parts, [sep]) == s[..i] + [sep] + Join(rest, [sep]);
      Around(s, i);
    }
  }

  /** Splitting a join of separator-free parts gives the parts back. */
  lemma {:induction false} SplitJoin(parts: seq<string>, sep: char)
    requires |parts| >= 1
    requires forall i :: 0 <= i < |parts| ==> sep !in parts[i]
    ensures Split(Join(parts, [sep]), sep) == parts
  {
    var s := Join(parts, [sep]);
    if |parts| == 1 {
      assert Index(s, sep) == -1;
    } else {
      var tail := Join(parts[1..], [sep]);
      assert s == parts[0] + [sep] + tail;
      assert s[|parts[0]|] == sep;
      assert sep !in s[..|parts[0]|] by {
        assert s[..|parts[0]|] == parts[0];
      }
      assert Index(s, sep) == |parts[0]|;
      assert s[..|parts[0]|] == parts[0];
      assert s[|parts[0]| + 1..] == tail;
      SplitJoin(parts[1..], sep);
    }
  }

  /** Every part after the first, preceded by `pre`. */
  function PrefixTail(parts: seq<string>, pre: string): seq<string>
  {
    if |parts| == 0 then [] else [parts[0]] + seq(|parts| - 1, i requires 0 <= i < |parts| - 1 => pre + parts[i + 1])
  }

  /** The length of the prefixed parts, and part `i` of them. */
  lemma PrefixTailAt(parts: seq<string>, pre: string, i: nat)
    requires i < |parts|
    ensures |PrefixTail(parts, pre)| == |parts|
    ensures PrefixTail(parts, pre)[i] == if i == 0 then parts[0] else pre + parts[i]
  {
  }

  /** A longer separator is a one-character separator followed by the rest, moved onto the parts. */
  lemma {:induction false} JoinLongSeparator(parts: seq<string>, c: char, pre: string)
    ensures Join(parts, [c] + pre) == Join(PrefixTail(parts, pre), [c])
  {
    if |parts| > 1 {
      var p := PrefixTail(parts, pre);
      var q := PrefixTail(parts[1..], pre);
      JoinLongSeparator(parts[1..], c, pre);
      assert Join(p[1..], [c]) == pre + Join(q, [c]) by {
        JoinPrefixFirst(q, [c], pre);
        assert p[1..] == [pre + q[0]] + q[1..];
        assert |q| == |parts| - 1;
        if |q| == 1 {
          assert p[1..] == [pre + q[0]];
        } else {
          assert Join(p[1..], [c]) == pre + q[0] + [c] + Join(p[1..][1..], [c]);
          assert p[1..][1..] == q[1..];
        }
      }
    }
  }

  /** Putting `pre` in front of the first part of a join puts it in front of the whole join. */
  lemma JoinPrefixFirst(parts: seq<string>, sep: string, pre: string)
    requires |parts| >= 1
    ensures Join([pre + parts[0]] + parts[1..], sep) == pre + Join(parts, sep)
  {
    var t := [pre + parts[0]] + parts[1..];
    assert t[1..] == parts[1..];
  }

  /** Go's `unicode.IsSpace`, which `strings.TrimSpace` uses. */
  predicate IsSpace(c: char)
  {
    c == '\t' || c == '\n' || c == '\U{000B}' || c == '\U{000C}' || c == '\r' || c == ' ' ||
    c == '\U{0085}' || c == '\U{00A0}' || c == '\U{1680}' ||
    ('\U{2000}' <= c <= '\U{200A}') ||
    c == '\U{2028}' || c == '\U{2029}' || c == '\U{202F}' || c == '\U{205F}' || c == '\U{3000}'
  }

  predicate AllSpace(s: string)
  {
    forall i :: 0 <= i < |s| ==> IsSpace(s[i])
  }

  /** Neither end of `s` is white space. */
  predicate Trimmed(s: string)
  {
    s == [] || (!IsSpace(s[0]) && !IsSpace(s[|s| - 1]))
  }

  /** The first index at or after `from` that is not white space (`|s|` if none). */
  function TrimStart(s: string, from: nat): (i: nat)
    requires from <= |s|
    ensures from <= i <= |s|
    ensures i < |s| ==> !IsSpace(s[i])
    decreases |s| - from
  {
    if from == |s| || !IsSpace(s[from]) then from else TrimStart(s, from + 1)
  }

  /** Everything TrimStart skips is white space. */
  lemma {:induction false} TrimStartSkipsSpace(s: string, from: nat)
    requires from <= |s|
    ensures AllSpace(s[from..TrimStart(s, from)])
    decreases |s| - from
  {
    if from < |s| && IsSpace(s[from]) {
      TrimStartSkipsSpace(s, from + 1);
      assert s[from..TrimStart(s, from)] == [s[from]] + s[from + 1..TrimStart(s, from)];
    }
  }

  /** The end of `s[lo..hi]` once trailing white space is dropped. */
  function TrimStop(s: string, lo: nat, hi: nat): (j: nat)
    requires lo <= hi <= |s|
    ensures lo <= j <= hi
    ensures j > lo ==> !IsSpace(s[j - 1])
    decreases hi
  {
    if hi == lo || !IsSpace(s[hi - 1]) then hi else TrimStop(s, lo, hi - 1)
  }

  /** Everything TrimStop drops is white space. */
  lemma {:induction false} TrimStopDropsSpace(s: string, lo: nat, hi: nat)
    requires lo <= hi <= |s|
    ensures AllSpace(s[TrimStop(s, lo, hi)..hi])
    decreases hi
  {
    if hi > lo && IsSpace(s[hi - 1]) {
      TrimStopDropsSpace(s, lo, hi - 1);
      assert s[TrimStop(s, lo, hi)..hi] == s[TrimStop(s, lo, hi)..hi - 1] + [s[hi - 1]];
    }
  }

  /** `strings.TrimSpace(s)`: the slice of `s` between its leading and its trailing white space. */
  function TrimSpace(s: string): (r: string)
    ensures Trimmed(r)
    ensures |r| <= |s|
  {
    var start := TrimStart(s, 0);
    s[start..TrimStop(s, start, |s|)]
  }

  /** The trim of `s` is a slice of `s` with only white space on either side of it. */
  lemma TrimSpaceIsInfix(s: string)
    ensures var start := TrimStart(s, 0); var stop := TrimStop(s, start, |s|);
      TrimSpace(s) == s[start..stop] && AllSpace(s[..start]) && AllSpace(s[stop..])
  {
    var start := TrimStart(s, 0);
    var stop := TrimStop(s, start, |s|);
    TrimStartSkipsSpace(s, 0);
    TrimStopDropsSpace(s, start, |s|);
    assert s[..start] == s[0..start];
    assert s[stop..] == s[stop..|s|];
  }

  /** A string with no white space at either end is its own trim. */
  lemma TrimSpaceOfTrimmed(s: string)
    requires Trimmed(s)
    ensures TrimSpace(s) == s
  {
    assert s[0..|s|] == s;
  }

  /** One leading space makes no difference to the trim of a trimmed string. */
  lemma TrimSpaceAfterSpace(s: string)
    requires Trimmed(s)
    ensures TrimSpace(" " + s) == s
  {
    var t := " " + s;
    assert TrimStart(t, 0) == TrimStart(t, 1);
    assert t[1..] == s;
  }

  /** Trimming adds no character. */
  lemma NotInTrimSpace(s: string, c: char)
    requires c !in s
    ensures c !in TrimSpace(s)
  {
    var start := TrimStart(s, 0);
    var r := s[start..TrimStop(s, start, |s|)];
    forall k | 0 <= k < |r| ensures r[k] != c {
      assert r[k] == s[start + k];
    }
  }

  /** `strings.Repeat("  ", n)`: the indentation for nesting depth `n`. */
  function Indent(n: nat): (r: string)
    ensures |r| == 2 * n
    ensures forall i :: 0 <= i < |r| ==> r[i] == ' '
  {
    if n == 0 then "" else Indent(n - 1) + "  "
  }

  /** Go's string comparison `a < b`: lexicographic, character by character. */
  predicate Less(a: string, b: string)
  {
    if |a| == 0 then |b| > 0
    else if |b| == 0 then false
    else if a[0] != b[0] then a[0] < b[0]
    else Less(a[1..], b[1..])
  }

  lemma {:induction false} LessIrreflexive(a: string)
    ensures !Less(a, a)
  {
    if |a| > 0 {
      LessIrreflexive(a[1..]);
    }
  }

  lemma {:induction false} LessAsymmetric(a: string, b: string)
    requires Less(a, b)
    ensures !Less(b, a)
  {
    if |a| > 0 && |b| > 0 && a[0] == b[0] {
      LessAsymmetric(a[1..], b[1..]);
    }
  }

  lemma {:induction false} LessTransitive(a: string, b: string, c: string)
    requires Less(a, b) && Less(b, c)
    ensures Less(a, c)
  {
    if |a| > 0 && a[0] == b[0] && b[0] == c[0] {
      LessTransitive(a[1..], b[1..], c[1..]);
    }
  }

  lemma {:induction false} LessConnected(a: string, b: string)
    requires a != b
    ensures Less(a, b) || Less(b, a)
  {
    if |a| > 0 && |b| > 0 && a[0] == b[0] {
      assert a == [a[0]] + a[1..] && b == [b[0]] + b[1..];
      LessConnected(a[1..], b[1..]);
    }
  }
}
