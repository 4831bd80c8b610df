/**
 * The three Python string operations both forms rely on: `str.strip()`,
 * `str.split(sep)` with a one-character separator, and `sep.join(parts)`.
 */
module Text {

  /** Python's `str.isspace()` table, written out: ASCII tab to carriage return,
      the four ASCII information separators, space, and the Unicode spaces and
      line/paragraph separators. */
  predicate IsSpace(c: char) {
    ('\t' <= c <= '\r') || ('\U{1C}' <= c <= ' ')
    || c == '\U{85}' || c == '\U{A0}' || c == '\U{1680}'
    || ('\U{2000}' <= c <= '\U{200A}')
    || c == '\U{2028}' || c == '\U{2029}' || c == '\U{202F}' || c == '\U{205F}'
    || c == '\U{3000}'
  }

  predicate AllSpace(s: string) {
    forall k :: 0 <= k < |s| ==> IsSpace(s[k])
  }

  /** True when `s` neither starts nor ends with whitespace. */
  predicate Trimmed(s: string) {
    s == [] || (!IsSpace(s[0]) && !IsSpace(s[|s| - 1]))
  }

  /** Number of occurrences of `c` in `s`. */
  function Count(s: string, c: char): nat {
    if s == [] then 0 else (if s[0] == c then 1 else 0) + Count(s[1..], c)
  }

  // ---------------------------------------------------------------- strip

  /** Index of the first non-whitespace character (|s| if there is none). */
  function LeftEdge(s: string): (i: nat)
    ensures i <= |s|
    ensures AllSpace(s[..i])
    ensures i < |s| ==> !IsSpace(s[i])
  {
    if s == [] || !IsSpace(s[0]) then 0
    else
      var i := 1 + LeftEdge(s[1..]);
      assert forall k :: 1 <= k < i ==> s[..i][k] == s[1..][..i - 1][k - 1];
      i
  }

  /** One past the index of the last non-whitespace character (0 if there is none). */
  function RightEdge(s: string): (j: nat)
    ensures j <= |s|
    ensures AllSpace(s[j..])
    ensures j > 0 ==> !IsSpace(s[j - 1])
  {
    if s == [] || !IsSpace(s[|s| - 1]) then |s|
    else
      var j := RightEdge(s[..|s| - 1]);
      assert forall k :: j <= k < |s| - 1 ==> s[k] == s[..|s| - 1][k];
      j
  }

  /** `s.strip()`: the leading and trailing whitespace removed, the characters
      between them kept as they are. */
  function Strip(s: string): (r: string)
    ensures |r| <= |s| && Trimmed(r)
    ensures LeftEdge(s) + |r| <= |s| && r == s[LeftEdge(s)..LeftEdge(s) + |r|]
    ensures AllSpace(s[..LeftEdge(s)]) && AllSpace(s[LeftEdge(s) + |r|..])
  {
    if LeftEdge(s) == |s| then [] else s[LeftEdge(s)..RightEdge(s)]
  }

  lemma {:induction false} LeftEdgeAfterSpaces(p: string, m: string)
    requires AllSpace(p) && (m == [] || !IsSpace(m[0]))
    ensures LeftEdge(p + m) == |p|
  {
    if p != [] {
      assert (p + m)[1..] == p[1..] + m;
      LeftEdgeAfterSpaces(p[1..], m);
    } else {
      assert p + m == m;
    }
  }

  lemma {:induction false} RightEdgeBeforeSpaces(m: string, q: string)
    requires AllSpace(q) && (m == [] || !IsSpace(m[|m| - 1]))
    ensures RightEdge(m + q) == |m|
  {
    if q != [] {
      assert (m + q)[..|m + q| - 1] == m + q[..|q| - 1];
      RightEdgeBeforeSpaces(m, q[..|q| - 1]);
    } else {
      assert m + q == m;
    }
  }

  /** Strip is determined by its contract: whatever is wrapped in whitespace on
      both sides and is itself trimmed is exactly what strip returns. */
  lemma {:induction false} StripUnique(p: string, m: string, q: string)
    requires AllSpace(p) && AllSpace(q) && Trimmed(m)
    ensures Strip(p + m + q) == m
  {
    var s := p + m + q;
    if m == [] {
      assert s == p + q;
      assert AllSpace(s);
      assert LeftEdge(s) == |s|;
    } else {
      assert s == p + (m + q);
      LeftEdgeAfterSpaces(p, m + q);
      assert s == (p + m) + q;
      RightEdgeBeforeSpaces(p + m, q);
      assert s[|p|..|p| + |m|] == m;
    }
  }

  /** What strip removes is whitespace on both sides; what it keeps is untouched. */
  lemma StripFrame(s: string)
    ensures exists p, q {:trigger p + Strip(s) + q} :: AllSpace(p) && AllSpace(q) && s == p + Strip(s) + q
  {
    var i := LeftEdge(s);
    var r := Strip(s);
    var p, q := s[..i], s[i + |r|..];
    assert s == p + r + q;
  }

  /** Strip adds no character. */
  lemma StripAddsNothing(s: string, c: char)
    requires c !in s
    ensures c !in Strip(s)
  {
    var i := LeftEdge(s);
    var r := Strip(s);
    assert forall j :: 0 <= j < |r| ==> r[j] == s[i + j];
  }

  // ---------------------------------------------------------------- split

  /** `s.split(sep)`: the pieces between consecutive separators, empty pieces kept. */
  function Split(s: string, sep: char): (r: seq<string>)
    ensures |r| == Count(s, sep) + 1
    ensures forall k :: 0 <= k < |r| ==> sep !in r[k]
  {
    if s == [] then [[]]
    else
      var rest := Split(s[1..], sep);
      if s[0] == sep then [[]] + rest
      else [[s[0]] + rest[0]] + rest[1..]
  }

  // ----------------------------------------------------------------- join

  /** Total length of the parts. */
  function SumLengths(parts: seq<string>): nat {
    if parts == [] then 0 else |parts[0]| + SumLengths(parts[1..])
  }

  /** `sep.join(parts)`: the parts in order with one separator between
      neighbours; `JoinPart` and `JoinSeparator` say where each one sits. */
  function Join(parts: seq<string>, sep: string): (r: string)
    ensures |parts| >= 1 ==> |r| == SumLengths(parts) + (|parts| - 1) * |sep|
    ensures |parts| >= 1 ==> r[..|parts[0]|] == parts[0]
  {
    if |parts| == 0 then []
    else if |parts| == 1 then parts[0]
    else parts[0] + sep + Join(parts[1..], sep)
  }

  /** Where part `k` starts in `sep.join(parts)`: the parts before it, each
      followed by one separator. */
  function Offset(parts: seq<string>, sep: string, k: nat): (o: nat)
    requires k <= |parts|
    ensures k > 0 ==> o >= |parts[0]| + |sep|
  {
    if k == 0 then 0 else |parts[0]| + |sep| + Offset(parts[1..], sep, k - 1)
  }

  /** Dropping the first `|x|` characters of `x + y` leaves `y`'s slices in place. */
  lemma SliceAfter(x: string, y: string, i: nat, j: nat)
    requires i <= j <= |y|
    ensures (x + y)[|x| + i..|x| + j] == y[i..j]
  {
    assert forall t :: 0 <= t < j - i ==> (x + y)[|x| + i..|x| + j][t] == y[i..j][t];
  }

  /** Part `k` appears unchanged in the join, starting at `Offset(parts, sep, k)`. */
  lemma {:induction false} JoinPart(parts: seq<string>, sep: string, k: nat)
    requires k < |parts|
    ensures Offset(parts, sep, k) + |parts[k]| <= |Join(parts, sep)|
    ensures Join(parts, sep)[Offset(parts, sep, k)..Offset(parts, sep, k) + |parts[k]|] == parts[k]
  {
    if k > 0 {
      var head, tail := parts[0] + sep, Join(parts[1..], sep);
      var o := Offset(parts[1..], sep, k - 1);
      JoinPart(parts[1..], sep, k - 1);
      SliceAfter(head, tail, o, o + |parts[k]|);
    }
  }

  /** Right before every part but the first sits exactly one separator. */
  lemma {:induction false} JoinSeparator(parts: seq<string>, sep: string, k: nat)
    requires 0 < k < |parts|
    ensures |sep| <= Offset(parts, sep, k) <= |Join(parts, sep)|
    ensures Join(parts, sep)[Offset(parts, sep, k) - |sep|..Offset(parts, sep, k)] == sep
  {
    var head, tail := parts[0] + sep, Join(parts[1..], sep);
    var o := Offset(parts[1..], sep, k - 1);
    if k == 1 {
      assert Join(parts, sep) == parts[0] + sep + tail;
      assert Join(parts, sep)[|parts[0]|..|parts[0]| + |sep|] == sep;
    } else {
      JoinSeparator(parts[1..], sep, k - 1);
      SliceAfter(head, tail, o - |sep|, o);
    }
  }

  /** Joining the pieces of a split with the separator gives the string back. */
  lemma {:induction false} JoinSplit(s: string, sep: char)
    ensures Join(Split(s, sep), [sep]) == s
  {
    if s != [] {
      var rest := Split(s[1..], sep);
      JoinSplit(s[1..], sep);
      if s[0] == sep {
        assert ([[]] + rest)[1..] == rest;
      } else if |rest| == 1 {
        assert Split(s, sep) == [[s[0]] + rest[0]];
      } else {
        assert rest == [rest[0]] + rest[1..];
        assert Join(rest, [sep]) == rest[0] + [sep] + Join(rest[1..], [sep]);
        assert ([[s[0]] + rest[0]] + rest[1..])[1..] == rest[1..];
      }
    }
  }

  /** A string free of the separator splits into itself alone. */
  lemma {:induction false} SplitNoSep(a: string, sep: char)
    requires sep !in a
    ensures Split(a, sep) == [a]
  {
    if a != [] {
      SplitNoSep(a[1..], sep);
      assert [a[0]] + a[1..] == a;
    }
  }

  /** A separator-free prefix followed by the separator is the first piece. */
  lemma {:induction false} SplitAfterPiece(a: string, sep: char, b: string)
    requires sep !in a
    ensures Split(a + [sep] + b, sep) == [a] + Split(b, sep)
  {
    if a == [] {
      assert a + [sep] + b == [sep] + b;
      assert ([sep] + b)[1..] == b;
    } else {
      assert (a + [sep] + b)[1..] == a[1..] + [sep] + b;
      SplitAfterPiece(a[1..], sep, b);
      assert [a[0]] + a[1..] == a;
    }
  }

  /** Splitting a join of separator-free pieces gives the pieces back. */
  lemma {:induction false} SplitJoin(parts: seq<string>, sep: char)
    requires |parts| >= 1
    requires forall k :: 0 <= k < |parts| ==> sep !in parts[k]
    ensures Split(Join(parts, [sep]), sep) == parts
  {
    if |parts| == 1 {
      SplitNoSep(parts[0], sep);
    } else {
      SplitJoin(parts[1..], sep);
      SplitAfterPiece(parts[0], sep, Join(parts[1..], [sep]));
      assert [parts[0]] + parts[1..] == parts;
    }
  }
}
