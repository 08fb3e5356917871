/**
  The handful of Python string operations the integration relies on:
  `str.find`, `sub in str`, `str.split(sep)` and `str.splitlines()`.
 */
module Text {
  import opened Wrappers

  /** `sub` occurs in `s` starting at position `i`. */
  predicate MatchAt(s: string, sub: string, i: nat) {
    i + |sub| <= |s| && s[i..i + |sub|] == sub
  }

  /** First position at or after `from` where `sub` occurs, if any. */
  function FindFrom(s: string, sub: string, from: nat): (r: Option<nat>)
    decreases |s| - from
    ensures r.Some? ==> from <= r.value && MatchAt(s, sub, r.value)
    ensures forall i: nat :: from <= i && (r.None? || i < r.value) ==> !MatchAt(s, sub, i)
  {
    if from + |sub| > |s| then None
    else if s[from..from + |sub|] == sub then Some(from)
    else FindFrom(s, sub, from + 1)
  }

  /** Python's `s.find(sub)`, with `None` in place of `-1`. */
  function Find(s: string, sub: string): (r: Option<nat>)
    ensures r.Some? ==> MatchAt(s, sub, r.value)
    ensures forall i: nat :: (r.None? || i < r.value) ==> !MatchAt(s, sub, i)
  {
    FindFrom(s, sub, 0)
  }

  /** `s.find(sub) != -1`. */
  predicate Contains(s: string, sub: string) {
    Find(s, sub).Some?
  }

  /** Once `sub` is known to occur at `k` and nowhere earlier, `Find` reports `k`. */
  lemma FindIsFirst(s: string, sub: string, k: nat)
    requires MatchAt(s, sub, k)
    requires forall i: nat :: i < k ==> !MatchAt(s, sub, i)
    ensures Find(s, sub) == Some(k)
  {
  }

  /** Python's `s.split(sep)` for a non-empty separator (Python raises on an empty one). */
  function Split(s: string, sep: string): (parts: seq<string>)
    requires |sep| > 0
    decreases |s|
    ensures |parts| >= 1
  {
    match Find(s, sep)
    case None => [s]
    case Some(i) => [s[..i]] + Split(s[i + |sep|..], sep)
  }

  /** `sep.join(parts)`. */
  function Join(parts: seq<string>, sep: string): string
  {
    if |parts| == 0 then ""
    else if |parts| == 1 then parts[0]
    else parts[0] + sep + Join(parts[1..], sep)
  }

  /** Joining the pieces of a split with the same separator gives back the text. */
  lemma {:induction false} JoinSplit(s: string, sep: string)
    requires |sep| > 0
    ensures Join(Split(s, sep), sep) == s
    decreases |s|
  {
    match Find(s, sep)
    case None =>
    case Some(i) =>
      var rest := s[i + |sep|..];
      var parts := Split(s, sep);
      assert parts == [s[..i]] + Split(rest, sep);
      assert parts[1..] == Split(rest, sep);
      JoinSplit(rest, sep);
      assert Join(parts, sep) == s[..i] + sep + rest;
      assert s[i..i + |sep|] == sep;
      assert s == s[..i] + s[i..i + |sep|] + rest;
  }

  /** No piece of a split contains the separator. */
  lemma {:induction false} SplitPiecesFree(s: string, sep: string)
    requires |sep| > 0
    ensures forall j :: 0 <= j < |Split(s, sep)| ==> !Contains(Split(s, sep)[j], sep)
    decreases |s|
  {
    match Find(s, sep)
    case None =>
    case Some(i) =>
      var rest := s[i + |sep|..];
      SplitPiecesFree(rest, sep);
      var head := s[..i];
      if Contains(head, sep) {
        var k := Find(head, sep).value;
        assert head[k..k + |sep|] == s[k..k + |sep|];
        assert MatchAt(s, sep, k);
        assert false;
      }
  }

  /** With a one-character separator that no part contains, splitting undoes joining. */
  lemma {:induction false} SplitJoin(parts: seq<string>, sep: string)
    requires |sep| == 1 && |parts| >= 1
    requires forall j :: 0 <= j < |parts| ==> sep[0] !in parts[j]
    ensures Split(Join(parts, sep), sep) == parts
    decreases |parts|
  {
    var p := parts[0];
    if |parts| > 1 {
      var tail := Join(parts[1..], sep);
      var s := p + sep + tail;
      assert MatchAt(s, sep, |p|);
      forall i: nat | i < |p|
        ensures !MatchAt(s, sep, i)
      {
        assert s[i] == p[i];
      }
      FindIsFirst(s, sep, |p|);
      assert s[..|p|] == p;
      assert s[|p| + 1..] == tail;
      SplitJoin(parts[1..], sep);
    }
  }

  /** The characters Python's `str.splitlines()` treats as line boundaries. */
  predicate IsLineBreak(c: char) {
    c == '\n' || c == '\r' || c as int in {0x0B, 0x0C, 0x1C, 0x1D, 0x1E, 0x85, 0x2028, 0x2029}
  }

  /** Position of the first line boundary at or after `from`, or `|s|` when there is none. */
  function LineEnd(s: string, from: nat): (e: nat)
    requires from <= |s|
    decreases |s| - from
    ensures from <= e <= |s|
    ensures e < |s| ==> IsLineBreak(s[e])
    ensures forall i :: from <= i < e ==> !IsLineBreak(s[i])
  {
    if from == |s| || IsLineBreak(s[from]) then from else LineEnd(s, from + 1)
  }

  /** `s.splitlines()`: lines without their boundaries; `\r\n` is one boundary, and a final
      boundary does not open an empty last line. */
  function SplitLines(s: string): (lines: seq<string>)
    decreases |s|
    ensures forall j, i :: 0 <= j < |lines| && 0 <= i < |lines[j]| ==> !IsLineBreak(lines[j][i])
  {
    if |s| == 0 then []
    else
      var e := LineEnd(s, 0);
      var next := if e == |s| then e
                  else if s[e] == '\r' && e + 1 < |s| && s[e + 1] == '\n' then e + 2
                  else e + 1;
      [s[..e]] + SplitLines(s[next..])
  }

  /** Every line followed by a newline, as a line-oriented tool prints its output. */
  function Terminated(lines: seq<string>): string
  {
    if |lines| == 0 then "" else lines[0] + "\n" + Terminated(lines[1..])
  }

  /** `splitlines` recovers the lines of newline-terminated output. */
  lemma {:induction false} SplitTerminated(lines: seq<string>)
    requires forall j, i :: 0 <= j < |lines| && 0 <= i < |lines[j]| ==> !IsLineBreak(lines[j][i])
    ensures SplitLines(Terminated(lines)) == lines
    decreases |lines|
  {
    if |lines| > 0 {
      var l := lines[0];
      var rest := Terminated(lines[1..]);
      var s := l + "\n" + rest;
      assert s[|l|] == '\n';
      forall i | 0 <= i < |l|
        ensures !IsLineBreak(s[i])
      {
        assert s[i] == l[i];
      }
      LineEndAt(s, |l|);
      assert s[..|l|] == l;
      assert s[|l| + 1..] == rest;
      SplitTerminated(lines[1..]);
    }
  }

  /** `LineEnd` stops at the first boundary. */
  lemma LineEndAt(s: string, e: nat)
    requires e < |s| && IsLineBreak(s[e])
    requires forall i :: 0 <= i < e ==> !IsLineBreak(s[i])
    ensures LineEnd(s, 0) == e
  {
  }
}
