/** The parts of Python's `str` that the application relies on: `sub in s`,
    `s.find(sub)`, `s.split(sep)` and `sep.join(pieces)`, for a non-empty
    separator (Python raises `ValueError` for an empty one). */
module PyStrings {
  import opened Wrappers

  /** `sub` occurs in `s` starting at index `j`. */
  predicate OccursAt(s: string, sub: string, j: int) {
    0 <= j && j + |sub| <= |s| && s[j..j + |sub|] == sub
  }

  /** Python's `sub in s`. */
  predicate Contains(s: string, sub: string)
    ensures Contains(s, sub) ==> |sub| <= |s|
  {
    exists j | 0 <= j <= |s| - |sub| :: OccursAt(s, sub, j)
  }

  /** Python's `s.find(sub)`, with `None` for -1: the lowest index at which
      `sub` occurs. */
  function IndexOf(s: string, sub: string): (r: Option<nat>)
    requires |sub| > 0
    ensures r.Some? ==> OccursAt(s, sub, r.value)
    ensures forall j | 0 <= j && (r.None? || j < r.value) :: !OccursAt(s, sub, j)
    decreases |s|
  {
    if |s| < |sub| then None
    else if s[..|sub|] == sub then Some(0)
    else
      ShiftOccurs(s, sub);
      match IndexOf(s[1..], sub)
      case None => None
      case Some(k) => Some(k + 1)
  }

  /** An occurrence in `s` past index 0 is an occurrence in `s[1..]`. */
  lemma ShiftOccurs(s: string, sub: string)
    requires |s| > 0
    ensures forall j | 1 <= j :: OccursAt(s, sub, j) == OccursAt(s[1..], sub, j - 1)
  {
    forall j | 1 <= j
      ensures OccursAt(s, sub, j) == OccursAt(s[1..], sub, j - 1)
    {
      if j + |sub| <= |s| {
        assert s[1..][j - 1..j - 1 + |sub|] == s[j..j + |sub|];
      }
    }
  }

  /** `in` and `find` agree. */
  lemma ContainsIffFound(s: string, sub: string)
    requires |sub| > 0
    ensures Contains(s, sub) <==> IndexOf(s, sub).Some?
  {
    if IndexOf(s, sub).Some? {
      assert OccursAt(s, sub, IndexOf(s, sub).value);
    }
  }

  /** A character of `sub` that `s` lacks keeps `sub` out of `s`. */
  lemma MissingCharNotContained(s: string, sub: string, k: nat)
    requires k < |sub| && sub[k] !in s
    ensures !Contains(s, sub)
  {
  }

  /** Each character of an occurrence matches `sub`. */
  lemma CharOfOccurrence(s: string, sub: string, j: int, k: int)
    ensures OccursAt(s, sub, j) && 0 <= k < |sub| ==> j + k < |s| && s[j + k] == sub[k]
  {
    if OccursAt(s, sub, j) && 0 <= k < |sub| {
      assert s[j..j + |sub|][k] == s[j + k];
    }
  }

  /** Python's `s.split(sep)`: the pieces between the non-overlapping
      occurrences of `sep`, scanned from the left. */
  function Split(s: string, sep: string): (r: seq<string>)
    requires |sep| > 0
    ensures |r| >= 1
    decreases |s|
  {
    match IndexOf(s, sep)
    case None => [s]
    case Some(i) => [s[..i]] + Split(s[i + |sep|..], sep)
  }

  /** A split has one piece exactly when the separator does not occur. */
  lemma SplitOnePiece(s: string, sep: string)
    requires |sep| > 0
    ensures |Split(s, sep)| == 1 <==> !Contains(s, sep)
  {
    ContainsIffFound(s, sep);
  }

  /** Python's `s.split(sep)[i]`; the index is in range. No piece holds
      the separator. */
  function SplitPiece(s: string, sep: string, i: nat): (r: string)
    requires |sep| > 0 && i < |Split(s, sep)|
    ensures !Contains(r, sep)
  {
    SplitPiecesLackSep(s, sep, i);
    Split(s, sep)[i]
  }

  /** Python's `s.split(sep)[0]`: the text before the first occurrence of
      `sep`, or all of `s` when there is none. */
  function FirstPiece(s: string, sep: string): (r: string)
    requires |sep| > 0
    ensures r <= s
    ensures forall j | 0 <= j < |r| :: !OccursAt(s, sep, j)
    ensures |r| == |s| || OccursAt(s, sep, |r|)
  {
    SplitPiece(s, sep, 0)
  }

  /** When `sep` occurs, `s.split(sep)[1]` exists and is the first piece of
      the text after the first occurrence. */
  lemma SecondPiece(s: string, sep: string)
    requires |sep| > 0 && Contains(s, sep)
    ensures IndexOf(s, sep).Some?
    ensures |Split(s, sep)| >= 2
    ensures SplitPiece(s, sep, 1) == FirstPiece(s[IndexOf(s, sep).value + |sep|..], sep)
  {
    ContainsIffFound(s, sep);
  }

  /** Python's `sep.join(xs)`; it starts with the first piece. */
  function Join(xs: seq<string>, sep: string): (r: string)
    ensures |xs| > 0 ==> xs[0] <= r
  {
    if |xs| == 0 then ""
    else if |xs| == 1 then xs[0]
    else xs[0] + sep + Join(xs[1..], sep)
  }

  /** Joining the pieces of a split gives back the string. */
  lemma {:induction false} JoinSplit(s: string, sep: string)
    requires |sep| > 0
    ensures Join(Split(s, sep), sep) == s
    decreases |s|
  {
    match IndexOf(s, sep)
    case None =>
    case Some(i) =>
      var after := s[i + |sep|..];
      var pieces := Split(after, sep);
      JoinSplit(after, sep);
      assert Split(s, sep) == [s[..i]] + pieces;
      assert ([s[..i]] + pieces)[1..] == pieces;
      assert Join(Split(s, sep), sep) == s[..i] + sep + after;
      assert s[i..i + |sep|] == sep;
      assert s == s[..i] + s[i..i + |sep|] + after;
  }

  /** No piece of a split contains the separator. */
  lemma {:induction false} SplitPiecesLackSep(s: string, sep: string, k: nat)
    requires |sep| > 0 && k < |Split(s, sep)|
    ensures !Contains(Split(s, sep)[k], sep)
    decreases |s|
  {
    match IndexOf(s, sep)
    case None =>
    case Some(i) =>
      if k == 0 {
        if Contains(s[..i], sep) {
          var j :| 0 <= j <= i - |sep| && OccursAt(s[..i], sep, j);
          assert s[..i][j..j + |sep|] == s[j..j + |sep|];
          assert OccursAt(s, sep, j);
        }
      } else {
        SplitPiecesLackSep(s[i + |sep|..], sep, k - 1);
      }
  }

  /** The total length of a list of strings. */
  function TotalLength(xs: seq<string>): (r: nat) {
    if |xs| == 0 then 0 else |xs[0]| + TotalLength(xs[1..])
  }

  /** Joining one more piece appends the separator and that piece. */
  lemma {:induction false} JoinSnoc(xs: seq<string>, x: string, sep: string)
    requires |xs| > 0
    ensures Join(xs + [x], sep) == Join(xs, sep) + sep + x
    decreases |xs|
  {
    if |xs| == 1 {
      assert (xs + [x])[1..] == [x];
    } else {
      assert (xs + [x])[1..] == xs[1..] + [x];
      JoinSnoc(xs[1..], x, sep);
    }
  }

  /** The joined length is the pieces' total plus one separator between
      each pair of neighbours. */
  lemma {:induction false} JoinLength(xs: seq<string>, sep: string)
    requires |xs| > 0
    ensures |Join(xs, sep)| == TotalLength(xs) + (|xs| - 1) * |sep|
    decreases |xs|
  {
    if |xs| > 1 {
      JoinLength(xs[1..], sep);
    }
  }

  /** Splitting on a one-character separator that no piece holds gives the
      pieces back. */
  lemma {:induction false} SplitJoin(xs: seq<string>, sep: string)
    requires |sep| == 1 && |xs| > 0
    requires forall i | 0 <= i < |xs| :: sep[0] !in xs[i]
    ensures Split(Join(xs, sep), sep) == xs
    decreases |xs|
  {
    var a := xs[0];
    var s := Join(xs, sep);
    if |xs| == 1 {
      MissingCharNotContained(a, sep, 0);
    } else {
      var rest := Join(xs[1..], sep);
      assert s == a + sep + rest;
      assert s[|a|..|a| + 1] == sep;
      assert OccursAt(s, sep, |a|);
      var k := IndexOf(s, sep).value;
      CharOfOccurrence(s, sep, k, 0);
      if k < |a| {
        assert false;
      }
      assert s[..|a|] == a;
      assert s[|a| + 1..] == rest;
      SplitJoin(xs[1..], sep);
      assert [a] + xs[1..] == xs;
    }
  }
}
