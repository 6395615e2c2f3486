/**
 * The regular expressions the QR helpers apply with `String.prototype.match`
 * (no `g` flag, so the leftmost match wins). Every one of them has the shape
 *
 *     lit [skip]* ( [cls]{lo,hi} )
 *
 * with the literal compared case-insensitively, a possibly empty skipped class
 * and one capture group; `match(...)[1]` is the capture.
 */
module Patterns {
  import opened Wrappers
  import opened Text

  datatype Pattern = Pattern(lit: string, skip: char -> bool, cls: char -> bool, lo: nat, hi: nat)

  predicate Never(c: char) { false }

  /** `c` appears in `s` starting at position `t`. */
  predicate OccursAt(c: string, s: string, t: int)
  {
    0 <= t && t + |c| <= |s| && c == s[t..t + |c|]
  }

  /** Length of the run of `p`-characters starting at `i`, at most `cap` long. */
  function RunLength(s: string, i: nat, p: char -> bool, cap: nat): (n: nat)
    requires i <= |s|
    ensures n <= cap && i + n <= |s|
    ensures forall k :: i <= k < i + n ==> p(s[k])
    ensures n < cap && i + n < |s| ==> !p(s[i + n])
    decreases cap
  {
    if cap == 0 || i == |s| || !p(s[i]) then 0 else 1 + RunLength(s, i + 1, p, cap - 1)
  }

  /** A run reaching the end of `s` within the cap is the whole rest of `s`. */
  lemma {:induction false} RunLengthToEnd(s: string, i: nat, p: char -> bool, cap: nat)
    requires i <= |s| && |s| - i <= cap
    requires forall k :: i <= k < |s| ==> p(s[k])
    ensures RunLength(s, i, p, cap) == |s| - i
    decreases cap
  {
    if i < |s| {
      RunLengthToEnd(s, i + 1, p, cap - 1);
    }
  }

  /** The run takes the whole cap exactly when the next `cap` characters all belong to the class. */
  lemma {:induction false} RunLengthFull(s: string, i: nat, p: char -> bool, cap: nat)
    requires i <= |s|
    ensures RunLength(s, i, p, cap) == cap <==> i + cap <= |s| && forall k :: i <= k < i + cap ==> p(s[k])
    decreases cap
  {
    if cap > 0 && i < |s| && p(s[i]) {
      RunLengthFull(s, i + 1, p, cap - 1);
    }
  }

  /** `([cls]{lo,hi})` at position `j`: greedy, and nothing follows it that could force a shorter run. */
  function Capture(s: string, j: nat, pat: Pattern): (r: Option<string>)
    requires j <= |s|
    ensures r.Some? ==> j + |r.value| <= |s| && r.value == s[j..j + |r.value|]
    ensures r.Some? ==> pat.lo <= |r.value| <= pat.hi
  {
    var n := RunLength(s, j, pat.cls, pat.hi);
    if n >= pat.lo then Some(s[j..j + n]) else None
  }

  /** Every captured character belongs to the class. */
  lemma CaptureClass(s: string, j: nat, pat: Pattern)
    requires j <= |s|
    ensures Capture(s, j, pat).Some? ==> forall k :: 0 <= k < |Capture(s, j, pat).value| ==> pat.cls(Capture(s, j, pat).value[k])
  {
    var n := RunLength(s, j, pat.cls, pat.hi);
    if n >= pat.lo {
      var c := s[j..j + n];
      assert forall k :: 0 <= k < n ==> c[k] == s[j + k];
    }
  }

  /**
   * `[skip]*` followed by the capture, where the star has matched `k` characters
   * after `j`: if the capture fails, the star gives back one character and retries.
   */
  function Backtrack(s: string, j: nat, k: nat, pat: Pattern): (r: Option<string>)
    requires j + k <= |s|
    ensures r.Some? ==> pat.lo <= |r.value| <= pat.hi
    decreases k
  {
    match Capture(s, j + k, pat)
    case Some(c) => Some(c)
    case None => if k == 0 then None else Backtrack(s, j, k - 1, pat)
  }

  /** What backtracking finds is the capture taken at some `t` between `j` and `j + k`. */
  lemma {:induction false} BacktrackSpec(s: string, j: nat, k: nat, pat: Pattern) returns (t: nat)
    requires j + k <= |s|
    ensures j <= t <= j + k
    ensures Backtrack(s, j, k, pat).Some? ==> Backtrack(s, j, k, pat) == Capture(s, t, pat)
    decreases k
  {
    if Capture(s, j + k, pat).None? && k > 0 {
      t := BacktrackSpec(s, j, k - 1, pat);
    } else {
      t := j + k;
    }
  }

  /** `lit` occurs at `i` once the text is upper-cased (the `i` flag; every literal here is upper-case). */
  predicate LiteralAt(s: string, i: nat, lit: string)
  {
    i + |lit| <= |s| && forall k :: 0 <= k < |lit| ==> UpperChar(s[i + k]) == lit[k]
  }

  /** The whole pattern anchored at position `i`; the literal is compared case-insensitively. */
  function MatchAt(s: string, i: nat, pat: Pattern): (r: Option<string>)
    requires i <= |s|
    ensures r.Some? ==> pat.lo <= |r.value| <= pat.hi
  {
    if LiteralAt(s, i, pat.lit) then
      var j := i + |pat.lit|;
      Backtrack(s, j, RunLength(s, j, pat.skip, |s| - j), pat)
    else None
  }

  /** A match is the capture taken at some `t` at or after `i`. */
  lemma MatchAtCapture(s: string, i: nat, pat: Pattern) returns (t: nat)
    requires i <= |s|
    ensures i <= t <= |s|
    ensures MatchAt(s, i, pat).Some? ==> MatchAt(s, i, pat) == Capture(s, t, pat)
  {
    t := i;
    if MatchAt(s, i, pat).Some? {
      var j := i + |pat.lit|;
      t := BacktrackSpec(s, j, RunLength(s, j, pat.skip, |s| - j), pat);
    }
  }

  /** A match consists of characters of the class and is the piece of `s` at some `t` at or after `i`. */
  lemma MatchAtSpec(s: string, i: nat, pat: Pattern) returns (t: nat)
    requires i <= |s|
    ensures MatchAt(s, i, pat).Some? ==>
      && (forall m :: 0 <= m < |MatchAt(s, i, pat).value| ==> pat.cls(MatchAt(s, i, pat).value[m]))
      && i <= t <= |s| && OccursAt(MatchAt(s, i, pat).value, s, t)
  {
    t := MatchAtCapture(s, i, pat);
    CaptureClass(s, t, pat);
  }

  /** A pattern with neither literal nor skipped class is its capture alone. */
  lemma PlainMatch(s: string, i: nat, pat: Pattern)
    requires i <= |s| && pat.lit == [] && forall c :: !pat.skip(c)
    ensures MatchAt(s, i, pat) == Capture(s, i, pat)
  {
    assert RunLength(s, i, pat.skip, |s| - i) == 0;
  }

  /** A fixed-width capture `([cls]{n})` succeeds exactly on `n` characters of the class, and takes them. */
  lemma FixedCapture(s: string, j: nat, pat: Pattern)
    requires j <= |s| && pat.lo == pat.hi
    ensures Capture(s, j, pat).Some? <==> j + pat.hi <= |s| && forall k :: j <= k < j + pat.hi ==> pat.cls(s[k])
    ensures Capture(s, j, pat).Some? ==> Capture(s, j, pat).value == s[j..j + pat.hi]
  {
    RunLengthFull(s, j, pat.cls, pat.hi);
  }

  /** Where the literal is absent the pattern does not match. */
  lemma NoLiteralNoMatch(s: string, i: nat, pat: Pattern)
    requires i <= |s| && !LiteralAt(s, i, pat.lit)
    ensures MatchAt(s, i, pat).None?
  {
  }

  /**
   * Where the literal is present and the greedy run of the class after the
   * skipped characters is long enough, the match is that run.
   */
  lemma MatchAtRun(s: string, i: nat, pat: Pattern, k: nat, n: nat)
    requires i <= |s| && LiteralAt(s, i, pat.lit)
    requires k == RunLength(s, i + |pat.lit|, pat.skip, |s| - (i + |pat.lit|))
    requires n == RunLength(s, i + |pat.lit| + k, pat.cls, pat.hi) && n >= pat.lo
    ensures MatchAt(s, i, pat) == Some(s[i + |pat.lit| + k..i + |pat.lit| + k + n])
  {
    var j := i + |pat.lit|;
    assert Capture(s, j + k, pat) == Some(s[j + k..j + k + n]);
  }

  /** A capture running to the end of `s` within the allowed length is the rest of `s`. */
  lemma MatchToEnd(s: string, i: nat, pat: Pattern, k: nat)
    requires i <= |s| && LiteralAt(s, i, pat.lit)
    requires k == RunLength(s, i + |pat.lit|, pat.skip, |s| - (i + |pat.lit|))
    requires pat.lo <= |s| - (i + |pat.lit| + k) <= pat.hi
    requires forall m :: i + |pat.lit| + k <= m < |s| ==> pat.cls(s[m])
    ensures MatchAt(s, i, pat) == Some(s[i + |pat.lit| + k..])
  {
    var j := i + |pat.lit| + k;
    RunLengthToEnd(s, j, pat.cls, pat.hi);
    MatchAtRun(s, i, pat, k, |s| - j);
    assert s[j..j + (|s| - j)] == s[j..];
  }

  /** The first position at or after `i` where `bs` holds. */
  function FirstTrue(bs: seq<bool>, i: nat): (r: Option<nat>)
    requires i <= |bs|
    ensures r.Some? ==> i <= r.value < |bs|
    decreases |bs| - i
  {
    if i == |bs| then None else if bs[i] then Some(i) else FirstTrue(bs, i + 1)
  }

  /** Nothing is found exactly when nothing holds; what is found holds, and nothing before it does. */
  lemma {:induction false} FirstTrueSpec(bs: seq<bool>, i: nat)
    requires i <= |bs|
    ensures FirstTrue(bs, i).None? <==> forall k :: i <= k < |bs| ==> !bs[k]
    ensures FirstTrue(bs, i).Some? ==>
      bs[FirstTrue(bs, i).value] && forall k :: i <= k < FirstTrue(bs, i).value ==> !bs[k]
    decreases |bs| - i
  {
    if i < |bs| && !bs[i] {
      FirstTrueSpec(bs, i + 1);
    }
  }

  /** Whether the pattern matches at each position of `s`, the end of `s` included. */
  function MatchTable(s: string, pat: Pattern): (t: seq<bool>)
    ensures |t| == |s| + 1
    ensures forall k :: 0 <= k < |t| ==> t[k] == MatchAt(s, k, pat).Some?
  {
    seq(|s| + 1, k requires 0 <= k <= |s| => MatchAt(s, k, pat).Some?)
  }

  /** `s.match(pattern)?.[1] ?? null`: the capture at the leftmost position where the pattern matches. */
  function Find(s: string, pat: Pattern): (r: Option<string>)
  {
    match FirstTrue(MatchTable(s, pat), 0)
    case Some(i) => MatchAt(s, i, pat)
    case None => None
  }

  /** Where the pattern matches nowhere `Find` fails. */
  lemma FindNone(s: string, pat: Pattern)
    requires forall k :: 0 <= k <= |s| ==> MatchAt(s, k, pat).None?
    ensures Find(s, pat).None?
  {
    var bs := MatchTable(s, pat);
    assert forall k :: 0 <= k < |bs| ==> !bs[k];
    FirstTrueSpec(bs, 0);
  }

  /** A match at `i` with none before it is what `Find` returns. */
  lemma FindAt(s: string, pat: Pattern, i: nat)
    requires i <= |s| && MatchAt(s, i, pat).Some?
    requires forall k :: 0 <= k < i ==> MatchAt(s, k, pat).None?
    ensures Find(s, pat) == MatchAt(s, i, pat)
  {
    var bs := MatchTable(s, pat);
    assert forall k :: 0 <= k < i ==> !bs[k];
    FirstTrueAt(bs, 0, i);
  }

  /** The search from `j` stops at the first position it reaches that holds. */
  lemma {:induction false} FirstTrueAt(bs: seq<bool>, j: nat, i: nat)
    requires j <= i < |bs| && bs[i]
    requires forall k :: j <= k < i ==> !bs[k]
    ensures FirstTrue(bs, j) == Some(i)
    decreases i - j
  {
    if j < i {
      FirstTrueAt(bs, j + 1, i);
    }
  }

  predicate IsSubstring(c: string, s: string)
  {
    exists t :: 0 <= t <= |s| && OccursAt(c, s, t)
  }

  /**
   * What `Find` promises: it fails exactly when no position matches, and
   * otherwise returns the capture of the leftmost matching position.
   */
  lemma FindSpec(s: string, pat: Pattern)
    ensures Find(s, pat).None? <==> forall k :: 0 <= k <= |s| ==> MatchAt(s, k, pat).None?
    ensures Find(s, pat).Some? ==>
      exists i :: 0 <= i <= |s| && Find(s, pat) == MatchAt(s, i, pat)
                  && forall k :: 0 <= k < i ==> MatchAt(s, k, pat).None?
  {
    var bs := MatchTable(s, pat);
    FirstTrueSpec(bs, 0);
  }

  /** A capture `Find` returns is between `lo` and `hi` characters of the class, and a piece of `s`. */
  lemma FindPiece(s: string, pat: Pattern)
    ensures Find(s, pat).Some? ==>
      && pat.lo <= |Find(s, pat).value| <= pat.hi
      && (forall m :: 0 <= m < |Find(s, pat).value| ==> pat.cls(Find(s, pat).value[m]))
      && IsSubstring(Find(s, pat).value, s)
  {
    match FirstTrue(MatchTable(s, pat), 0)
    case Some(i) =>
      var t := MatchAtSpec(s, i, pat);
      if MatchAt(s, i, pat).Some? {
        assert OccursAt(MatchAt(s, i, pat).value, s, t);
      }
    case None =>
  }
}
