/** Glob patterns of the configuration file: `*` stands for any string, every
    other byte stands for itself. The matcher keeps a single restart point. */
module Glob {

  const STAR := '*'

  /** The concatenation of a list of strings. */
  ghost function Flatten(parts: seq<string>): string {
    if parts == [] then "" else parts[0] + Flatten(parts[1..])
  }

  /** `cut` assigns to each pattern position the piece of the candidate it stands for. */
  ghost predicate IsCut(pattern: string, candidate: string, cut: seq<string>) {
    && |cut| == |pattern|
    && Flatten(cut) == candidate
    && forall i :: 0 <= i < |pattern| && pattern[i] != STAR ==> cut[i] == [pattern[i]]
  }

  /** The declarative meaning of a pattern. */
  ghost predicate Matches(pattern: string, candidate: string) {
    exists cut :: IsCut(pattern, candidate, cut)
  }

  /** The same meaning by recursion on the pattern. */
  ghost predicate Accepts(pattern: string, candidate: string) {
    if pattern == "" then candidate == ""
    else if pattern[0] == STAR then
      exists k | 0 <= k <= |candidate| :: Accepts(pattern[1..], candidate[k..])
    else candidate != "" && candidate[0] == pattern[0] && Accepts(pattern[1..], candidate[1..])
  }

  lemma {:induction false} AcceptsGivesCut(pattern: string, candidate: string) returns (cut: seq<string>)
    requires Accepts(pattern, candidate)
    ensures IsCut(pattern, candidate, cut)
  {
    if pattern == "" {
      cut := [];
    } else {
      var k := 1;
      if pattern[0] == STAR {
        k :| 0 <= k <= |candidate| && Accepts(pattern[1..], candidate[k..]);
      }
      var rest := AcceptsGivesCut(pattern[1..], candidate[k..]);
      cut := [candidate[..k]] + rest;
      assert cut[1..] == rest;
      assert candidate == candidate[..k] + candidate[k..];
      forall i | 0 <= i < |pattern| && pattern[i] != STAR
        ensures cut[i] == [pattern[i]]
      {
        if i > 0 { assert cut[i] == rest[i - 1] && pattern[i] == pattern[1..][i - 1]; }
      }
    }
  }

  lemma {:induction false} CutGivesAccepts(pattern: string, candidate: string, cut: seq<string>)
    requires IsCut(pattern, candidate, cut)
    ensures Accepts(pattern, candidate)
  {
    if pattern != "" {
      var k := |cut[0]|;
      assert candidate[k..] == Flatten(cut[1..]);
      CutGivesAccepts(pattern[1..], candidate[k..], cut[1..]);
    }
  }

  lemma MatchesIffAccepts(pattern: string, candidate: string)
    ensures Matches(pattern, candidate) <==> Accepts(pattern, candidate)
  {
    if Accepts(pattern, candidate) {
      var cut := AcceptsGivesCut(pattern, candidate);
    }
    if Matches(pattern, candidate) {
      var cut :| IsCut(pattern, candidate, cut);
      CutGivesAccepts(pattern, candidate, cut);
    }
  }

  /** A star either takes nothing or one more byte and stays. */
  lemma StarUnfolds(p: string, c: string)
    requires p != "" && p[0] == STAR
    ensures Accepts(p, c) <==> Accepts(p[1..], c) || (c != "" && Accepts(p, c[1..]))
  {
    if c != "" && Accepts(p, c[1..]) {
      var k :| 0 <= k <= |c| - 1 && Accepts(p[1..], c[1..][k..]);
      assert c[1..][k..] == c[k + 1..];
    }
    if Accepts(p[1..], c) {
      assert c[0..] == c;
    }
    if Accepts(p, c) && !Accepts(p[1..], c) {
      var k :| 0 <= k <= |c| && Accepts(p[1..], c[k..]);
      assert k != 0 by { assert c[0..] == c; }
      assert c[1..][k - 1..] == c[k..];
    }
  }

  /** What a pattern headed by a star accepts, it also accepts with anything prepended. */
  lemma StarAbsorbs(p: string, c: string, j: nat)
    requires p != "" && p[0] == STAR && j <= |c|
    requires Accepts(p, c[j..])
    ensures Accepts(p, c)
  {
    var k :| 0 <= k <= |c| - j && Accepts(p[1..], c[j..][k..]);
    assert c[j..][k..] == c[j + k..];
  }

  /** A star-free prefix of length `n` takes exactly `n` bytes. */
  lemma {:induction false} LiteralPrefix(p: string, n: nat, c: string)
    requires n <= |p| && forall i :: 0 <= i < n ==> p[i] != STAR
    requires Accepts(p, c)
    ensures n <= |c| && Accepts(p[n..], c[n..])
  {
    if n == 0 {
      assert p[0..] == p && c[0..] == c;
    } else {
      LiteralPrefix(p[1..], n - 1, c[1..]);
      assert p[1..][n - 1..] == p[n..] && c[1..][n - 1..] == c[n..];
    }
  }

  /** Leftmost is enough: when the next star at `pi` is reached after taking the earliest
      position for the literals since the star at `star`, any match that makes the earlier
      star take more is also a match from the current position. */
  lemma LeftmostIsEnough(p: string, c: string, star: nat, pi: nat, retry: nat, ci: nat)
    requires star < pi < |p| && p[star] == STAR && p[pi] == STAR
    requires forall i :: star < i < pi ==> p[i] != STAR
    requires ci < retry + (pi - star) && retry <= |c| && ci <= |c|
    requires Accepts(p[star..], c[retry..])
    ensures Accepts(p[pi..], c[ci..])
  {
    var d := c[retry..];
    var k :| 0 <= k <= |d| && Accepts(p[star..][1..], d[k..]);
    var n := pi - star - 1;
    assert p[star..][1..] == p[star + 1..];
    LiteralPrefix(p[star + 1..], n, d[k..]);
    assert p[star + 1..][n..] == p[pi..];
    assert d[k..][n..] == c[retry + k + n..];
    assert c[ci..][retry + k + n - ci..] == c[retry + k + n..];
    StarAbsorbs(p[pi..], c[ci..], retry + k + n - ci);
  }

  /** Splitting the head off a suffix. */
  lemma AcceptsAt(p: string, c: string, pi: nat, ci: nat)
    requires pi < |p| && ci <= |c|
    ensures p[pi] != STAR ==>
              (Accepts(p[pi..], c[ci..]) <==> ci < |c| && c[ci] == p[pi] && Accepts(p[pi + 1..], c[ci + 1..]))
    ensures p[pi] == STAR ==>
              (Accepts(p[pi..], c[ci..]) <==>
               Accepts(p[pi + 1..], c[ci..]) || (ci < |c| && Accepts(p[pi..], c[ci + 1..])))
  {
    assert p[pi..][1..] == p[pi + 1..];
    if ci < |c| { assert c[ci..][1..] == c[ci + 1..]; }
    if p[pi] == STAR { StarUnfolds(p[pi..], c[ci..]); }
  }

  /** The four indices of the matcher. */
  datatype Cursor = Cursor(pi: nat, ci: nat, star: nat, retry: nat)

  /** Where the cursor may stand relative to the last star: on it right after a restart, or past
      it by literals only. */
  ghost predicate Aligned(p: string, c: string, at: Cursor) {
    && at.pi <= |p| && at.ci <= |c|
    && (at.retry > 0 ==>
          && at.star <= at.pi && at.star < |p| && p[at.star] == STAR
          && (if at.pi == at.star then at.ci == at.retry else at.ci == at.retry - 1 + (at.pi - at.star - 1))
          && forall i :: at.star < i < at.pi ==> p[i] != STAR)
  }

  ghost predicate FromHere(p: string, c: string, at: Cursor)
    requires at.pi <= |p| && at.ci <= |c|
  {
    Accepts(p[at.pi..], c[at.ci..])
  }

  ghost predicate FromRestart(p: string, c: string, at: Cursor)
    requires at.retry > 0 ==> at.star < |p|
  {
    0 < at.retry <= |c| && Accepts(p[at.star..], c[at.retry..])
  }

  /** The loop invariant: a match exists iff it can be found from the cursor or from the one
      remembered restart point. */
  ghost predicate Faithful(p: string, c: string, at: Cursor) {
    && Aligned(p, c, at)
    && (Accepts(p, c) <==> FromHere(p, c, at) || FromRestart(p, c, at))
  }

  /** How many restarts the cursor's position accounts for. */
  ghost function Diagonal(at: Cursor): nat {
    if at.retry == 0 then 0 else if at.pi == at.star then at.retry else at.retry - 1
  }

  ghost function Times(n: nat, w: nat): (product: nat)
    ensures product == n * w
  {
    if n == 0 then 0 else w + Times(n - 1, w)
  }

  /** Upper bound on the remaining loop iterations. */
  ghost function Budget(p: string, c: string, at: Cursor): nat
    requires Aligned(p, c, at)
  {
    Times(|c| - Diagonal(at), |p| + 1) + (|p| - at.pi) + 1
  }

  lemma StarStep(p: string, c: string, at: Cursor) returns (next: Cursor)
    requires Faithful(p, c, at) && at.pi < |p| && p[at.pi] == STAR
    ensures next == Cursor(at.pi + 1, at.ci, at.pi, at.ci + 1)
    ensures Faithful(p, c, next) && Budget(p, c, next) < Budget(p, c, at)
  {
    next := Cursor(at.pi + 1, at.ci, at.pi, at.ci + 1);
    AcceptsAt(p, c, at.pi, at.ci);
    if FromRestart(p, c, at) && at.star < at.pi {
      LeftmostIsEnough(p, c, at.star, at.pi, at.retry, at.ci);
    }
    TimesMonotone(|c| - Diagonal(next), |c| - Diagonal(at), |p| + 1);
  }

  lemma LiteralStep(p: string, c: string, at: Cursor) returns (next: Cursor)
    requires Faithful(p, c, at) && at.pi < |p| && p[at.pi] != STAR && at.ci < |c| && c[at.ci] == p[at.pi]
    ensures next == at.(pi := at.pi + 1, ci := at.ci + 1)
    ensures Faithful(p, c, next) && Budget(p, c, next) < Budget(p, c, at)
  {
    next := at.(pi := at.pi + 1, ci := at.ci + 1);
    AcceptsAt(p, c, at.pi, at.ci);
    assert Aligned(p, c, next);
  }

  /** No match continues from a cursor at which neither loop branch advances. */
  lemma DeadEnd(p: string, c: string, at: Cursor)
    requires Faithful(p, c, at) && (at.pi < |p| || at.ci < |c|)
    requires at.pi < |p| ==> p[at.pi] != STAR && !(at.ci < |c| && c[at.ci] == p[at.pi])
    ensures Accepts(p, c) <==> FromRestart(p, c, at)
  {
    if at.pi < |p| { AcceptsAt(p, c, at.pi, at.ci); }
  }

  lemma RestartStep(p: string, c: string, at: Cursor) returns (next: Cursor)
    requires Faithful(p, c, at) && 0 < at.retry <= |c| && at.star < at.pi
    requires Accepts(p, c) <==> FromRestart(p, c, at)
    ensures next == at.(pi := at.star, ci := at.retry)
    ensures Faithful(p, c, next) && Budget(p, c, next) < Budget(p, c, at)
  {
    next := at.(pi := at.star, ci := at.retry);
  }

  lemma TimesMonotone(m: nat, n: nat, w: nat)
    requires m <= n
    ensures Times(m, w) <= Times(n, w)
    decreases n
  {
    if m < n { TimesMonotone(m, n - 1, w); }
  }

  /** The matcher of the configuration file. `rounds` counts loop iterations. */
  method GlobMatch(pattern: string, candidate: string) returns (matched: bool, ghost rounds: nat)
    ensures matched <==> Matches(pattern, candidate)
    ensures rounds <= (|pattern| + 1) * (|candidate| + 1)
  {
    MatchesIffAccepts(pattern, candidate);
    var patternIdx, candidateIdx, nextPatternIdx, nextCandidateIdx := 0, 0, 0, 0;
    rounds := 0;
    ghost var at := Cursor(0, 0, 0, 0);
    ghost var limit := Budget(pattern, candidate, at);
    assert limit == (|pattern| + 1) * (|candidate| + 1);
    assert pattern[0..] == pattern && candidate[0..] == candidate;
    while patternIdx < |pattern| || candidateIdx < |candidate|
      invariant at == Cursor(patternIdx, candidateIdx, nextPatternIdx, nextCandidateIdx)
      invariant Faithful(pattern, candidate, at)
      invariant rounds + Budget(pattern, candidate, at) <= limit
      decreases Budget(pattern, candidate, at)
    {
      rounds := rounds + 1;
      if patternIdx < |pattern| {
        var c := pattern[patternIdx];
        if c == STAR {
          at := StarStep(pattern, candidate, at);
          nextPatternIdx := patternIdx;
          nextCandidateIdx := candidateIdx + 1;
          patternIdx := patternIdx + 1;
          continue;
        } else if candidateIdx < |candidate| && candidate[candidateIdx] == c {
          at := LiteralStep(pattern, candidate, at);
          patternIdx := patternIdx + 1;
          candidateIdx := candidateIdx + 1;
          continue;
        }
      }
      DeadEnd(pattern, candidate, at);
      if 0 < nextCandidateIdx && nextCandidateIdx <= |candidate| {
        at := RestartStep(pattern, candidate, at);
        patternIdx := nextPatternIdx;
        candidateIdx := nextCandidateIdx;
        continue;
      }
      return false, rounds;
    }
    assert pattern[|pattern|..] == "" && candidate[|candidate|..] == "";
    return true, rounds;
  }
}
