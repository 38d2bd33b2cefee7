/** Fuzzy matching: a greedy subsequence match, and the score that ranks it. */
module Fuzzy {

  /** `pos` places the first runes of `q` in `c`, in order. */
  ghost predicate Places(q: string, c: string, pos: seq<nat>) {
    && |pos| <= |q|
    && (forall i :: 0 <= i < |pos| ==> pos[i] < |c| && c[pos[i]] == q[i])
    && (forall i, j :: 0 <= i < j < |pos| ==> pos[i] < pos[j])
  }

  /** `q` is a subsequence of `c`. */
  ghost predicate IsSubsequence(q: string, c: string) {
    exists pos: seq<nat> :: |pos| == |q| && Places(q, c, pos)
  }

  /** The places a single scan of the first `n` runes of `c` finds: each rune of `q` at the first
    chance. */
  function Greedy(q: string, c: string, n: nat): (pos: seq<nat>)
    requires n <= |c|
    ensures |pos| <= |q| && Places(q, c, pos) && forall i :: 0 <= i < |pos| ==> pos[i] < n
  {
    if n == 0 then []
    else
      var pos := Greedy(q, c, n - 1);
      if |pos| < |q| && c[n - 1] == q[|pos|] then pos + [n - 1] else pos
  }

  lemma GreedyStep(q: string, c: string, n: nat)
    requires 0 < n <= |c|
    ensures var (before, now) := (Greedy(q, c, n - 1), Greedy(q, c, n));
            && before <= now
            && (|before| < |q| && c[n - 1] == q[|before|] ==> now == before + [n - 1])
  {
    hide Places;
  }

  lemma {:induction false} GreedyIsFirst(q: string, c: string, n: nat, pos: seq<nat>, k: nat)
    requires n <= |c| && Places(q, c, pos) && k < |pos| && pos[k] < n
    ensures k < |Greedy(q, c, n)| && Greedy(q, c, n)[k] <= pos[k]
  {
    hide Places, Greedy;
    PlaceOf(q, c, pos, k);
    GreedyStep(q, c, n);
    if pos[k] < n - 1 {
      GreedyIsFirst(q, c, n - 1, pos, k);
    } else if k > 0 {
      GreedyIsFirst(q, c, n - 1, pos, k - 1);
    }
  }

  lemma PlaceOf(q: string, c: string, pos: seq<nat>, k: nat)
    requires Places(q, c, pos) && k < |pos|
    ensures k < |q| && pos[k] < |c| && c[pos[k]] == q[k] && (k > 0 ==> pos[k - 1] < pos[k])
  {
  }

  /** The greedy scan is complete: it places all of `q` whenever `q` is a subsequence, and it places
    every rune no later than any other placing does. */
  lemma GreedyIsComplete(q: string, c: string)
    ensures |Greedy(q, c, |c|)| == |q| <==> IsSubsequence(q, c)
    ensures forall pos: seq<nat> {:trigger Places(q, c, pos)} :: |pos| == |q| && Places(q, c, pos) ==>
              forall k :: 0 <= k < |q| && k < |Greedy(q, c, |c|)| ==> Greedy(q, c, |c|)[k] <= pos[k]
  {
    var g := Greedy(q, c, |c|);
    forall pos: seq<nat> | |pos| == |q| && Places(q, c, pos)
      ensures |g| == |q| && forall k :: 0 <= k < |q| && k < |g| ==> g[k] <= pos[k]
    {
      forall k: nat | k < |q|
        ensures k < |g| && g[k] <= pos[k]
      {
        GreedyIsFirst(q, c, |c|, pos, k);
      }
      if |q| > 0 {
        GreedyIsFirst(q, c, |c|, pos, |q| - 1);
      }
    }
  }

  lemma {:induction false} GreedyFull(q: string, c: string, n: nat, m: nat)
    requires n <= m <= |c| && |Greedy(q, c, n)| == |q|
    ensures Greedy(q, c, m) == Greedy(q, c, n)
  {
    hide Places;
    if n < m {
      GreedyFull(q, c, n, m - 1);
    }
  }

  // The score.

  predicate WordBreak(c: char) {
    c == '/' || c == '-' || c == '_' || c == ' ' || c == '.'
  }

  /** How many places in a row end with place `k`; the start of the text counts as one. */
  function RunLength(pos: seq<nat>, k: nat): nat
    requires k < |pos|
  {
    var last: int := if k == 0 then -1 else pos[k - 1];
    if last + 1 == pos[k] then (if k == 0 then 0 else RunLength(pos, k - 1)) + 1 else 0
  }

  function StartBonus(c: string, at: nat): (r: real)
    requires at < |c|
    ensures 0.0 <= r <= 1.5
  {
    if at == 0 then 1.5 else if WordBreak(c[at - 1]) then 1.0 else 0.0
  }

  function Points(c: string, pos: seq<nat>, k: nat): real
    requires k < |pos| && pos[k] < |c|
  {
    1.0 + RunLength(pos, k) as real * 0.5 + StartBonus(c, pos[k])
  }

  function Total(c: string, pos: seq<nat>, n: nat): real
    requires n <= |pos| && forall k :: 0 <= k < n ==> pos[k] < |c|
  {
    if n == 0 then 0.0 else Total(c, pos, n - 1) + Points(c, pos, n - 1)
  }

  function PrefixBonus(q: string, c: string): real {
    if q <= c then 2.0 else 0.0
  }

  function AtMostOne(x: real): real {
    if x > 1.0 then 1.0 else x
  }

  /** The score of a match at the given places. */
  function Score(q: string, c: string, pos: seq<nat>): real
    requires q != "" && c != "" && Places(q, c, pos)
  {
    Blend(PrefixBonus(q, c) + Total(c, pos, |pos|), |q| as real, |c| as real)
  }

  /** The points against four for every rune, and a share for short candidates. */
  function Blend(points: real, n: real, m: real): real
    requires n > 0.0 && m > 0.0
  {
    AtMostOne(points / (n * 4.0)) * 0.75 + AtMostOne(n / m) * 0.25
  }

  lemma {:induction false} TotalAtLeast(c: string, pos: seq<nat>, n: nat)
    requires n <= |pos| && forall k :: 0 <= k < n ==> pos[k] < |c|
    ensures Total(c, pos, n) >= n as real
  {
    if n > 0 {
      TotalAtLeast(c, pos, n - 1);
    }
  }

  lemma Quotient(a: real, b: real, bound: real)
    requires b > 0.0 && a >= bound * b
    ensures a / b >= bound
  {
    assert a / b * b == a;
  }

  lemma BlendBounds(points: real, n: real, m: real)
    requires points >= n > 0.0 && m > 0.0
    ensures 0.1875 < Blend(points, n, m) <= 1.0
  {
    Quotient(points, n * 4.0, 0.25);
    var (a, b) := (AtMostOne(points / (n * 4.0)), AtMostOne(n / m));
    assert b > 0.0;
    assert 0.25 <= a <= 1.0 && b <= 1.0;
  }

  /** A full match scores above 3/16 and at most 1. */
  lemma ScoreBounds(q: string, c: string, pos: seq<nat>)
    requires q != "" && Places(q, c, pos) && |pos| == |q|
    ensures c != "" && 0.1875 < Score(q, c, pos) <= 1.0
  {
    hide Blend, Total;
    assert pos[0] < |c|;
    TotalAtLeast(c, pos, |pos|);
    BlendBounds(PrefixBonus(q, c) + Total(c, pos, |pos|), |q| as real, |c| as real);
  }

  // What ranks higher.

  /** The place before place `k`; the start of the text counts as one. */
  function Previous(pos: seq<nat>, k: nat): int
    requires k < |pos|
  {
    if k == 0 then -1 else pos[k - 1]
  }

  /** The run that ends at place `k`: so many places stand side by side, and the one before them does not. */
  lemma {:induction false} RunLengthMeans(pos: seq<nat>, k: nat)
    requires k < |pos|
    ensures var r := RunLength(pos, k);
            && r <= k + 1
            && (forall j :: k - r < j <= k ==> Previous(pos, j) + 1 == pos[j])
            && (r <= k ==> Previous(pos, k - r) + 1 != pos[k - r])
  {
    if k > 0 && pos[k - 1] + 1 == pos[k] {
      RunLengthMeans(pos, k - 1);
    }
  }

  /** A prefix is placed on itself. */
  lemma PrefixPlaces(q: string, c: string)
    requires q <= c
    ensures var pos := Greedy(q, c, |c|); |pos| == |q| && forall k :: 0 <= k < |q| ==> pos[k] == k
  {
    var own: seq<nat> := seq(|q|, i => i);
    assert Places(q, c, own);
    GreedyIsComplete(q, c);
    var pos := Greedy(q, c, |c|);
    forall k: nat | k < |q|
      ensures pos[k] == k
    {
      AtLeastIndex(q, c, pos, k);
    }
  }

  lemma {:induction false} AtLeastIndex(q: string, c: string, pos: seq<nat>, k: nat)
    requires Places(q, c, pos) && k < |pos|
    ensures pos[k] >= k
  {
    if k > 0 {
      AtLeastIndex(q, c, pos, k - 1);
    }
  }

  lemma {:induction false} OwnRun(pos: seq<nat>, k: nat)
    requires k < |pos| && forall i :: 0 <= i <= k ==> pos[i] == i
    ensures RunLength(pos, k) == k + 1
  {
    if k > 0 {
      OwnRun(pos, k - 1);
    }
  }

  /** No rune earns more than the same rune of a prefix. */
  lemma PointsAtMost(q: string, c: string, own: seq<nat>, other: string, pos: seq<nat>, k: nat)
    requires q <= c && |own| == |q| && (forall i :: 0 <= i < |q| ==> own[i] == i)
    requires Places(q, other, pos) && k < |pos|
    ensures Points(other, pos, k) <= Points(c, own, k)
  {
    OwnRun(own, k);
    RunLengthMeans(pos, k);
    if k > 0 {
      assert pos[k - 1] < pos[k] && other[pos[k - 1]] == q[k - 1] == c[k - 1];
    }
  }

  lemma {:induction false} TotalAtMost(q: string, c: string, own: seq<nat>, other: string, pos: seq<nat>, n: nat)
    requires q <= c && |own| == |q| && (forall i :: 0 <= i < |q| ==> own[i] == i)
    requires Places(q, other, pos) && n <= |pos|
    ensures Total(other, pos, n) <= Total(c, own, n)
  {
    hide Points;
    if n > 0 {
      TotalAtMost(q, c, own, other, pos, n - 1);
      PointsAtMost(q, c, own, other, pos, n - 1);
    }
  }

  /** A prefix ranks first: what starts with the input scores no less than any other match that is not
    shorter, wherever its runes are placed; and more than one that does not start with it, unless that
    one has full marks for its points. */
  lemma PrefixRanksFirst(q: string, c: string, other: string, pos: seq<nat>)
    requires q != "" && q <= c && Places(q, other, pos) && |pos| == |q| && |c| <= |other|
    ensures var (first, second) := (Score(q, c, Greedy(q, c, |c|)), Score(q, other, pos));
            && first >= second
            && (!(q <= other) ==> first > second || second >= 0.75 + |q| as real / |other| as real * 0.25)
  {
    hide Total, Greedy, Blend;
    var own := Greedy(q, c, |c|);
    PrefixPlaces(q, c);
    assert pos[0] < |other|;
    var (a, b) := (PrefixBonus(q, c) + Total(c, own, |q|), PrefixBonus(q, other) + Total(other, pos, |q|));
    assert Score(q, c, own) == Blend(a, |q| as real, |c| as real);
    assert Score(q, other, pos) == Blend(b, |q| as real, |other| as real);
    TotalAtMost(q, c, own, other, pos, |q|);
    TotalAtLeast(other, pos, |q|);
    hide Places, Score;
    BlendMonotone(a, b, |q| as real, |c| as real, |other| as real);
  }

  /** Worked scores: a prefix of two runes, a rune at the start of a word, and one inside a word. */
  lemma SampleScores()
    ensures Places("ab", "abc", [0, 1]) && Places("a", "x/a", [2]) && Places("a", "xxa", [2])
    ensures Score("ab", "abc", [0, 1]) == 7.0 / 8.0 * 0.75 + 2.0 / 3.0 * 0.25
    ensures Score("a", "x/a", [2]) == 2.0 / 4.0 * 0.75 + 1.0 / 3.0 * 0.25
    ensures Score("a", "xxa", [2]) == 1.0 / 4.0 * 0.75 + 1.0 / 3.0 * 0.25
  {
    assert RunLength([0, 1], 0) == 1 && RunLength([0, 1], 1) == 2;
    assert Total("abc", [0, 1], 1) == 3.0 && Total("abc", [0, 1], 2) == 5.0;
    assert Total("x/a", [2], 1) == 2.0 && Total("xxa", [2], 1) == 1.0;
  }

  lemma QuotientMonotone(a: real, b: real, d: real)
    requires d > 0.0 && a >= b
    ensures a / d >= b / d && (a > b ==> a / d > b / d)
  {
  }

  lemma QuotientShorter(n: real, m: real, more: real)
    requires n > 0.0 && 0.0 < m <= more
    ensures n / m >= n / more
  {
    Quotient(n, m, n / more);
    assert n / more * more == n;
  }

  lemma BlendMonotone(a: real, b: real, n: real, m: real, more: real)
    requires a >= b >= 0.0 && 0.0 < n <= m <= more
    ensures Blend(a, n, m) >= Blend(b, n, more)
    ensures a > b ==> Blend(a, n, m) > Blend(b, n, more) || Blend(b, n, more) >= 0.75 + n / more * 0.25
  {
    QuotientMonotone(a, b, n * 4.0);
    QuotientShorter(n, m, more);
    QuotientMonotone(m, n, m);
    QuotientMonotone(more, n, more);
  }

  lemma {:induction false} TotalPrefix(c: string, pos: seq<nat>, more: seq<nat>, n: nat)
    requires n <= |pos| && forall k :: 0 <= k < n ==> pos[k] < |c|
    ensures Total(c, pos + more, n) == Total(c, pos, n)
    ensures forall k :: 0 <= k < n ==> RunLength(pos + more, k) == RunLength(pos, k)
  {
    if n > 0 {
      TotalPrefix(c, pos, more, n - 1);
    }
  }

  function Lower(lower: char -> char, s: string): (r: string)
    ensures |r| == |s| && forall i :: 0 <= i < |s| ==> r[i] == lower(s[i])
  {
    seq(|s|, i requires 0 <= i < |s| => lower(s[i]))
  }

  /** Matches `input` against `candidate` without regard to case, and scores the match. */
  method FuzzyMatch(lower: char -> char, input: string, candidate: string) returns (matched: bool, score: real)
    ensures matched <==> IsSubsequence(Lower(lower, input), Lower(lower, candidate))
    ensures matched && input != "" ==>
      var (q, c) := (Lower(lower, input), Lower(lower, candidate));
      c != "" && score == Score(q, c, Greedy(q, c, |c|))
    ensures matched && input != "" ==> 0.1875 < score <= 1.0
    ensures !matched || input == "" ==> score == 0.0
  {
    hide Lower, Total, RunLength, IsSubsequence, Places;
    var (q, c) := (Lower(lower, input), Lower(lower, candidate));
    GreedyIsComplete(q, c);
    if input == "" {
      EmptyIsSubsequence(c);
      return true, 0.0;
    }
    if candidate == "" {
      return false, 0.0;
    }
    var qi, ci := 0, 0;
    while ci < |c| && qi < |q|
      invariant ci <= |c| && qi == |Greedy(q, c, ci)|
    {
      if c[ci] == q[qi] {
        qi := qi + 1;
      }
      ci := ci + 1;
    }
    if qi == |q| {
      GreedyFull(q, c, ci, |c|);
    }
    if qi < |q| {
      return false, 0.0;
    }
    score := 0.0;
    if q <= c {
      score := score + 2.0;
    }
    score := ScoreLoop(q, c, score);
    AllPlaced(q, c, |c|);
    ScoreBounds(q, c, Greedy(q, c, |c|));
    score := Finish(score, |q|, |c|);
    return true, score;
  }

  /** The loop that adds up the points. */
  method ScoreLoop(q: string, c: string, bonus: real) returns (score: real)
    requires |Greedy(q, c, |c|)| == |q|
    ensures score == bonus + Total(c, Greedy(q, c, |c|), |q|)
  {
    hide Total, RunLength, Places;
    score := bonus;
    var qi, ci := 0, 0;
    var lastMatchIdx: int, consecutiveCount: nat := -1, 0;
    ghost var pos := [];
    EmptyTotal(c);
    while ci < |c| && qi < |q|
      invariant ci <= |c| && qi == |pos| && pos == Greedy(q, c, ci)
      invariant lastMatchIdx == if pos == [] then -1 else pos[|pos| - 1]
      invariant consecutiveCount == if pos == [] then 0 else RunLength(pos, |pos| - 1)
      invariant forall k :: 0 <= k < |pos| ==> pos[k] < |c|
      invariant score == bonus + Total(c, pos, |pos|)
    {
      if c[ci] == q[qi] {
        AddPlace(c, pos, ci);
        var points := 1.0;
        if lastMatchIdx == ci - 1 {
          consecutiveCount := consecutiveCount + 1;
          points := points + consecutiveCount as real * 0.5;
        } else {
          consecutiveCount := 0;
        }
        if ci == 0 {
          points := points + 1.5;
        } else if WordBreak(c[ci - 1]) {
          points := points + 1.0;
        }
        score := score + points;
        lastMatchIdx := ci;
        pos := pos + [ci];
        qi := qi + 1;
      }
      ci := ci + 1;
    }
    AllPlaced(q, c, ci);
  }

  /** Normalizes the points. */
  method Finish(score: real, n: nat, m: nat) returns (final: real)
    requires n > 0 && m > 0
    ensures final == Blend(score, n as real, m as real)
  {
    var maxPossible := n as real * 4.0;
    var normalized := score / maxPossible;
    if normalized > 1.0 {
      normalized := 1.0;
    }
    var lengthRatio := n as real / m as real;
    if lengthRatio > 1.0 {
      lengthRatio := 1.0;
    }
    return normalized * 0.75 + lengthRatio * 0.25;
  }

  lemma EmptyIsSubsequence(c: string)
    ensures IsSubsequence("", c)
  {
    assert Places("", c, []);
  }

  lemma EmptyTotal(c: string)
    ensures Total(c, [], 0) == 0.0
  {
  }

  lemma AllPlaced(q: string, c: string, n: nat)
    requires n <= |c| && (n == |c| || |Greedy(q, c, n)| == |q|)
    ensures Greedy(q, c, n) == Greedy(q, c, |c|)
  {
    if n < |c| {
      GreedyFull(q, c, n, |c|);
    }
  }

  lemma AddPlace(c: string, pos: seq<nat>, at: nat)
    requires at < |c| && forall k :: 0 <= k < |pos| ==> pos[k] < at
    ensures var next := pos + [at];
            var last: int := if pos == [] then -1 else pos[|pos| - 1];
            var run: nat := if pos == [] then 0 else RunLength(pos, |pos| - 1);
            && RunLength(next, |pos|) == (if last == at - 1 then run + 1 else 0)
            && Total(c, next, |next|)
               == Total(c, pos, |pos|) + (1.0 + RunLength(next, |pos|) as real * 0.5 + StartBonus(c, at))
  {
    TotalPrefix(c, pos, [at], |pos|);
  }
}
