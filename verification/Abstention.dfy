/** Telling questions with an answer from those without, and the means over a query set. */
module Abstentions {
  import opened Optional
  import opened Evaluation

  datatype Outcome = Outcome(best: Option<real>, abstained: bool) {
    predicate IsAnswer() { best.Some? && !abstained }

    function Best(): real { best.GetOr(0.0) }
  }

  datatype Abstention = Abstention(queries: nat, answered: real, withheld: real, auc: real)

  // --- pairs won ----------------------------------------------------------

  function Win(a: Outcome, u: Outcome): real {
    if a.Best() > u.Best() then 1.0 else if a.Best() == u.Best() then 0.5 else 0.0
  }

  function WinsOver(a: Outcome, us: seq<Outcome>): real {
    if us == [] then 0.0 else WinsOver(a, us[..|us| - 1]) + Win(a, us[|us| - 1])
  }

  function Wins(xs: seq<Outcome>, us: seq<Outcome>): real {
    if xs == [] then 0.0 else Wins(xs[..|xs| - 1], us) + WinsOver(xs[|xs| - 1], us)
  }

  lemma {:induction false} WinsOverRange(a: Outcome, us: seq<Outcome>)
    ensures 0.0 <= WinsOver(a, us) <= |us| as real
    ensures WinsOver(a, us) == |us| as real <==> forall j :: 0 <= j < |us| ==> a.Best() > us[j].Best()
  {
    if us != [] {
      WinsOverRange(a, us[..|us| - 1]);
    }
  }

  lemma {:induction false} WinsRange(xs: seq<Outcome>, us: seq<Outcome>)
    ensures 0.0 <= Wins(xs, us) <= (|xs| * |us|) as real
    ensures Wins(xs, us) == (|xs| * |us|) as real <==>
      forall i, j :: 0 <= i < |xs| && 0 <= j < |us| ==> xs[i].Best() > us[j].Best()
  {
    hide WinsOver;
    if xs != [] {
      var init, last := xs[..|xs| - 1], xs[|xs| - 1];
      WinsRange(init, us);
      WinsOverRange(last, us);
      assert |xs| * |us| == |init| * |us| + |us|;
    }
  }

  lemma {:induction false} WinsOnTheRight(xs: seq<Outcome>, us: seq<Outcome>, u: Outcome)
    ensures Wins(xs, us + [u]) + WinsOver(u, xs) == Wins(xs, us) + |xs| as real
  {
    assert (us + [u])[..|us|] == us;
    if xs != [] {
      WinsOnTheRight(xs[..|xs| - 1], us, u);
    }
  }

  lemma {:induction false} NothingToWin(us: seq<Outcome>)
    ensures Wins(us, []) == 0.0
  {
    if us != [] {
      NothingToWin(us[..|us| - 1]);
    }
  }

  // Every pair is won by one side or shared, so the two sides' wins make up all the pairs.
  lemma {:induction false} WinsMirror(xs: seq<Outcome>, us: seq<Outcome>)
    ensures Wins(xs, us) + Wins(us, xs) == (|xs| * |us|) as real
  {
    if xs == [] {
      NothingToWin(us);
    } else {
      var init, last := xs[..|xs| - 1], xs[|xs| - 1];
      WinsMirror(init, us);
      WinsOnTheRight(us, init, last);
      assert xs == init + [last];
      assert |xs| * |us| == |init| * |us| + |us|;
    }
  }

  // --- the report ---------------------------------------------------------

  function Answers(os: seq<Outcome>): nat {
    if os == [] then 0 else Answers(os[..|os| - 1]) + if os[|os| - 1].IsAnswer() then 1 else 0
  }

  lemma {:induction false} AnswersRange(os: seq<Outcome>)
    ensures Answers(os) <= |os|
    ensures Answers(os) == 0 <==> forall i :: 0 <= i < |os| ==> !os[i].IsAnswer()
    ensures Answers(os) == |os| <==> forall i :: 0 <= i < |os| ==> os[i].IsAnswer()
  {
    if os != [] {
      AnswersRange(os[..|os| - 1]);
    }
  }

  function ShareOf(n: real, total: nat): real { n / (if total < 1 then 1 else total) as real }

  lemma AnsweredShare(os: seq<Outcome>)
    ensures var share := ShareOf(Answers(os) as real, |os|);
      && 0.0 <= share <= 1.0
      && (os != [] ==> (share == 1.0 <==> forall i :: 0 <= i < |os| ==> os[i].IsAnswer()))
  {
    hide ShareOf;
    AnswersRange(os);
    ShareRange(Answers(os) as real, |os|);
  }

  lemma WithheldShare(os: seq<Outcome>)
    ensures Answers(os) <= |os|
    ensures var share := ShareOf((|os| - Answers(os)) as real, |os|);
      && 0.0 <= share <= 1.0
      && (os != [] ==> (share == 1.0 <==> forall i :: 0 <= i < |os| ==> !os[i].IsAnswer()))
  {
    hide ShareOf;
    AnswersRange(os);
    ShareRange((|os| - Answers(os)) as real, |os|);
  }

  method Measure(answerable: seq<Outcome>, unanswerable: seq<Outcome>) returns (report: Abstention)
    ensures report.queries == |unanswerable|
    ensures report.answered == ShareOf(Answers(unanswerable) as real, |unanswerable|)
    ensures report.withheld == ShareOf((|answerable| - Answers(answerable)) as real, |answerable|)
    ensures report.auc == ShareOf(Wins(answerable, unanswerable), |answerable| * |unanswerable|)
    ensures 0.0 <= report.answered <= 1.0 && 0.0 <= report.withheld <= 1.0
    ensures unanswerable != [] ==>
      (report.answered == 1.0 <==> forall i :: 0 <= i < |unanswerable| ==> unanswerable[i].IsAnswer())
    ensures answerable != [] ==>
      (report.withheld == 1.0 <==> forall i :: 0 <= i < |answerable| ==> !answerable[i].IsAnswer())
  {
    hide ShareOf;
    var wins, answered, withheld := 0.0, 0, 0;
    for i := 0 to |answerable|
      invariant wins == Wins(answerable[..i], unanswerable)
    {
      assert answerable[..i + 1][..i] == answerable[..i];
      for j := 0 to |unanswerable|
        invariant wins == Wins(answerable[..i], unanswerable) + WinsOver(answerable[i], unanswerable[..j])
      {
        assert unanswerable[..j + 1][..j] == unanswerable[..j];
        var a, u := answerable[i].Best(), unanswerable[j].Best();
        wins := wins + if a > u then 1.0 else if a == u then 0.5 else 0.0;
      }
      assert unanswerable[..|unanswerable|] == unanswerable;
    }
    for i := 0 to |unanswerable|
      invariant answered == Answers(unanswerable[..i])
    {
      assert unanswerable[..i + 1][..i] == unanswerable[..i];
      if unanswerable[i].IsAnswer() {
        answered := answered + 1;
      }
    }
    for i := 0 to |answerable|
      invariant withheld == i - Answers(answerable[..i])
    {
      assert answerable[..i + 1][..i] == answerable[..i];
      if !answerable[i].IsAnswer() {
        withheld := withheld + 1;
      }
    }
    assert answerable[..|answerable|] == answerable && unanswerable[..|unanswerable|] == unanswerable;
    AnsweredShare(unanswerable);
    WithheldShare(answerable);
    report := Abstention(|unanswerable|, ShareOf(answered as real, |unanswerable|),
                         ShareOf(withheld as real, |answerable|),
                         ShareOf(wins, |answerable| * |unanswerable|));
  }

  lemma ShareRange(n: real, total: nat)
    requires 0.0 <= n <= total as real
    ensures 0.0 <= ShareOf(n, total) <= 1.0
    ensures total > 0 ==> ShareOf(n, total) * total as real == n && (ShareOf(n, total) == 1.0 <==> n == total as real)
  {
    hide ShareOf;
    Quotient(n, total);
    Scaled(ShareOf(n, total), if total < 1 then 1.0 else total as real);
  }

  lemma Quotient(n: real, total: nat)
    ensures ShareOf(n, total) * (if total < 1 then 1.0 else total as real) == n
  {
  }

  lemma Scaled(p: real, d: real)
    requires d > 0.0
    ensures (p * d >= 0.0 <==> p >= 0.0) && (p * d <= d <==> p <= 1.0) && (p * d == d <==> p == 1.0)
  {
    assert (p - 1.0) * d == p * d - d;
  }

  // The area is a probability; it is 1 exactly when every answerable question's best score
  // beats every unanswerable one's, and trading the two sides mirrors it around one half.
  lemma AreaSeparates(xs: seq<Outcome>, us: seq<Outcome>)
    requires xs != [] && us != []
    ensures var pairs := |xs| * |us|; var area, mirrored := ShareOf(Wins(xs, us), pairs), ShareOf(Wins(us, xs), pairs);
      && 0.0 <= area <= 1.0 && area + mirrored == 1.0
      && (area == 1.0 <==> forall i, j :: 0 <= i < |xs| && 0 <= j < |us| ==> xs[i].Best() > us[j].Best())
  {
    PairsExist(|xs|, |us|);
    hide ShareOf, Wins;
    WinsRange(xs, us);
    WinsRange(us, xs);
    WinsMirror(xs, us);
    Area(Wins(xs, us), Wins(us, xs), |xs| * |us|);
  }

  lemma PairsExist(n: nat, m: nat)
    requires n > 0 && m > 0
    ensures n * m == m * n > 0
  {
  }

  lemma Area(wins: real, losses: real, pairs: nat)
    requires wins >= 0.0 && losses >= 0.0 && wins + losses == pairs as real && pairs > 0
    ensures 0.0 <= ShareOf(wins, pairs) <= 1.0 && ShareOf(wins, pairs) + ShareOf(losses, pairs) == 1.0
    ensures ShareOf(wins, pairs) == 1.0 <==> wins == pairs as real
  {
    hide ShareOf;
    ShareRange(wins, pairs);
    ShareRange(losses, pairs);
    Cancel(ShareOf(wins, pairs), ShareOf(losses, pairs), wins, losses, pairs as real);
  }

  lemma Cancel(p: real, q: real, m: real, n: real, total: real)
    requires p * total == m && q * total == n && m + n == total && total > 0.0
    ensures p + q == 1.0
  {
    assert (p + q) * total == total;
  }

  // --- means over a query set ---------------------------------------------

  function Total(scores: seq<QueryScore>): QueryScore {
    if scores == [] then QueryScore(0.0, 0.0, 0.0)
    else
      var before, last := Total(scores[..|scores| - 1]), scores[|scores| - 1];
      QueryScore(before.recall + last.recall, before.reciprocalRank + last.reciprocalRank, before.ndcg + last.ndcg)
  }

  method Summarise(scores: seq<QueryScore>) returns (mean: QueryScore)
    ensures var n := |scores|; var total := Total(scores);
      mean == QueryScore(ShareOf(total.recall, n), ShareOf(total.reciprocalRank, n), ShareOf(total.ndcg, n))
  {
    var recall, reciprocalRank, ndcg := 0.0, 0.0, 0.0;
    for i := 0 to |scores|
      invariant QueryScore(recall, reciprocalRank, ndcg) == Total(scores[..i])
    {
      assert scores[..i + 1][..i] == scores[..i];
      var s := scores[i];
      recall, reciprocalRank, ndcg := recall + s.recall, reciprocalRank + s.reciprocalRank, ndcg + s.ndcg;
    }
    assert scores[..|scores|] == scores;
    var n := |scores|;
    mean := QueryScore(ShareOf(recall, n), ShareOf(reciprocalRank, n), ShareOf(ndcg, n));
  }

  // Splitting a run into two families: the totals add up, so the run's mean is the families'
  // means weighted by their sizes.
  lemma {:induction false} FamiliesAddUp(left: seq<QueryScore>, right: seq<QueryScore>)
    ensures Total(left + right).recall == Total(left).recall + Total(right).recall
    ensures Total(left + right).reciprocalRank == Total(left).reciprocalRank + Total(right).reciprocalRank
    ensures Total(left + right).ndcg == Total(left).ndcg + Total(right).ndcg
  {
    if right == [] {
      assert left + right == left;
    } else {
      var init := right[..|right| - 1];
      FamiliesAddUp(left, init);
      assert (left + right)[..|left + right| - 1] == left + init;
    }
  }

  ghost predicate Shares(score: QueryScore) {
    0.0 <= score.recall <= 1.0 && 0.0 <= score.reciprocalRank <= 1.0 && 0.0 <= score.ndcg <= 1.0
  }

  lemma {:induction false} TotalRange(scores: seq<QueryScore>)
    requires forall i :: 0 <= i < |scores| ==> Shares(scores[i])
    ensures var total, n := Total(scores), |scores| as real;
      0.0 <= total.recall <= n && 0.0 <= total.reciprocalRank <= n && 0.0 <= total.ndcg <= n
  {
    if scores != [] {
      TotalRange(scores[..|scores| - 1]);
    }
  }

  // Means of shares are shares.
  lemma MeansAreShares(scores: seq<QueryScore>)
    requires forall i :: 0 <= i < |scores| ==> Shares(scores[i])
    ensures var total, n := Total(scores), |scores|;
      Shares(QueryScore(ShareOf(total.recall, n), ShareOf(total.reciprocalRank, n), ShareOf(total.ndcg, n)))
  {
    TotalRange(scores);
    ShareRange(Total(scores).recall, |scores|);
    ShareRange(Total(scores).reciprocalRank, |scores|);
    ShareRange(Total(scores).ndcg, |scores|);
  }
}
