/** `GET /api/vault/stats`: the user's reviews counted into the critical, refining and
    mastered bands. The reviews query is an oracle: `None` when it fails, otherwise the
    `last_score` of each row (itself possibly null). */
module VaultStats {
  import opened Base
  import SmartCards

  predicate IsCritical(s: real) { s < 5.0 }
  predicate IsRefining(s: real) { 5.0 <= s < 8.0 }
  predicate IsMastered(s: real) { s >= 8.0 }

  /** The number of non-null scores satisfying `p`. */
  function CountScores(scores: seq<Option<real>>, p: real -> bool): (c: nat)
    ensures c <= |scores|
  {
    if scores == [] then 0
    else
      var last := scores[|scores| - 1];
      CountScores(scores[..|scores| - 1], p) + (if last.Some? && p(last.value) then 1 else 0)
  }

  /** The number of non-null scores. */
  function NonNull(scores: seq<Option<real>>): (c: nat)
    ensures c <= |scores|
  {
    if scores == [] then 0
    else NonNull(scores[..|scores| - 1]) + (if scores[|scores| - 1].Some? then 1 else 0)
  }

  datatype LevelCounts = LevelCounts(critical: nat, refining: nat, mastered: nat, total: nat)

  /** The counting loop: each non-null score increments exactly one counter, null ones none. */
  method CountLevels(scores: seq<Option<real>>) returns (c: LevelCounts)
    ensures c.critical == CountScores(scores, IsCritical)
    ensures c.refining == CountScores(scores, IsRefining)
    ensures c.mastered == CountScores(scores, IsMastered)
    ensures c.total == c.critical + c.refining + c.mastered
  {
    var critical, refining, mastered := 0, 0, 0;
    for k := 0 to |scores|
      invariant critical == CountScores(scores[..k], IsCritical)
      invariant refining == CountScores(scores[..k], IsRefining)
      invariant mastered == CountScores(scores[..k], IsMastered)
    {
      assert scores[..k + 1][..k] == scores[..k];
      var score := scores[k];
      if score.None? {
        continue;
      }
      if score.value < 5.0 {
        critical := critical + 1;
      } else if score.value < 8.0 {
        refining := refining + 1;
      } else {
        mastered := mastered + 1;
      }
    }
    assert scores[..|scores|] == scores;
    c := LevelCounts(critical, refining, mastered, critical + refining + mastered);
  }

  /** The three bands partition the non-null scores, so `total` is their number. */
  lemma {:induction false} BandsPartition(scores: seq<Option<real>>)
    ensures CountScores(scores, IsCritical) + CountScores(scores, IsRefining) + CountScores(scores, IsMastered)
            == NonNull(scores)
  {
    if scores != [] {
      BandsPartition(scores[..|scores| - 1]);
    }
  }

  /** The counters only grow as more rows are seen. */
  lemma {:induction false} CountMonotone(scores: seq<Option<real>>, i: nat, j: nat, p: real -> bool)
    requires i <= j <= |scores|
    ensures CountScores(scores[..i], p) <= CountScores(scores[..j], p)
    decreases j - i
  {
    if i < j {
      CountMonotone(scores, i, j - 1, p);
      assert scores[..j][..j - 1] == scores[..j - 1];
    }
  }

  /** The bands are the mastery levels of the smart-card route under other names. */
  lemma BandsAreMastery(s: real)
    ensures IsCritical(s) <==> SmartCards.MasteryOf(Some(s)) == SmartCards.Red
    ensures IsRefining(s) <==> SmartCards.MasteryOf(Some(s)) == SmartCards.Yellow
    ensures IsMastered(s) <==> SmartCards.MasteryOf(Some(s)) == SmartCards.Green
  {
  }

  datatype StatsResponse =
    | StatsFailed(httpStatus: int, error: string)
    | StatsOk(stats: LevelCounts)

  method Get(authenticated: bool, rows: Option<seq<Option<real>>>) returns (resp: StatsResponse)
    ensures !authenticated ==> resp == StatsFailed(401, "Unauthorized")
    ensures authenticated && rows.None? ==> resp == StatsFailed(500, "Failed to fetch stats")
    ensures resp.StatsOk? <==> authenticated && rows.Some?
    ensures resp.StatsOk? ==>
      && resp.stats.critical == CountScores(rows.value, IsCritical)
      && resp.stats.refining == CountScores(rows.value, IsRefining)
      && resp.stats.mastered == CountScores(rows.value, IsMastered)
      && resp.stats.total == NonNull(rows.value)
  {
    if !authenticated {
      return StatsFailed(401, "Unauthorized");
    }
    if rows.None? {
      return StatsFailed(500, "Failed to fetch stats");
    }
    var counts := CountLevels(rows.value);
    BandsPartition(rows.value);
    resp := StatsOk(counts);
  }
}
