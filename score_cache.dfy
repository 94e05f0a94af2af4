/** The process-wide livestream score cache of go/stats_handler.go: a map
    from livestream ID to an accumulated score (tips plus reactions). The map
    is modelled sequentially; scores are unbounded integers. */
module ScoreCache {
  import opened Sums
  import opened Aggregates

  /** getScoreByLivestreamID on a map value: the stored score, 0 when absent. */
  function ScoreOf(scores: map<int, int>, id: int): (r: int)
    ensures id !in scores ==> r == 0
    ensures id in scores ==> r == scores[id]
  {
    if id in scores then scores[id] else 0
  }

  /** addScoreByLivestreamID on a map value: load the current score (0 when
      absent) and store it back increased by `delta`. */
  function WithAdded(scores: map<int, int>, id: int, delta: int): (r: map<int, int>)
    ensures ScoreOf(r, id) == ScoreOf(scores, id) + delta
    ensures forall k :: k != id ==> ScoreOf(r, k) == ScoreOf(scores, k)
    ensures r.Keys == scores.Keys + {id}
  {
    scores[id := ScoreOf(scores, id) + delta]
  }

  /** Adding every row of an aggregate result in turn, as the loops of
      InitScoreCache do. */
  function ApplyAdds(scores: map<int, int>, rows: seq<Row>): map<int, int>
  {
    if rows == [] then scores
    else WithAdded(ApplyAdds(scores, rows[..|rows| - 1]), rows[|rows| - 1].id, rows[|rows| - 1].value)
  }

  /** A run of adds leaves every key at its initial score plus the sum of the
      deltas added to it. */
  lemma {:induction false} ScoreAfterAdds(scores: map<int, int>, rows: seq<Row>, id: int)
    ensures ScoreOf(ApplyAdds(scores, rows), id) == ScoreOf(scores, id) + SumFor(rows, id)
    decreases |rows|
  {
    if rows != [] {
      var init := rows[..|rows| - 1];
      ScoreAfterAdds(scores, init, id);
      assert rows == init + [rows[|rows| - 1]];
      SumConcat(init, [rows[|rows| - 1]], Contribution(id));
      assert [rows[|rows| - 1]][..0] == [];
    }
  }

  /** The order in which adds arrive does not change any score. */
  lemma AddsCommute(scores: map<int, int>, rows: seq<Row>, others: seq<Row>, id: int)
    requires multiset(rows) == multiset(others)
    ensures ScoreOf(ApplyAdds(scores, rows), id) == ScoreOf(ApplyAdds(scores, others), id)
  {
    ScoreAfterAdds(scores, rows, id);
    ScoreAfterAdds(scores, others, id);
    SumForPermutation(rows, others, id);
  }

  /** A livestream that no add has touched since the map was emptied reads 0. */
  lemma NeverAddedReadsZero(rows: seq<Row>, id: int)
    requires !HasId(rows, id)
    ensures ScoreOf(ApplyAdds(map[], rows), id) == 0
  {
    ScoreAfterAdds(map[], rows, id);
    SumForAbsent(rows, id);
  }

  /** After a reset from per-livestream tip totals and reaction counts (one row
      per livestream in each, as GROUP BY gives them), every livestream's score
      is its tip total plus its reaction count, a missing row counting 0. */
  lemma ResetScore(tips: seq<Row>, reactions: seq<Row>, id: int)
    requires UniqueIds(tips) && UniqueIds(reactions)
    ensures ScoreOf(ApplyAdds(ApplyAdds(map[], tips), reactions), id)
         == ValueFor(tips, id) + ValueFor(reactions, id)
  {
    ScoreAfterAdds(ApplyAdds(map[], tips), reactions, id);
    ScoreAfterAdds(map[], tips, id);
    ValueForIsSumFor(tips, id);
    ValueForIsSumFor(reactions, id);
  }

  /** Which database step of InitScoreCache fails: beginning the
      transaction, the tip query, the reaction query, the commit, or none. */
  datatype ResetFault = NoFault | BeginFails | TipQueryFails | ReactionQueryFails | CommitFails

  /** The cache object; `scores` stands for the global sync.Map. */
  class Cache {
    var scores: map<int, int>

    /** A fresh sync.Map: nothing is scored. */
    constructor ()
      ensures scores == map[]
    {
      scores := map[];
    }

    /** getScoreByLivestreamID: never fails; 0 for an ID with no score. */
    function Get(id: int): (r: int)
      reads this
      ensures id !in scores ==> r == 0
      ensures id in scores ==> r == scores[id]
    {
      ScoreOf(scores, id)
    }

    /** addScoreByLivestreamID. */
    method Add(id: int, delta: int)
      modifies this
      ensures scores == WithAdded(old(scores), id, delta)
      ensures Get(id) == old(Get(id)) + delta
      ensures forall k :: k != id ==> Get(k) == old(Get(k))
    {
      var current := Get(id);
      scores := scores[id := current + delta];
    }

    /** InitScoreCache: empty the map, then add the tip total of every row
        of `tips`, then the reaction count of every row of `reactions`. The
        map is emptied before the transaction begins, so a failing step
        leaves what was built so far; `fault` says which database step
        fails, if any, and `ok` is false exactly when one does. */
    method Reset(tips: seq<Row>, reactions: seq<Row>, fault: ResetFault) returns (ok: bool)
      modifies this
      ensures ok <==> fault.NoFault?
      ensures fault.BeginFails? || fault.TipQueryFails? ==> scores == map[]
      ensures fault.ReactionQueryFails? ==> scores == ApplyAdds(map[], tips)
      ensures fault.ReactionQueryFails? ==> forall id :: Get(id) == SumFor(tips, id)
      ensures fault.NoFault? || fault.CommitFails? ==>
        scores == ApplyAdds(ApplyAdds(map[], tips), reactions)
      ensures fault.NoFault? || fault.CommitFails? ==>
        forall id :: Get(id) == SumFor(tips, id) + SumFor(reactions, id)
    {
      scores := map[];
      if fault.BeginFails? || fault.TipQueryFails? {
        return false;
      }
      for i := 0 to |tips|
        invariant scores == ApplyAdds(map[], tips[..i])
      {
        assert tips[..i + 1][..i] == tips[..i];
        Add(tips[i].id, tips[i].value);
      }
      assert tips[..|tips|] == tips;
      ghost var afterTips := scores;
      if fault.ReactionQueryFails? {
        forall id ensures Get(id) == SumFor(tips, id) {
          ScoreAfterAdds(map[], tips, id);
        }
        return false;
      }
      for i := 0 to |reactions|
        invariant scores == ApplyAdds(afterTips, reactions[..i])
      {
        assert reactions[..i + 1][..i] == reactions[..i];
        Add(reactions[i].id, reactions[i].value);
      }
      assert reactions[..|reactions|] == reactions;
      forall id ensures Get(id) == SumFor(tips, id) + SumFor(reactions, id) {
        ScoreAfterAdds(afterTips, reactions, id);
        ScoreAfterAdds(map[], tips, id);
      }
      ok := !fault.CommitFails?;
    }
  }
}
