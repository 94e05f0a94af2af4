/** The rank part of the two statistics handlers of go/stats_handler.go:
    building the per-user scores, the two rankings, and the rank of the
    requested user or livestream. The aggregate query results arrive as
    row lists; the SQL that produces them is not modelled. */
module Statistics {
  import opened Aggregates
  import opened Ranking
  import opened ScoreCache

  /** The columns of a users row the ranking needs. */
  datatype User = User(id: int, name: string)

  datatype Error = BadRequest(message: string)

  datatype Result<T> = Ok(value: T) | Err(error: Error)

  /** A user's score: the reaction count assigned from the first result list
      plus the tip totals added from the second, 0 for a user in neither. */
  function UserScore(reactions: seq<Row>, tips: seq<Row>, userId: int): int
  {
    ValueFor(reactions, userId) + SumFor(tips, userId)
  }

  /** The ranking getUserStatisticsHandler sorts: one entry per user, in the
      order of the users list. */
  function UserRankingOf(reactions: seq<Row>, tips: seq<Row>, users: seq<User>): seq<Entry>
  {
    seq(|users|, k requires 0 <= k < |users| => Entry(UserKey(users[k].name), UserScore(reactions, tips, users[k].id)))
  }

  /** The ranking getLivestreamStatisticsHandler sorts: one entry per
      livestream, scored from the cache. */
  function LivestreamRankingOf(scores: map<int, int>, livestreamIds: seq<int>): seq<Entry>
  {
    seq(|livestreamIds|, k requires 0 <= k < |livestreamIds| => Entry(LivestreamKey(livestreamIds[k]), ScoreOf(scores, livestreamIds[k])))
  }

  predicate HasUser(users: seq<User>, name: string)
  {
    exists k :: 0 <= k < |users| && users[k].name == name
  }

  /** The `userScore` map: every reaction row assigns its count to its user,
      then every tip row adds its total to its user (0 when absent). */
  method BuildUserScores(reactions: seq<Row>, tips: seq<Row>) returns (userScore: map<int, int>)
    ensures forall id :: ScoreOf(userScore, id) == UserScore(reactions, tips, id)
  {
    userScore := map[];
    for i := 0 to |reactions|
      invariant forall id :: ScoreOf(userScore, id) == ValueFor(reactions[..i], id)
    {
      assert reactions[..i + 1][..i] == reactions[..i];
      userScore := userScore[reactions[i].id := reactions[i].value];
    }
    assert reactions[..|reactions|] == reactions;
    for i := 0 to |tips|
      invariant forall id :: ScoreOf(userScore, id) == ValueFor(reactions, id) + SumFor(tips[..i], id)
    {
      assert tips[..i + 1][..i] == tips[..i];
      userScore := userScore[tips[i].id := ScoreOf(userScore, tips[i].id) + tips[i].value];
    }
    assert tips[..|tips|] == tips;
  }

  /** With one reaction row per user, as GROUP BY gives them, assigning the
      reaction counts and adding them agree: a user's score is the sum of
      their reaction rows plus the sum of their tip rows. */
  lemma UserScoreOfUniqueRows(reactions: seq<Row>, tips: seq<Row>, userId: int)
    requires UniqueIds(reactions)
    ensures UserScore(reactions, tips, userId) == SumFor(reactions, userId) + SumFor(tips, userId)
  {
    ValueForIsSumFor(reactions, userId);
  }

  /** The loop appending one UserRankingEntry per user. */
  method BuildUserRanking(users: seq<User>, userScore: map<int, int>) returns (ranking: seq<Entry>)
    ensures |ranking| == |users|
    ensures forall k :: 0 <= k < |users| ==>
      ranking[k] == Entry(UserKey(users[k].name), ScoreOf(userScore, users[k].id))
  {
    ranking := [];
    for i := 0 to |users|
      invariant |ranking| == i
      invariant forall k :: 0 <= k < i ==>
        ranking[k] == Entry(UserKey(users[k].name), ScoreOf(userScore, users[k].id))
    {
      ranking := ranking + [Entry(UserKey(users[i].name), ScoreOf(userScore, users[i].id))];
    }
  }

  /** The loop appending one LivestreamRankingEntry per livestream. */
  method BuildLivestreamRanking(cache: Cache, livestreamIds: seq<int>) returns (ranking: seq<Entry>)
    ensures |ranking| == |livestreamIds|
    ensures forall k :: 0 <= k < |livestreamIds| ==>
      ranking[k] == Entry(LivestreamKey(livestreamIds[k]), cache.Get(livestreamIds[k]))
  {
    ranking := [];
    for i := 0 to |livestreamIds|
      invariant |ranking| == i
      invariant forall k :: 0 <= k < i ==>
        ranking[k] == Entry(LivestreamKey(livestreamIds[k]), cache.Get(livestreamIds[k]))
    {
      var score := cache.Get(livestreamIds[i]);
      ranking := ranking + [Entry(LivestreamKey(livestreamIds[i]), score)];
    }
  }

  /** The rank of getUserStatisticsHandler. A username that no user has is
      refused with BadRequest before any ranking is built; otherwise the rank
      is the requested user's RankOf in the ranking of all users. */
  method UserRank(reactions: seq<Row>, tips: seq<Row>, users: seq<User>, username: string)
    returns (result: Result<int>)
    ensures result.Err? <==> !HasUser(users, username)
    ensures result.Err? ==> result.error == BadRequest("not found user that has the given username")
    ensures result.Ok? ==> exists k :: (0 <= k < |users| && users[k].name == username
      && result.value == RankOf(UserRankingOf(reactions, tips, users), UserRankingOf(reactions, tips, users)[k]))
    ensures result.Ok? ==> 1 <= result.value <= |users|
  {
    if !exists k | 0 <= k < |users| :: users[k].name == username {
      return Err(BadRequest("not found user that has the given username"));
    }
    var userScore := BuildUserScores(reactions, tips);
    var ranking := BuildUserRanking(users, userScore);
    ghost var expected := UserRankingOf(reactions, tips, users);
    assert ranking == expected;
    ghost var k0 :| 0 <= k0 < |users| && users[k0].name == username;
    assert ranking[k0].key == UserKey(username);
    var rank := SortAndRank(ranking, UserKey(username));
    ghost var k :| 0 <= k < |ranking| && ranking[k].key == UserKey(username) && rank == RankOf(ranking, ranking[k]);
    RankBounds(ranking, k);
    result := Ok(rank);
  }

  /** The rank of getLivestreamStatisticsHandler. A livestream unknown to the
      livestream cache (`known` is false) is refused with BadRequest; a known
      one missing from the livestream list gets one past the end; otherwise
      the rank is its RankOf in the ranking of all livestreams. */
  method LivestreamRank(cache: Cache, known: bool, livestreamIds: seq<int>, livestreamId: int)
    returns (result: Result<int>)
    ensures result.Err? <==> !known
    ensures result.Err? ==> result.error == BadRequest("cannot get stats of not found livestream")
    ensures known && livestreamId !in livestreamIds ==> result == Ok(|livestreamIds| + 1)
    ensures known && livestreamId in livestreamIds ==> result.Ok? && exists k :: (0 <= k < |livestreamIds|
      && livestreamIds[k] == livestreamId
      && result.value == RankOf(LivestreamRankingOf(cache.scores, livestreamIds), LivestreamRankingOf(cache.scores, livestreamIds)[k]))
  {
    if !known {
      return Err(BadRequest("cannot get stats of not found livestream"));
    }
    var ranking := BuildLivestreamRanking(cache, livestreamIds);
    assert ranking == LivestreamRankingOf(cache.scores, livestreamIds);
    if livestreamId in livestreamIds {
      ghost var k0 :| 0 <= k0 < |livestreamIds| && livestreamIds[k0] == livestreamId;
      assert ranking[k0].key == LivestreamKey(livestreamId);
    }
    var rank := SortAndRank(ranking, LivestreamKey(livestreamId));
    result := Ok(rank);
  }
}
