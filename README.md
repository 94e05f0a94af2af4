# Livestream statistics: score cache, ranking and theme cache

A sequential Dafny model of the statistics core of a livestreaming web
backend written in Go (`go/stats_handler.go`, `go/theme_cache.go`):

- the **score cache**, a process-wide map from livestream ID to an
  engagement score (tips plus reactions). A lookup of an absent ID gives 0.
  An add loads the current score and stores it increased by a delta. A reset
  empties the map, then adds the per-livestream tip totals and then the
  per-livestream reaction counts;
- the **ranking engine**. Ranking entries are ordered ascending by score,
  then ascending by key. The key is a numeric livestream ID or a username
  compared as Go compares strings. The ranking is sorted in place. A rank
  counter starts at 1 and grows while the sorted ranking is scanned back from
  its end, until the target entry is reached;
- the **rank part of the two statistics handlers**. The user handler merges a
  reactions list and a tips list into a per-user score map, then builds one
  entry per user. The livestream handler builds one entry per livestream from
  the score cache. Each then sorts its ranking and scans it;
- the **theme cache**, a process-wide map from user ID to theme with store,
  load and reset.

Modules: `Sums` (sums over sequences and their order independence),
`Aggregates` (rows of a GROUP BY result), `ScoreCache`, `Ranking`,
`Statistics`, `ThemeCache`. The two caches are classes whose map field stands
for the global `sync.Map`; their `Get` functions are `ScoreOf` and
`LoadTheme` applied to that field. The sort is an in-place method on an array. The
rank scan is a backward loop with `break`.

The central result is `Ranking.SortAndRank`, together with
`Ranking.ScanPositionIsRank` and `Ranking.RankPermutation`. Sorting then
scanning gives `1 + |{e in ranking : target < e}|`. That number depends only
on the multiset of entries, not on the order the ranking was built in. An
absent target gives `len + 1`. Its corollaries are `RankBounds`
(`1..len`), `TopEntryRanksFirst` (the greatest entry is rank 1) and
`TieLargerKeyRanksBetter` (on equal scores the larger key ranks better).

An unknown username is refused with HTTP 400 (BadRequest) at
`go/stats_handler.go:141`.

## Model

| member | source | states |
|---|---|---|
| `ScoreCache.ScoreOf` | go/stats_handler.go:23-30 | a lookup never fails; an ID with no stored score reads 0, otherwise the stored score |
| `ScoreCache.WithAdded` | go/stats_handler.go:18-21 | after an add, the ID reads its previous score plus the delta; every other ID reads what it read before |
| `ScoreCache.ScoreAfterAdds` | go/stats_handler.go:18-21 | a run of adds leaves each ID at its initial score plus the sum of the deltas added to it |
| `ScoreCache.AddsCommute` | go/stats_handler.go:18-21 | two runs of adds that are permutations of each other leave every ID with the same score |
| `ScoreCache.NeverAddedReadsZero` | go/stats_handler.go:23-27 | after emptying the map, an ID that no add named reads 0 |
| `ScoreCache.ResetScore` | go/stats_handler.go:34-62 | with one row per livestream in each list, after a reset every ID reads its tip total plus its reaction count; a missing row counts 0 |
| `ScoreCache.Cache.constructor` | go/stats_handler.go:14-16 | a fresh cache has no scores |
| `ScoreCache.Cache.Get` | go/stats_handler.go:23-30 | the read is `ScoreOf` of the field: the stored score, or 0 for an ID with no score, and it never fails |
| `ScoreCache.Cache.Add` | go/stats_handler.go:18-21 | the new map is the old one with the delta added at the ID; that ID gains the delta and no other ID changes |
| `ScoreCache.Cache.Reset` | go/stats_handler.go:32-68 | the map is emptied and refolded from the tip rows and then the reaction rows, and every ID reads the sum of its tip rows plus the sum of its reaction rows; the result is false exactly when a database step fails; a failed begin or tip query leaves the map empty, a failed reaction query leaves only the tip totals, a failed commit leaves the map fully rebuilt |
| `Aggregates.SumForAbsent` | go/stats_handler.go:49-51 | a list with no row for an ID contributes 0 to it |
| `Aggregates.SumForUnique` | go/stats_handler.go:49-51 | with unique IDs, what a list adds to an ID is that ID's one row value |
| `Aggregates.SumForPermutation` | go/stats_handler.go:60-62 | what a list adds to an ID does not depend on the order of its rows |
| `Aggregates.ValueForAbsent` | go/stats_handler.go:156-158 | assigning rows leaves 0 for an ID no row carries |
| `Aggregates.ValueForLast` | go/stats_handler.go:156-158 | assigning rows in turn leaves an ID with the value of the last row that carries it |
| `Aggregates.ValueForIsSumFor` | go/stats_handler.go:156-169 | with unique IDs, assigning the rows and adding them up give the same value for every ID |
| `Ranking.StrLessIrreflexive` | go/stats_handler.go:114 | no username is less than itself |
| `Ranking.StrLessTransitive` | go/stats_handler.go:114 | string order is transitive |
| `Ranking.StrLessTotal` | go/stats_handler.go:114 | of two different usernames one is less than the other |
| `Ranking.StrLessAsymmetric` | go/stats_handler.go:114 | string order is asymmetric |
| `Ranking.LessIsStrictTotalOrder` | go/stats_handler.go:87-93 | the entry order of both Less methods is irreflexive, asymmetric and transitive, and any two different entries are comparable |
| `Ranking.HasKeyPermutation` | go/stats_handler.go:183 | permuting a ranking keeps every key it has |
| `Ranking.Swap` | go/stats_handler.go:86 | exchanges two entries and changes nothing else |
| `Ranking.SortRanking` | go/stats_handler.go:183 | the array ends sorted by Less and holds the same entries as before |
| `Ranking.ScanRank` | go/stats_handler.go:185-192 | with no entry for the target the rank is length + 1; otherwise the rank is length minus the index of the last entry with the target key |
| `Ranking.SortAndRank` | go/stats_handler.go:183-192 | sorting then scanning gives length + 1 for an absent key; otherwise 1 plus the number of entries ordered after an entry with the target key, in the ranking as given |
| `Ranking.ScanPositionIsRank` | go/stats_handler.go:185-192 | in a sorted ranking, the scan's count at the last entry with a key is 1 plus the number of entries ordered after it |
| `Ranking.RankPermutation` | go/stats_handler.go:279-287 | the rank does not depend on the order in which the ranking was appended |
| `Ranking.RankBounds` | go/stats_handler.go:289-296 | every entry present has a rank in 1..length |
| `Ranking.TopEntryRanksFirst` | go/stats_handler.go:289-296 | an entry no other entry is ordered after (the greatest score, the largest key among ties) has rank 1 |
| `Ranking.TieLargerKeyRanksBetter` | go/stats_handler.go:112-118 | between two entries of equal score, the one with the larger key has the smaller rank number |
| `Ranking.TieBreakExample` | go/stats_handler.go:183-192 | users tied at 10 ("alice", "zeta") and one at 5 ("carol") rank zeta 1, alice 2, carol 3 |
| `Statistics.BuildUserScores` | go/stats_handler.go:148-169 | every user ID reads its last reaction count plus the sum of its tip totals, 0 if in neither list |
| `Statistics.UserScoreOfUniqueRows` | go/stats_handler.go:148-169 | with one reaction row per user, a user's score is the sum of their reaction rows plus the sum of their tip rows |
| `Statistics.BuildUserRanking` | go/stats_handler.go:176-182 | exactly one entry per user, in the order of the users list, scored from the map with default 0 |
| `Statistics.BuildLivestreamRanking` | go/stats_handler.go:279-286 | exactly one entry per livestream, in list order, scored by the score cache |
| `Statistics.UserRank` | go/stats_handler.go:138-192 | an unknown username is refused with BadRequest; otherwise the rank is the named user's rank among all users and lies in 1..number of users |
| `Statistics.LivestreamRank` | go/stats_handler.go:268-296 | an unknown livestream is refused with BadRequest; one missing from the list gets length + 1; otherwise the rank is its rank among all livestreams |
| `ThemeCache.LoadTheme` | go/theme_cache.go:15-21 | a load returns the stored theme and true, or the zero theme and false when none is stored |
| `ThemeCache.LoadAfterOtherStores` | go/theme_cache.go:11-13 | stores for other users do not change what a user loads |
| `ThemeCache.LoadAfterStores` | go/theme_cache.go:11-13 | after a run of stores a user loads the theme of the last store that named them |
| `ThemeCache.Cache.constructor` | go/theme_cache.go:7-9 | a fresh cache holds no themes |
| `ThemeCache.Cache.Get` | go/theme_cache.go:15-21 | the read is `LoadTheme` of the field: (stored theme, true), or (zero theme, false) for a user with no theme; no type assertion can fail |
| `ThemeCache.Cache.Add` | go/theme_cache.go:11-13 | a store overwrites; the user then loads (theme, true) and no other user's load changes |
| `ThemeCache.Cache.Init` | go/theme_cache.go:23-25 | after a reset every load returns (zero theme, false) |

## Left out

- SQL and transactions: every query, `BeginTxx`, `Commit` and `Rollback`. For the score cache reset, which step fails is the `fault` parameter of `ScoreCache.Cache.Reset`. The handlers take the aggregate result lists and the users and livestreams lists as parameters. That includes the viewer-count, maximum-tip, total-reaction, comment/tip, report-count and favourite-emoji queries, whose logic is SQL text.
- HTTP plumbing: the echo context, path parameters, `strconv.Atoi`, JSON responses and `verifyUserSession`. The handlers' other error returns are left out with it.
- Statistics.UserRank: the user lookup of `go/stats_handler.go:139` is an SQL `WHERE name = ?` whose match depends on the column's collation. The model takes it as exact equality with a name in the ranked users list, the same `==` the rank scan uses at line 188. Under a case-insensitive or trailing-space-padding collation the lookup can succeed for a name the scan never finds, and Go then returns rank len + 1. The model does not capture that case, so its rank bound `1..number of users` relies on exact matching.
- `getLivestreamModelsCache` is not part of this model. Its answer for the requested livestream is the `known` parameter of `Statistics.LivestreamRank`.
- Concurrency of `sync.Map`: both caches are modelled sequentially. The load-then-store in `addScoreByLivestreamID` can lose updates under concurrent adds. The reset replaces the map while readers may be active. Neither effect is modelled.
- `int64` overflow of scores and ranks: the model uses unbounded integers. The code has no overflow handling.
- `sort.Sort` is modelled by the insertion sort with adjacent swaps that Go applies to short ranges, not by its pattern-defeating quicksort. Every property proved depends only on the result being a sorted permutation. With unique keys, that result is the same for any sorting algorithm.
- Go compares strings by their UTF-8 bytes; the model compares `string` (sequences of Unicode characters) by code point, which gives the same order.
- The order between a livestream key and a username key is fixed (livestream keys first) only to make the order total. No ranking mixes the two.
- `ThemeModel` is defined outside the two files modelled. Its fields (id, user ID, dark mode) are taken as a record whose zero value is all zeros and false.
