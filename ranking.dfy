/** The ranking engine of go/stats_handler.go: ranking entries, the order the
    `Less` methods of LivestreamRanking and UserRanking define, the in-place
    sort, and the backward scan that turns a sorted ranking into a rank. */
module Ranking {
  import opened Sums

  /** The key of a ranking entry: a livestream ID or a username. */
  datatype Key = LivestreamKey(id: int) | UserKey(name: string)

  /** LivestreamRankingEntry and UserRankingEntry. */
  datatype Entry = Entry(key: Key, score: int)

  /** Go's `<` on strings: lexicographic, a proper prefix first. Go compares
      the UTF-8 bytes, which orders strings as their code points do. */
  predicate StrLess(a: string, b: string)
  {
    if |a| == 0 then |b| > 0
    else if |b| == 0 then false
    else if a[0] != b[0] then a[0] < b[0]
    else StrLess(a[1..], b[1..])
  }

  /** Numeric order on livestream IDs, string order on usernames. A ranking
      never mixes the two kinds; livestream keys come first only so that the
      order is total on all keys. */
  predicate KeyLess(a: Key, b: Key)
  {
    match (a, b)
    case (LivestreamKey(x), LivestreamKey(y)) => x < y
    case (UserKey(x), UserKey(y)) => StrLess(x, y)
    case (LivestreamKey(_), UserKey(_)) => true
    case (UserKey(_), LivestreamKey(_)) => false
  }

  /** The `Less` methods: lower score first, on equal scores smaller key first. */
  predicate Less(x: Entry, y: Entry)
  {
    if x.score == y.score then KeyLess(x.key, y.key) else x.score < y.score
  }

  lemma {:induction false} StrLessIrreflexive(a: string)
    ensures !StrLess(a, a)
    decreases |a|
  {
    if |a| > 0 {
      StrLessIrreflexive(a[1..]);
    }
  }

  lemma {:induction false} StrLessTransitive(a: string, b: string, c: string)
    requires StrLess(a, b) && StrLess(b, c)
    ensures StrLess(a, c)
    decreases |a|
  {
    if |a| > 0 && a[0] == b[0] && b[0] == c[0] {
      StrLessTransitive(a[1..], b[1..], c[1..]);
    }
  }

  lemma {:induction false} StrLessTotal(a: string, b: string)
    requires a != b
    ensures StrLess(a, b) || StrLess(b, a)
    decreases |a|
  {
    if |a| > 0 && |b| > 0 && a[0] == b[0] {
      assert a == [a[0]] + a[1..] && b == [b[0]] + b[1..];
      StrLessTotal(a[1..], b[1..]);
    }
  }

  lemma StrLessAsymmetric(a: string, b: string)
    requires StrLess(a, b)
    ensures !StrLess(b, a)
  {
    if StrLess(b, a) {
      StrLessTransitive(a, b, a);
      StrLessIrreflexive(a);
    }
  }

  /** Less is a strict total order on entries: irreflexive, asymmetric,
      transitive, and any two different entries are comparable. Different
      keys therefore always decide the order. */
  lemma LessIsStrictTotalOrder(x: Entry, y: Entry, z: Entry)
    ensures !Less(x, x)
    ensures Less(x, y) ==> !Less(y, x)
    ensures Less(x, y) && Less(y, z) ==> Less(x, z)
    ensures x != y ==> Less(x, y) || Less(y, x)
  {
    if x.key.UserKey? {
      StrLessIrreflexive(x.key.name);
    }
    if Less(x, y) && x.score == y.score && x.key.UserKey? && y.key.UserKey? {
      StrLessAsymmetric(x.key.name, y.key.name);
    }
    if Less(x, y) && Less(y, z) && x.score == y.score == z.score
       && x.key.UserKey? && y.key.UserKey? && z.key.UserKey? {
      StrLessTransitive(x.key.name, y.key.name, z.key.name);
    }
    if x != y && x.score == y.score && x.key.UserKey? && y.key.UserKey? {
      StrLessTotal(x.key.name, y.key.name);
    }
  }

  /** What sort.Sort leaves behind: no entry is Less than one before it. */
  predicate Sorted(s: seq<Entry>)
  {
    forall i, j :: 0 <= i < j < |s| ==> !Less(s[j], s[i])
  }

  predicate HasKey(s: seq<Entry>, key: Key)
  {
    exists i :: 0 <= i < |s| && s[i].key == key
  }

  lemma HasKeyPermutation(s: seq<Entry>, t: seq<Entry>, key: Key)
    requires multiset(s) == multiset(t)
    ensures HasKey(s, key) ==> HasKey(t, key)
  {
    if HasKey(s, key) {
      var i :| 0 <= i < |s| && s[i].key == key;
      assert s[i] in multiset(t);
    }
  }

  /** Swap of the ranking types. */
  method Swap(a: array<Entry>, i: nat, j: nat)
    requires i < a.Length && j < a.Length
    modifies a
    ensures a[..] == old(a[..])[i := old(a[j])][j := old(a[i])]
    ensures multiset(a[..]) == multiset(old(a[..]))
  {
    a[i], a[j] := a[j], a[i];
  }

  /** sort.Sort on a ranking, by the insertion sort Go applies to short
      ranges: each entry is moved down by adjacent Swaps while it is Less
      than its left neighbour. The result is a sorted permutation. */
  method SortRanking(a: array<Entry>)
    modifies a
    ensures Sorted(a[..])
    ensures multiset(a[..]) == multiset(old(a[..]))
  {
    var i := 1;
    while i < a.Length
      invariant 1 <= i
      invariant forall p, q :: 0 <= p < q < a.Length && q < i ==> !Less(a[q], a[p])
      invariant multiset(a[..]) == multiset(old(a[..]))
    {
      var j := i;
      while j > 0 && Less(a[j], a[j - 1])
        invariant 0 <= j <= i < a.Length
        invariant forall p, q :: 0 <= p < q <= i && p != j && q != j ==> !Less(a[q], a[p])
        invariant forall q :: j < q <= i ==> Less(a[j], a[q])
        invariant multiset(a[..]) == multiset(old(a[..]))
      {
        Swap(a, j, j - 1);
        j := j - 1;
      }
      forall p, q | 0 <= p < q <= i ensures !Less(a[q], a[p]) {
        LessIsStrictTotalOrder(a[p], a[q], a[j]);
        if q == j && p < j {
          LessIsStrictTotalOrder(a[q], a[j - 1], a[p]);
          LessIsStrictTotalOrder(a[j - 1], a[q], a[p]);
        }
      }
      i := i + 1;
    }
  }

  /** The backward scan of the statistics handlers: a counter that starts at
      1 and grows by one for every entry passed, from the end of the ranking
      backwards, until the entry with the target key is reached. */
  method ScanRank(a: array<Entry>, target: Key) returns (rank: int)
    ensures !HasKey(a[..], target) ==> rank == a.Length + 1
    ensures HasKey(a[..], target) ==>
      exists i :: 0 <= i < a.Length && a[i].key == target && rank == a.Length - i
        && forall j :: i < j < a.Length ==> a[j].key != target
  {
    rank := 1;
    var i := a.Length - 1;
    while i >= 0
      invariant -1 <= i < a.Length
      invariant rank == a.Length - i
      invariant forall j :: i < j < a.Length ==> a[j].key != target
    {
      if a[i].key == target {
        break;
      }
      rank := rank + 1;
      i := i - 1;
    }
  }

  /** The whole rank computation of a statistics handler on the ranking it
      built: copy it into an array, sort it, scan it. The result is the
      target's rank in the sense of RankOf, whatever order the ranking came
      in, or one past the end when no entry has the target key. */
  method SortAndRank(ranking: seq<Entry>, target: Key) returns (rank: int)
    ensures !HasKey(ranking, target) ==> rank == |ranking| + 1
    ensures HasKey(ranking, target) ==>
      exists k :: 0 <= k < |ranking| && ranking[k].key == target && rank == RankOf(ranking, ranking[k])
  {
    var a := new Entry[|ranking|](k requires 0 <= k < |ranking| => ranking[k]);
    assert a[..] == ranking;
    SortRanking(a);
    rank := ScanRank(a, target);
    HasKeyPermutation(ranking, a[..], target);
    HasKeyPermutation(a[..], ranking, target);
    if HasKey(ranking, target) {
      ghost var k :| 0 <= k < |ranking| && ranking[k].key == target;
      ghost var i' :| 0 <= i' < a.Length && a[i'].key == target && rank == a.Length - i'
        && forall j :: i' < j < a.Length ==> a[j].key != target;
      ScanPositionIsRank(a[..], i');
      RankPermutation(a[..], ranking, a[i']);
      assert a[i'] in multiset(ranking);
    }
  }

  /** Whether an entry is ranked strictly above `e`, as 1 or 0. */
  function Above(e: Entry): Entry -> int
  {
    (x: Entry) => if Less(e, x) then 1 else 0
  }

  /** The number of entries of s ordered strictly after e. */
  function CountAbove(s: seq<Entry>, e: Entry): int
  {
    Sum(s, Above(e))
  }

  /** The rank `e` has in any arrangement of the entries s. */
  function RankOf(s: seq<Entry>, e: Entry): int
  {
    1 + CountAbove(s, e)
  }

  /** In a sorted ranking, what the scan returns for the last entry with a
      key is one more than the number of entries ordered after that entry. */
  lemma {:induction false} ScanPositionIsRank(s: seq<Entry>, i: nat)
    requires Sorted(s) && i < |s|
    requires forall j :: i < j < |s| ==> s[j].key != s[i].key
    ensures RankOf(s, s[i]) == |s| - i
    decreases |s|
  {
    var n := |s| - 1;
    var init := s[..n];
    if i == n {
      forall k | 0 <= k < |init| ensures Above(s[i])(init[k]) == 0 {
        assert !Less(s[n], s[k]);
      }
      SumZero(init, Above(s[i]));
      LessIsStrictTotalOrder(s[i], s[i], s[i]);
    } else {
      assert init[i] == s[i];
      ScanPositionIsRank(init, i);
      assert s[n] != s[i];
      LessIsStrictTotalOrder(s[i], s[n], s[n]);
    }
  }

  /** The rank does not depend on the order in which the entries were given. */
  lemma RankPermutation(s: seq<Entry>, t: seq<Entry>, e: Entry)
    requires multiset(s) == multiset(t)
    ensures RankOf(s, e) == RankOf(t, e)
  {
    SumPermutation(s, t, Above(e));
  }

  /** Every ranked entry has a rank between 1 and the number of entries. */
  lemma RankBounds(s: seq<Entry>, k: nat)
    requires k < |s|
    ensures 1 <= RankOf(s, s[k]) <= |s|
  {
    var e := s[k];
    var rest := s[..k] + s[k + 1..];
    forall i | 0 <= i < |s| ensures 0 <= Above(e)(s[i]) <= 1 { }
    forall i | 0 <= i < |rest| ensures 0 <= Above(e)(rest[i]) <= 1 { }
    SumOfIndicators(rest, Above(e));
    SumRemove(s, k, Above(e));
    LessIsStrictTotalOrder(e, e, e);
  }

  /** An entry that no other entry is ordered after, such as the one with the
      greatest score, has rank 1. */
  lemma TopEntryRanksFirst(s: seq<Entry>, e: Entry)
    requires forall i :: 0 <= i < |s| ==> !Less(e, s[i])
    ensures RankOf(s, e) == 1
  {
    SumZero(s, Above(e));
  }

  /** Between two entries of equal score, the one with the larger key has the
      better (numerically smaller) rank. */
  lemma TieLargerKeyRanksBetter(s: seq<Entry>, i: nat, j: nat)
    requires i < |s| && j < |s|
    requires s[i].score == s[j].score && KeyLess(s[i].key, s[j].key)
    ensures RankOf(s, s[j]) < RankOf(s, s[i])
  {
    var x, y := s[i], s[j];
    forall k | 0 <= k < |s| ensures Above(y)(s[k]) <= Above(x)(s[k]) {
      LessIsStrictTotalOrder(x, y, s[k]);
    }
    LessIsStrictTotalOrder(y, y, y);
    SumStrictMonotone(s, Above(y), Above(x), j);
  }

  /** Two users tied at 10 and one at 5: the tied user with the larger name
      ranks first, the other second, the user at 5 third. */
  lemma TieBreakExample()
    ensures var s := [Entry(UserKey("alice"), 10), Entry(UserKey("zeta"), 10), Entry(UserKey("carol"), 5)];
      RankOf(s, s[1]) == 1 && RankOf(s, s[0]) == 2 && RankOf(s, s[2]) == 3
  {
    var s := [Entry(UserKey("alice"), 10), Entry(UserKey("zeta"), 10), Entry(UserKey("carol"), 5)];
    assert StrLess("alice", "zeta") && !StrLess("zeta", "alice");
    assert s[..2] == [s[0], s[1]] && s[..2][..1] == [s[0]] && [s[0]][..0] == [];
    forall e ensures CountAbove(s, e) == Above(e)(s[0]) + Above(e)(s[1]) + Above(e)(s[2]) {
      assert CountAbove(s, e) == Sum(s[..2], Above(e)) + Above(e)(s[2]);
      assert Sum(s[..2], Above(e)) == Sum([s[0]], Above(e)) + Above(e)(s[1]);
    }
  }
}
