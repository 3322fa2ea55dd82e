/**
 * Leaderboard records and the ordering the leaderboard is shown in.
 *
 * The source sorts with `Array.prototype.sort` and the comparator
 * `(a, b) => b.score - a.score`: highest score first, and, the sort being
 * stable since ECMAScript 2019 (section 22.1.3.27), records with equal scores
 * keep their relative order. `SortByScore` is that sort, written as an
 * insertion sort.
 */
module Scores {

  /** A player's wallet address. */
  type Address = string

  /**
   * One leaderboard record. Raw records (one per score submission) and the
   * aggregated per-player lines have the same fields, because the source
   * builds the latter by copying a raw record and overwriting `playCount`.
   */
  datatype Entry = Entry(player: Address, score: int, timestamp: int, playCount: int)

  /** Scores never increase from left to right. */
  predicate SortedByScore(s: seq<Entry>) {
    forall i, j :: 0 <= i < j < |s| ==> s[i].score >= s[j].score
  }

  /** The records of `s` whose score is `v`, in their order in `s`. */
  function WithScore(s: seq<Entry>, v: int): (r: seq<Entry>)
    ensures |r| <= |s|
    ensures forall k :: 0 <= k < |r| ==> r[k].score == v
  {
    if s == [] then []
    else (if s[0].score == v then [s[0]] else []) + WithScore(s[1..], v)
  }

  /**
   * Places `x` in front of the first record of `t` whose score is not higher,
   * which is where a stable sort puts a record that came before all of `t`.
   */
  function Insert(x: Entry, t: seq<Entry>): (r: seq<Entry>)
    ensures multiset(r) == multiset(t) + multiset{x}
    ensures |r| == |t| + 1
  {
    if t == [] || t[0].score <= x.score then [x] + t
    else
      assert t == [t[0]] + t[1..];
      [t[0]] + Insert(x, t[1..])
  }

  /** Inserting into a sorted sequence keeps it sorted. */
  lemma {:induction false} InsertSorted(x: Entry, t: seq<Entry>)
    requires SortedByScore(t)
    ensures SortedByScore(Insert(x, t))
  {
    if t != [] && t[0].score > x.score {
      var rest := Insert(x, t[1..]);
      InsertSorted(x, t[1..]);
      forall k | 0 <= k < |rest|
        ensures rest[k].score <= t[0].score
      {
        assert rest[k] in multiset(t[1..]) + multiset{x};
        if rest[k] != x {
          assert rest[k] in t[1..];
        }
      }
    }
  }

  /** The stable descending sort by score. */
  function SortByScore(s: seq<Entry>): (r: seq<Entry>)
    ensures SortedByScore(r)
    ensures multiset(r) == multiset(s)
    ensures |r| == |s|
  {
    if s == [] then []
    else
      assert s == [s[0]] + s[1..];
      InsertSorted(s[0], SortByScore(s[1..]));
      Insert(s[0], SortByScore(s[1..]))
  }

  /** Where `Insert` puts `x` among the records with `x`'s score: first. */
  lemma {:induction false} InsertWithScore(x: Entry, t: seq<Entry>, v: int)
    requires SortedByScore(t)
    ensures WithScore(Insert(x, t), v) ==
            if x.score == v then [x] + WithScore(t, v) else WithScore(t, v)
  {
    if t == [] || t[0].score <= x.score {
      assert ([x] + t)[1..] == t;
    } else {
      var rest := Insert(x, t[1..]);
      InsertWithScore(x, t[1..], v);
      assert ([t[0]] + rest)[1..] == rest;
    }
  }

  /**
   * The sort is stable: for every score, the records with that score come
   * out in the order they went in.
   */
  lemma {:induction false} SortIsStable(s: seq<Entry>, v: int)
    ensures WithScore(SortByScore(s), v) == WithScore(s, v)
  {
    if s != [] {
      SortIsStable(s[1..], v);
      InsertWithScore(s[0], SortByScore(s[1..]), v);
    }
  }

  /** No record occurs twice in `s`. */
  predicate Distinct(s: seq<Entry>) {
    forall i, j :: 0 <= i < j < |s| ==> s[i] != s[j]
  }

  lemma {:induction false} DistinctOccursOnce(s: seq<Entry>, x: Entry)
    requires Distinct(s)
    ensures multiset(s)[x] <= 1
  {
    if s != [] {
      assert s == [s[0]] + s[1..];
      DistinctOccursOnce(s[1..], x);
      if x == s[0] {
        assert x !in s[1..];
      }
    }
  }

  /** Reordering a sequence without repeats does not create repeats. */
  lemma PermutationKeepsDistinct(a: seq<Entry>, b: seq<Entry>)
    requires multiset(a) == multiset(b)
    requires Distinct(a)
    ensures Distinct(b)
  {
    forall i, j | 0 <= i < j < |b|
      ensures b[i] != b[j]
    {
      if b[i] == b[j] {
        assert b == b[..j] + [b[j]] + b[j + 1..];
        assert b[i] in b[..j];
        assert multiset(b)[b[i]] >= 2;
        DistinctOccursOnce(a, b[i]);
      }
    }
  }

  /** The sum of the records' play counts. */
  function TotalPlays(s: seq<Entry>): int {
    if s == [] then 0 else TotalPlays(s[..|s| - 1]) + s[|s| - 1].playCount
  }

  lemma {:induction false} TotalPlaysConcat(a: seq<Entry>, b: seq<Entry>)
    ensures TotalPlays(a + b) == TotalPlays(a) + TotalPlays(b)
  {
    if b == [] {
      assert a + b == a;
    } else {
      assert (a + b)[..|a + b| - 1] == a + b[..|b| - 1];
      TotalPlaysConcat(a, b[..|b| - 1]);
    }
  }

  lemma TotalPlaysCons(x: Entry, t: seq<Entry>)
    ensures TotalPlays([x] + t) == x.playCount + TotalPlays(t)
  {
    TotalPlaysConcat([x], t);
    assert [x][..0] == [];
  }

  lemma {:induction false} InsertKeepsTotalPlays(x: Entry, t: seq<Entry>)
    ensures TotalPlays(Insert(x, t)) == x.playCount + TotalPlays(t)
  {
    if t == [] || t[0].score <= x.score {
      TotalPlaysCons(x, t);
    } else {
      var rest := Insert(x, t[1..]);
      assert Insert(x, t) == [t[0]] + rest;
      InsertKeepsTotalPlays(x, t[1..]);
      TotalPlaysCons(t[0], rest);
      TotalPlaysCons(t[0], t[1..]);
      assert t == [t[0]] + t[1..];
    }
  }

  /** Sorting moves records around without adding or dropping play counts. */
  lemma {:induction false} SortKeepsTotalPlays(s: seq<Entry>)
    ensures TotalPlays(SortByScore(s)) == TotalPlays(s)
  {
    if s != [] {
      var rest := SortByScore(s[1..]);
      assert SortByScore(s) == Insert(s[0], rest);
      SortKeepsTotalPlays(s[1..]);
      InsertKeepsTotalPlays(s[0], rest);
      TotalPlaysCons(s[0], s[1..]);
      assert s == [s[0]] + s[1..];
    }
  }
}
