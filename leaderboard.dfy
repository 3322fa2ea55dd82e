/**
 * processLeaderboard: merges the raw score submissions read from the game
 * contract into one line per player (best score, the timestamp of the
 * submission that first reached it, and the number of submissions), ranked
 * by score.
 *
 * The reference definition below says what each line should be without
 * following the loop: `Players` lists the players by first appearance,
 * `MaxScore` and `CountOf` are the best score and the number of records of a
 * player, `FirstWith` finds the earliest record with a given player and
 * score, and `Ranked` is the expected result. `ProcessLeaderboard` is the
 * source's loop over a JavaScript `Map`, proved to compute `Ranked`.
 */
module Leaderboard {
  import opened Scores

  /** The distinct players of `raw`, in order of first appearance. */
  function Players(raw: seq<Entry>): (ps: seq<Address>)
    ensures |ps| <= |raw|
  {
    if raw == [] then []
    else
      var ps := Players(raw[..|raw| - 1]);
      var p := raw[|raw| - 1].player;
      if p in ps then ps else ps + [p]
  }

  /** The number of records of `raw` submitted by `p`. */
  function CountOf(raw: seq<Entry>, p: Address): nat {
    if raw == [] then 0
    else CountOf(raw[..|raw| - 1], p) + (if raw[|raw| - 1].player == p then 1 else 0)
  }

  /** The best score `p` has in `raw`. */
  function MaxScore(raw: seq<Entry>, p: Address): (m: int)
    requires p in Players(raw)
    ensures forall k :: 0 <= k < |raw| && raw[k].player == p ==> raw[k].score <= m
    ensures exists k :: 0 <= k < |raw| && raw[k].player == p && raw[k].score == m
  {
    var init, last := raw[..|raw| - 1], raw[|raw| - 1];
    if last.player != p then MaxScore(init, p)
    else if p !in Players(init) then
      PlayersOccur(init, p);
      last.score
    else
      var m := MaxScore(init, p);
      if m < last.score then last.score else m
  }

  /**
   * The index of the earliest record of `raw` with player `p` and score `v`,
   * or `|raw|` when there is none.
   */
  function FirstWith(raw: seq<Entry>, p: Address, v: int): (k: nat)
    ensures k <= |raw|
    ensures k < |raw| ==> raw[k].player == p && raw[k].score == v
    ensures forall j :: 0 <= j < k && j < |raw| ==> !(raw[j].player == p && raw[j].score == v)
  {
    if raw == [] then 0
    else
      var init, last := raw[..|raw| - 1], raw[|raw| - 1];
      var k := FirstWith(init, p, v);
      if k < |init| then k
      else if last.player == p && last.score == v then |init|
      else |raw|
  }

  /** `p` is listed by `Players` exactly when some record of `raw` is `p`'s. */
  lemma {:induction false} PlayersOccur(raw: seq<Entry>, p: Address)
    ensures p in Players(raw) <==> exists k :: 0 <= k < |raw| && raw[k].player == p
  {
    if raw != [] {
      var init := raw[..|raw| - 1];
      PlayersOccur(init, p);
      if p in Players(init) {
        var k :| 0 <= k < |init| && init[k].player == p;
        assert raw[k].player == p;
      }
      if exists k :: 0 <= k < |raw| && raw[k].player == p {
        var k :| 0 <= k < |raw| && raw[k].player == p;
        if k < |init| {
          assert init[k].player == p;
        }
      }
    }
  }

  /** A player who has not played has a count of zero. */
  lemma {:induction false} CountOfAbsent(raw: seq<Entry>, p: Address)
    requires p !in Players(raw)
    ensures CountOf(raw, p) == 0
  {
    if raw != [] {
      CountOfAbsent(raw[..|raw| - 1], p);
    }
  }

  /** `Players` lists no player twice. */
  lemma {:induction false} PlayersDistinct(raw: seq<Entry>)
    ensures forall i, j :: 0 <= i < j < |Players(raw)| ==> Players(raw)[i] != Players(raw)[j]
  {
    if raw != [] {
      PlayersDistinct(raw[..|raw| - 1]);
    }
  }

  /**
   * The line the leaderboard shows for `p`: the earliest record with `p`'s
   * best score (all of its fields), with `playCount` set to the number of
   * records of `p`.
   */
  function Summary(raw: seq<Entry>, p: Address): Entry
    requires p in Players(raw)
  {
    var best := MaxScore(raw, p);
    var w := FirstWith(raw, p, best);
    raw[w].(playCount := CountOf(raw, p))
  }

  /**
   * The summary is the earliest record reaching the player's best score,
   * with the player's number of records as its play count.
   */
  lemma SummaryIsFirstBest(raw: seq<Entry>, p: Address)
    requires p in Players(raw)
    ensures Summary(raw, p).player == p
    ensures Summary(raw, p).playCount == CountOf(raw, p)
    ensures forall k :: 0 <= k < |raw| && raw[k].player == p ==> raw[k].score <= Summary(raw, p).score
    ensures exists w ::
              && 0 <= w < |raw| && raw[w].player == p
              && Summary(raw, p) == raw[w].(playCount := CountOf(raw, p))
              && forall j :: 0 <= j < w && raw[j].player == p ==> raw[j].score < raw[w].score
  {
    var w := FirstWith(raw, p, MaxScore(raw, p));
    assert forall j :: 0 <= j < w && raw[j].player == p ==> raw[j].score < raw[w].score;
  }

  /**
   * The source's update rule holds of the reference definition: appending a
   * record `e` leaves other players' lines alone, starts a new player at
   * `e` with a count of 1, replaces the line by `e` on a strictly higher
   * score, and otherwise only increments the count.
   */
  lemma SummaryStep(s: seq<Entry>, e: Entry, q: Address)
    requires q in Players(s + [e])
    ensures q != e.player ==> q in Players(s)
    ensures Summary(s + [e], q) ==
      if q != e.player then Summary(s, q)
      else if q !in Players(s) then e.(playCount := 1)
      else if Summary(s, q).score < e.score then e.(playCount := Summary(s, q).playCount + 1)
      else Summary(s, q).(playCount := Summary(s, q).playCount + 1)
  {
    var t := s + [e];
    assert t[..|t| - 1] == s;
    if q != e.player {
      var m := MaxScore(s, q);
      assert MaxScore(t, q) == m;
      assert FirstWith(s, q, m) < |s|;
      assert FirstWith(t, q, m) == FirstWith(s, q, m);
    } else if q !in Players(s) {
      CountOfAbsent(s, q);
      PlayersOccur(s, q);
      assert FirstWith(s, q, e.score) == |s|;
    } else {
      var m := MaxScore(s, q);
      assert FirstWith(s, q, m) < |s|;
      if m < e.score {
        assert FirstWith(s, q, e.score) == |s|;
      }
    }
  }

  /** `SummaryStep`, read from the last record of `raw`. */
  lemma SummaryLast(raw: seq<Entry>, q: Address)
    requires raw != [] && q in Players(raw)
    ensures var s, e := raw[..|raw| - 1], raw[|raw| - 1];
      && (q != e.player ==> q in Players(s))
      && Summary(raw, q) ==
           if q != e.player then Summary(s, q)
           else if q !in Players(s) then e.(playCount := 1)
           else if Summary(s, q).score < e.score then e.(playCount := Summary(s, q).playCount + 1)
           else Summary(s, q).(playCount := Summary(s, q).playCount + 1)
  {
    var s, e := raw[..|raw| - 1], raw[|raw| - 1];
    assert raw == s + [e];
    SummaryStep(s, e, q);
  }

  /**
   * The state of the source's `Map` after reading `s`: its keys, in
   * insertion order, are the players of `s` by first appearance, and each
   * key holds that player's line.
   */
  ghost predicate HoldsLines(s: seq<Entry>, order: seq<Address>, lines: map<Address, Entry>) {
    && order == Players(s)
    && (forall q :: q in lines <==> q in order)
    && (forall q :: q in lines ==> lines[q] == Summary(s, q))
  }

  /** `Players` and `CountOf` after one more record. */
  lemma AppendOne(s: seq<Entry>, e: Entry, p: Address)
    ensures CountOf(s + [e], p) == CountOf(s, p) + (if e.player == p then 1 else 0)
    ensures Players(s + [e]) == if e.player in Players(s) then Players(s) else Players(s) + [e.player]
  {
    assert (s + [e])[..|s|] == s;
  }

  /** The source's update rule gives player `q` the summary of `s + [e]`. */
  lemma StepKeepsSummary(s: seq<Entry>, e: Entry, lines: map<Address, Entry>, line: Entry, q: Address)
    requires forall r :: r in lines <==> r in Players(s)
    requires e.player in lines ==> lines[e.player] == Summary(s, e.player)
    requires q != e.player && q in lines ==> lines[q] == Summary(s, q)
    requires line ==
      if e.player !in lines then e.(playCount := 1)
      else if lines[e.player].score < e.score then e.(playCount := lines[e.player].playCount + 1)
      else lines[e.player].(playCount := lines[e.player].playCount + 1)
    requires q in lines || q == e.player
    ensures q in Players(s + [e])
    ensures (if q == e.player then line else lines[q]) == Summary(s + [e], q)
  {
    AppendOne(s, e, q);
    SummaryStep(s, e, q);
  }

  /**
   * One pass of the source's loop body, reading record `e`, turns the `Map`
   * for `s` into the `Map` for `s + [e]`.
   */
  lemma StepKeepsLines(s: seq<Entry>, e: Entry, order: seq<Address>, lines: map<Address, Entry>, line: Entry)
    requires HoldsLines(s, order, lines)
    requires line ==
      if e.player !in lines then e.(playCount := 1)
      else if lines[e.player].score < e.score then e.(playCount := lines[e.player].playCount + 1)
      else lines[e.player].(playCount := lines[e.player].playCount + 1)
    ensures HoldsLines(s + [e], if e.player in lines then order else order + [e.player], lines[e.player := line])
  {
    AppendOne(s, e, e.player);
    var after := lines[e.player := line];
    forall q | q in after
      ensures after[q] == Summary(s + [e], q)
    {
      StepKeepsSummary(s, e, lines, line, q);
    }
  }

  /** Every player's line, in order of first appearance. */
  function Aggregated(raw: seq<Entry>): (lines: seq<Entry>)
    ensures |lines| == |Players(raw)|
    ensures forall k :: 0 <= k < |lines| ==> lines[k] == Summary(raw, Players(raw)[k])
  {
    var ps := Players(raw);
    seq(|ps|, k requires 0 <= k < |ps| => Summary(raw, ps[k]))
  }

  /** The leaderboard the source is meant to display for `raw`. */
  function Ranked(raw: seq<Entry>): seq<Entry> {
    SortByScore(Aggregated(raw))
  }

  /** `Array.from(map.values())`: the values of a `Map`, in key insertion order. */
  function MapValues(order: seq<Address>, lines: map<Address, Entry>): (values: seq<Entry>)
    requires forall q :: q in order ==> q in lines
    ensures |values| == |order|
  {
    seq(|order|, k requires 0 <= k < |order| => lines[order[k]])
  }

  /** Reading a Map that holds every player's line in first-appearance order gives `Aggregated`. */
  lemma MapValuesAreAggregated(raw: seq<Entry>, order: seq<Address>, lines: map<Address, Entry>)
    requires HoldsLines(raw, order, lines)
    ensures forall q :: q in order ==> q in lines
    ensures MapValues(order, lines) == Aggregated(raw)
  {
  }

  /**
   * The `forEach` callback: inserts a player's first record with a count of
   * 1, replaces the stored line by a record with a strictly higher score, and
   * otherwise only increments the count. `seen` is the records read so far.
   */
  method AddEntry(ghost seen: seq<Entry>, order: seq<Address>, playerMap: map<Address, Entry>, entry: Entry)
    returns (order': seq<Address>, playerMap': map<Address, Entry>)
    requires HoldsLines(seen, order, playerMap)
    ensures HoldsLines(seen + [entry], order', playerMap')
  {
    var player := entry.player;
    var isNew := player !in playerMap;
    var line;
    if isNew || playerMap[player].score < entry.score {
      line := entry.(playCount := if isNew then 1 else playerMap[player].playCount + 1);
    } else {
      var existing := playerMap[player];
      line := existing.(playCount := existing.playCount + 1);
    }
    StepKeepsLines(seen, entry, order, playerMap, line);
    playerMap' := playerMap[player := line];
    // Setting a key the Map does not hold appends it to the insertion order.
    order' := if isNew then order + [player] else order;
  }

  lemma PrefixGrows(raw: seq<Entry>, i: nat)
    requires i < |raw|
    ensures raw[..i + 1] == raw[..i] + [raw[i]]
  {
  }

  /** processLeaderboard, as the source runs it. */
  method ProcessLeaderboard(raw: seq<Entry>) returns (board: seq<Entry>)
    ensures board == Ranked(raw)
  {
    // The Map: its keys in insertion order, and its key-value pairs.
    var order: seq<Address> := [];
    var playerMap: map<Address, Entry> := map[];
    for i := 0 to |raw|
      invariant HoldsLines(raw[..i], order, playerMap)
    {
      order, playerMap := AddEntry(raw[..i], order, playerMap, raw[i]);
      PrefixGrows(raw, i);
    }
    assert raw[..|raw|] == raw;
    MapValuesAreAggregated(raw, order, playerMap);
    board := SortByScore(MapValues(order, playerMap));
  }
}

/** What the ranked leaderboard promises about the raw records it came from. */
module LeaderboardProperties {
  import opened Scores
  import opened Leaderboard

  /** No submissions, no leaderboard lines. */
  lemma RankedEmpty()
    ensures Ranked([]) == []
  {
  }

  /** Each line of the leaderboard is the `Summary` of its own player. */
  lemma RankedLinesAreSummaries(raw: seq<Entry>)
    ensures forall k :: 0 <= k < |Ranked(raw)| ==>
              Ranked(raw)[k].player in Players(raw) && Ranked(raw)[k] == Summary(raw, Ranked(raw)[k].player)
  {
    var lines, r := Aggregated(raw), Ranked(raw);
    forall k | 0 <= k < |r|
      ensures r[k].player in Players(raw) && r[k] == Summary(raw, r[k].player)
    {
      assert r[k] in multiset(lines);
      var j :| 0 <= j < |lines| && lines[j] == r[k];
      SummaryIsFirstBest(raw, Players(raw)[j]);
    }
  }

  /** A player has a line exactly when `Players` lists them. */
  lemma RankedShowsPlayer(raw: seq<Entry>, p: Address)
    ensures (exists k :: 0 <= k < |Ranked(raw)| && Ranked(raw)[k].player == p) <==> p in Players(raw)
  {
    var lines, r := Aggregated(raw), Ranked(raw);
    var ps := Players(raw);
    if p in ps {
      var j :| 0 <= j < |ps| && ps[j] == p;
      SummaryIsFirstBest(raw, p);
      assert lines[j] in multiset(r);
      var k :| 0 <= k < |r| && r[k] == lines[j];
      assert r[k].player == p;
    }
    RankedLinesAreSummaries(raw);
  }

  /**
   * The players on the leaderboard are exactly the players of the raw
   * records, and there are never more lines than raw records.
   */
  lemma RankedPlayers(raw: seq<Entry>)
    ensures |Ranked(raw)| <= |raw|
    ensures (set k | 0 <= k < |Ranked(raw)| :: Ranked(raw)[k].player) == (set k | 0 <= k < |raw| :: raw[k].player)
  {
    var r := Ranked(raw);
    var shown := set k | 0 <= k < |r| :: r[k].player;
    var played := set k | 0 <= k < |raw| :: raw[k].player;
    forall p
      ensures p in shown <==> p in played
    {
      RankedShowsPlayer(raw, p);
      PlayersOccur(raw, p);
    }
  }

  /** No player has two lines. */
  lemma RankedDistinctPlayers(raw: seq<Entry>)
    ensures forall i, j :: 0 <= i < j < |Ranked(raw)| ==> Ranked(raw)[i].player != Ranked(raw)[j].player
  {
    var lines, r := Aggregated(raw), Ranked(raw);
    var ps := Players(raw);
    PlayersDistinct(raw);
    forall i, j | 0 <= i < j < |lines|
      ensures lines[i] != lines[j]
    {
      SummaryIsFirstBest(raw, ps[i]);
      SummaryIsFirstBest(raw, ps[j]);
    }
    PermutationKeepsDistinct(lines, r);
    RankedLinesAreSummaries(raw);
  }

  /** Highest score first. */
  lemma RankedIsSorted(raw: seq<Entry>)
    ensures forall i, j :: 0 <= i < j < |Ranked(raw)| ==> Ranked(raw)[i].score >= Ranked(raw)[j].score
  {
  }

  /**
   * `Players` lists players by first appearance: every record of a player
   * listed later is preceded by a record of each player listed earlier.
   */
  lemma {:induction false} PlayersByFirstAppearance(raw: seq<Entry>, i: nat, j: nat, k: nat)
    requires i < j < |Players(raw)|
    requires k < |raw| && raw[k].player == Players(raw)[j]
    ensures exists k' :: 0 <= k' < k && raw[k'].player == Players(raw)[i]
  {
    var s, e := raw[..|raw| - 1], raw[|raw| - 1];
    var ps := Players(s);
    if k < |s| {
      assert s[k].player == Players(raw)[j];
      PlayersOccur(s, Players(raw)[j]);
      PlayersByFirstAppearance(s, i, j, k);
      var k' :| 0 <= k' < k && s[k'].player == ps[i];
      assert raw[k'].player == ps[i];
    } else {
      assert Players(raw)[i] == ps[i];
      PlayersOccur(s, ps[i]);
      var k' :| 0 <= k' < |s| && s[k'].player == ps[i];
      assert raw[k'].player == ps[i];
    }
  }

  /**
   * Ties keep first-appearance order: for every score, the lines with that
   * score appear as they do in `Aggregated`, which lists players by first
   * appearance.
   */
  lemma RankedTies(raw: seq<Entry>, v: int)
    ensures WithScore(Ranked(raw), v) == WithScore(Aggregated(raw), v)
  {
    SortIsStable(Aggregated(raw), v);
  }

  /** Two raw sequences that differ at most in their records' `playCount` fields. */
  predicate SameButPlayCount(a: seq<Entry>, b: seq<Entry>) {
    && |a| == |b|
    && forall k :: 0 <= k < |a| ==>
         a[k].player == b[k].player && a[k].score == b[k].score && a[k].timestamp == b[k].timestamp
  }

  lemma {:induction false} SamePlayers(a: seq<Entry>, b: seq<Entry>)
    requires SameButPlayCount(a, b)
    ensures Players(a) == Players(b)
  {
    if a != [] {
      var a0, b0 := a[..|a| - 1], b[..|b| - 1];
      assert SameButPlayCount(a0, b0);
      SamePlayers(a0, b0);
      assert a[|a| - 1].player == b[|b| - 1].player;
    }
  }

  lemma {:induction false} SameSummary(a: seq<Entry>, b: seq<Entry>, q: Address)
    requires SameButPlayCount(a, b)
    requires q in Players(a)
    ensures q in Players(b) && Summary(a, q) == Summary(b, q)
  {
    SamePlayers(a, b);
    var a0, b0 := a[..|a| - 1], b[..|b| - 1];
    var ea, eb := a[|a| - 1], b[|b| - 1];
    assert SameButPlayCount(a0, b0);
    SamePlayers(a0, b0);
    SummaryLast(a, q);
    SummaryLast(b, q);
    if q != ea.player || q in Players(a0) {
      SameSummary(a0, b0, q);
    }
  }

  /**
   * The `playCount` a raw record carries in is ignored: it is overwritten,
   * so the leaderboard depends only on players, scores and timestamps.
   */
  lemma RankedIgnoresPlayCount(a: seq<Entry>, b: seq<Entry>)
    requires SameButPlayCount(a, b)
    ensures Ranked(a) == Ranked(b)
  {
    SamePlayers(a, b);
    forall q | q in Players(a)
      ensures Summary(a, q) == Summary(b, q)
    {
      SameSummary(a, b, q);
    }
    assert Aggregated(a) == Aggregated(b);
  }

  /** The number of records of the players `ps`, summed. */
  function CountsOf(raw: seq<Entry>, ps: seq<Address>): int {
    if ps == [] then 0 else CountsOf(raw, ps[..|ps| - 1]) + CountOf(raw, ps[|ps| - 1])
  }

  lemma {:induction false} CountsOfAppend(s: seq<Entry>, e: Entry, ps: seq<Address>)
    requires forall i, j :: 0 <= i < j < |ps| ==> ps[i] != ps[j]
    ensures CountsOf(s + [e], ps) == CountsOf(s, ps) + (if e.player in ps then 1 else 0)
  {
    if ps != [] {
      var init, last := ps[..|ps| - 1], ps[|ps| - 1];
      CountsOfAppend(s, e, init);
      assert (s + [e])[..|s|] == s;
      assert e.player in ps <==> e.player in init || e.player == last;
      assert e.player == last ==> e.player !in init;
    }
  }

  lemma {:induction false} CountsOfPlayers(raw: seq<Entry>)
    ensures CountsOf(raw, Players(raw)) == |raw|
  {
    if raw != [] {
      var s, e := raw[..|raw| - 1], raw[|raw| - 1];
      assert raw == s + [e];
      var ps := Players(s);
      CountsOfPlayers(s);
      PlayersDistinct(s);
      CountsOfAppend(s, e, ps);
      if e.player !in ps {
        var ps' := ps + [e.player];
        assert ps'[..|ps'| - 1] == ps;
        CountOfAbsent(s, e.player);
        assert (s + [e])[..|s|] == s;
      }
    }
  }

  /** Lines whose play counts are the players' record counts add up to `CountsOf`. */
  lemma {:induction false} PlaysMatchCounts(lines: seq<Entry>, raw: seq<Entry>, ps: seq<Address>)
    requires |lines| == |ps|
    requires forall k :: 0 <= k < |ps| ==> lines[k].playCount == CountOf(raw, ps[k])
    ensures TotalPlays(lines) == CountsOf(raw, ps)
  {
    if ps != [] {
      PlaysMatchCounts(lines[..|lines| - 1], raw, ps[..|ps| - 1]);
    }
  }

  /**
   * Every raw record is counted once: the play counts on the leaderboard
   * add up to the number of raw records.
   */
  lemma RankedCountsEveryRecord(raw: seq<Entry>)
    ensures TotalPlays(Ranked(raw)) == |raw|
  {
    var lines, ps := Aggregated(raw), Players(raw);
    forall k | 0 <= k < |ps|
      ensures lines[k].playCount == CountOf(raw, ps[k])
    {
      assert lines[k] == Summary(raw, ps[k]);
    }
    PlaysMatchCounts(lines, raw, ps);
    CountsOfPlayers(raw);
    SortKeepsTotalPlays(lines);
  }

  /**
   * One player with scores 10, 30 and 20, in that order: one line with
   * score 30, the timestamp of the record that scored 30, and 3 plays.
   */
  lemma ExampleBestOfThree(a: Address, t1: int, t2: int, t3: int)
    ensures Ranked([Entry(a, 10, t1, 1), Entry(a, 30, t2, 1), Entry(a, 20, t3, 1)]) == [Entry(a, 30, t2, 3)]
  {
    var e1, e2, e3 := Entry(a, 10, t1, 1), Entry(a, 30, t2, 1), Entry(a, 20, t3, 1);
    var raw := [e1, e2, e3];
    AppendOne([], e1, a);
    AppendOne([e1], e2, a);
    AppendOne([e1, e2], e3, a);
    assert [] + [e1] == [e1] && [e1] + [e2] == [e1, e2] && [e1, e2] + [e3] == raw;
    assert Players(raw) == [a] && CountOf(raw, a) == 3;
    assert MaxScore(raw, a) == 30;
    assert FirstWith(raw, a, 30) == 1;
    var line := Summary(raw, a);
    assert line == Entry(a, 30, t2, 3);
    assert Aggregated(raw) == [line];
  }

  /** Two players with one record each: one line each, in order of appearance. */
  lemma TwoPlayersAggregated(ea: Entry, eb: Entry)
    requires ea.player != eb.player && ea.playCount == 1 && eb.playCount == 1
    ensures Aggregated([ea, eb]) == [ea, eb]
  {
    var a, b := ea.player, eb.player;
    AppendOne([], ea, a);
    AppendOne([ea], eb, b);
    assert [] + [ea] == [ea] && [ea] + [eb] == [ea, eb];
    assert Players([ea, eb]) == [a, b];
    SummaryStep([], ea, a);
    SummaryStep([ea], eb, a);
    SummaryStep([ea], eb, b);
    var lines := Aggregated([ea, eb]);
    assert |lines| == 2;
    assert lines[0] == Summary([ea, eb], a) == ea;
    assert lines[1] == Summary([ea, eb], b) == eb;
    assert lines == [lines[0], lines[1]];
  }

  /** Sorting two records with different scores puts the higher one first. */
  lemma SortTwo(x: Entry, y: Entry)
    requires x.score < y.score
    ensures SortByScore([x, y]) == [y, x]
  {
    assert [x, y][1..] == [y] && [y][1..] == [];
    assert SortByScore([y]) == [y];
  }

  /** A player with best score 80 is listed above one with best score 50. */
  lemma ExampleHigherScoreFirst(a: Address, b: Address, ta: int, tb: int)
    requires a != b
    ensures Ranked([Entry(a, 50, ta, 1), Entry(b, 80, tb, 1)]) == [Entry(b, 80, tb, 1), Entry(a, 50, ta, 1)]
  {
    var ea, eb := Entry(a, 50, ta, 1), Entry(b, 80, tb, 1);
    TwoPlayersAggregated(ea, eb);
    SortTwo(ea, eb);
  }
}
