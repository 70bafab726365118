/**
 * The results page of `src/Results.tsx`: integer points per player, the
 * maximum, the ranking and the per-round table cells.
 */
module Results {
  import opened Wrappers
  import Registry
  import Ledger

  type Id = Registry.Id

  /** `scores.find(score => score.playerIds.includes(pid))`: the first group holding `pid`. */
  function FindScore(scores: seq<Ledger.Score>, pid: Id): (r: Option<Ledger.Score>)
    ensures r.None? <==> forall s :: s in scores ==> pid !in s.playerIds
    ensures r.Some? ==> r.value in scores && pid in r.value.playerIds
    ensures r.Some? ==>
      (exists k :: 0 <= k < |scores| && scores[k] == r.value &&
         forall j :: 0 <= j < k ==> pid !in scores[j].playerIds)
  {
    if scores == [] then None
    else if pid in scores[0].playerIds then Some(scores[0])
    else
      var r := FindScore(scores[1..], pid);
      assert r.Some? ==> r.value in scores by {
        if r.Some? { assert r.value in scores[1..]; }
      }
      assert forall s :: s in scores ==> s == scores[0] || s in scores[1..];
      if r.Some? then
        var k :| 0 <= k < |scores[1..]| && scores[1..][k] == r.value &&
          (forall j :: 0 <= j < k ==> pid !in scores[1..][j].playerIds);
        assert scores[k + 1] == r.value;
        assert forall j :: 1 <= j < k + 1 ==> scores[j] == scores[1..][j - 1];
        r
      else r
  }

  /**
   * The table cell of a player in a round: the size of the first group that
   * holds the player, or 0 when no group does.
   */
  function Cell(round: Ledger.Round, pid: Id): (c: nat)
    ensures c == 0 <==> forall s :: s in round.scores ==> pid !in s.playerIds
    ensures c > 0 ==>
      exists k :: 0 <= k < |round.scores| && pid in round.scores[k].playerIds &&
        c == |round.scores[k].playerIds| &&
        forall j :: 0 <= j < k ==> pid !in round.scores[j].playerIds
  {
    match FindScore(round.scores, pid)
    case None => 0
    case Some(score) => |score.playerIds|
  }

  /**
   * A player grouped twice in a round (which `createScore` allows) is shown
   * with the size of the first group, not the second.
   */
  lemma CellTakesFirstGroup()
    ensures Cell(Ledger.Round(1, [Ledger.Score("s1", ["p", "a"]), Ledger.Score("s2", ["p", "b", "c"])]), "p") == 2
  {
    var scores := [Ledger.Score("s1", ["p", "a"]), Ledger.Score("s2", ["p", "b", "c"])];
    assert "p" in scores[0].playerIds;
  }

  /** A player's points over `rounds`: the sum of the player's cells. */
  function PointsOf(rounds: seq<Ledger.Round>, pid: Id): nat {
    if rounds == [] then 0
    else PointsOf(rounds[..|rounds| - 1], pid) + Cell(rounds[|rounds| - 1], pid)
  }

  /** Points add up round by round across any split of the rounds. */
  lemma {:induction false} PointsOfConcat(a: seq<Ledger.Round>, b: seq<Ledger.Round>, pid: Id)
    ensures PointsOf(a + b, pid) == PointsOf(a, pid) + PointsOf(b, pid)
  {
    if b == [] {
      assert a + b == a;
    } else {
      assert (a + b)[..|a + b| - 1] == a + b[..|b| - 1];
      PointsOfConcat(a, b[..|b| - 1], pid);
    }
  }

  /** A player who is in no group of any round has no points. */
  lemma {:induction false} PointsOfNeverGrouped(rounds: seq<Ledger.Round>, pid: Id)
    requires forall r, s :: r in rounds && s in r.scores ==> pid !in s.playerIds
    ensures PointsOf(rounds, pid) == 0
  {
    if rounds != [] {
      assert forall r :: r in rounds[..|rounds| - 1] ==> r in rounds;
      PointsOfNeverGrouped(rounds[..|rounds| - 1], pid);
    }
  }

  /** The `for (const round of game.rounds)` loop that adds up a player's points. */
  method Points(player: Registry.Player, rounds: seq<Ledger.Round>) returns (points: int)
    ensures points == PointsOf(rounds, player.id)
  {
    points := 0;
    var i := 0;
    while i < |rounds|
      invariant 0 <= i <= |rounds|
      invariant points == PointsOf(rounds[..i], player.id)
    {
      var score := FindScore(rounds[i].scores, player.id);
      points := points + (if score.Some? then |score.value.playerIds| else 0);
      assert rounds[..i + 1][..i] == rounds[..i];
      i := i + 1;
    }
    assert rounds[..i] == rounds;
  }

  /** `points.reduce((max, p) => Math.max(max, p), 0)`. */
  function MaxPoints(points: seq<int>): (m: int)
    ensures m >= 0
    ensures forall i :: 0 <= i < |points| ==> points[i] <= m
    ensures m == 0 || m in points
    ensures points == [] ==> m == 0
  {
    if points == [] then 0
    else
      var m := MaxPoints(points[..|points| - 1]);
      assert forall i :: 0 <= i < |points| - 1 ==> points[i] == points[..|points| - 1][i];
      assert m in points[..|points| - 1] ==> m in points;
      if m >= points[|points| - 1] then m else points[|points| - 1]
  }

  /** The star rating `(points / max) * 4 + 1`, over the reals. */
  function Stars(points: int, max: int): (r: real)
    requires max > 0
    ensures 0 <= points <= max ==> 1.0 <= r <= 5.0
    ensures points == 0 ==> r == 1.0
    ensures points == max ==> r == 5.0
  {
    var q := points as real / max as real;
    assert 0 <= points <= max ==> 0.0 <= q <= 1.0 by {
      if 0 <= points <= max {
        assert q * (max as real) == points as real;
      }
    }
    q * 4.0 + 1.0
  }

  /** With a positive maximum, stars order players exactly as points do. */
  lemma StarsOrderMatchesPoints(a: int, b: int, max: int)
    requires max > 0
    ensures Stars(a, max) < Stars(b, max) <==> a < b
    ensures Stars(a, max) == Stars(b, max) <==> a == b
  {
    var m := max as real;
    assert m > 0.0;
    if a < b {
      assert (a as real) / m < (b as real) / m;
    } else if b < a {
      assert (b as real) / m < (a as real) / m;
    }
  }

  /** One entry of the ranking: a player and the player's points. */
  datatype PlayerStat = PlayerStat(player: Registry.Player, points: int)

  /** Non-increasing points from first to last entry. */
  predicate RankedByPoints(stats: seq<PlayerStat>) {
    forall i, j :: 0 <= i < j < |stats| ==> stats[i].points >= stats[j].points
  }

  /** Every entry has the same points. */
  predicate AllPointsEqual(stats: seq<PlayerStat>) {
    forall i, j :: 0 <= i < |stats| && 0 <= j < |stats| ==> stats[i].points == stats[j].points
  }

  /** The entries before sorting: one per player, in registry order. */
  function Unranked(players: seq<Registry.Player>, rounds: seq<Ledger.Round>): (stats: seq<PlayerStat>)
    ensures |stats| == |players|
    ensures forall i :: 0 <= i < |players| ==>
      stats[i].player == players[i] && stats[i].points == PointsOf(rounds, players[i].id)
  {
    seq(|players|, i requires 0 <= i < |players| =>
      PlayerStat(players[i], PointsOf(rounds, players[i].id)))
  }

  /** Exchanges the entries at `j - 1` and `j`. */
  method SwapDown(a: array<PlayerStat>, j: int)
    requires 0 < j < a.Length
    modifies a
    ensures a[..] == old(a[..])[j - 1 := old(a[j])][j := old(a[j - 1])]
    ensures multiset(a[..]) == old(multiset(a[..]))
  {
    a[j - 1], a[j] := a[j], a[j - 1];
  }

  /**
   * One pass of the sort: moves `a[i]` left past every entry with fewer points,
   * so that `a[..i + 1]` is ranked when `a[..i]` was.
   */
  method InsertDown(a: array<PlayerStat>, i: int)
    requires 0 <= i < a.Length
    requires forall x, y :: 0 <= x < y < i ==> a[x].points >= a[y].points
    modifies a
    ensures forall x, y :: 0 <= x < y <= i ==> a[x].points >= a[y].points
    ensures multiset(a[..]) == old(multiset(a[..]))
    ensures AllPointsEqual(old(a[..])) ==> a[..] == old(a[..])
  {
    var j := i;
    while j > 0 && a[j - 1].points < a[j].points
      invariant 0 <= j <= i
      invariant forall x, y :: 0 <= x < y <= i && x != j && y != j ==> a[x].points >= a[y].points
      invariant forall y :: j < y <= i ==> a[j].points > a[y].points
      invariant multiset(a[..]) == old(multiset(a[..]))
      invariant AllPointsEqual(old(a[..])) ==> j == i && a[..] == old(a[..])
    {
      SwapDown(a, j);
      j := j - 1;
    }
  }

  /**
   * `playerStats.sort((a, b) => b.stars - a.stars)`, in place, keyed by points
   * (the same order, by StarsOrderMatchesPoints). When every entry has the same
   * points nothing moves, as with the NaN comparisons the source makes when the
   * maximum is 0.
   */
  method SortByPoints(a: array<PlayerStat>)
    modifies a
    ensures RankedByPoints(a[..])
    ensures multiset(a[..]) == old(multiset(a[..]))
    ensures AllPointsEqual(old(a[..])) ==> a[..] == old(a[..])
  {
    var i := 0;
    while i < a.Length
      invariant 0 <= i <= a.Length
      invariant forall x, y :: 0 <= x < y < i ==> a[x].points >= a[y].points
      invariant multiset(a[..]) == old(multiset(a[..]))
      invariant AllPointsEqual(old(a[..])) ==> a[..] == old(a[..])
    {
      InsertDown(a, i);
      i := i + 1;
    }
  }

  /** `playerStats`: one entry per player, ranked by points, a permutation of the unranked entries. */
  method PlayerStats(players: seq<Registry.Player>, rounds: seq<Ledger.Round>)
    returns (stats: seq<PlayerStat>)
    ensures |stats| == |players|
    ensures multiset(stats) == multiset(Unranked(players, rounds))
    ensures RankedByPoints(stats)
  {
    ghost var unranked := Unranked(players, rounds);
    var a := new PlayerStat[|players|](i requires 0 <= i < |players| => PlayerStat(players[i], 0));
    var k := 0;
    while k < |players|
      invariant 0 <= k <= |players|
      invariant forall i :: 0 <= i < k ==> a[i] == unranked[i]
    {
      var points := Points(players[k], rounds);
      a[k] := PlayerStat(players[k], points);
      k := k + 1;
    }
    assert a[..] == unranked;
    SortByPoints(a);
    stats := a[..];
  }
}
