/**
 * The grouped-score ledger of `src/useGame.tsx`. A game holds players and
 * rounds; a round holds scores, each a group of player ids worth its size.
 * Every callback of the provider hands `setGame` an updater
 * `(currentGame) => newGame`; those updaters are the functions below. Ids the
 * application draws from `crypto.randomUUID()` are parameters.
 */
module Ledger {
  import Seqs
  import Registry

  type Id = Registry.Id
  type Player = Registry.Player

  /** A group of players tied in one round; it is worth `|playerIds|` points. */
  datatype Score = Score(id: Id, playerIds: seq<Id>)

  datatype Round = Round(number: int, scores: seq<Score>)

  datatype Game = Game(id: Id, players: seq<Player>, rounds: seq<Round>)

  /** `defaultGame()`: no players and no rounds. */
  function DefaultGame(freshId: Id): (g: Game)
    ensures g.players == [] && g.rounds == [] && g.id == freshId
  {
    Game(freshId, [], [])
  }

  // ---------------------------------------------------------------------
  // Player operations: they change `players` and nothing else.

  /** `addPlayer()`: appends a player with an empty name. */
  function AddPlayer(g: Game, freshId: Id): (r: Game)
    ensures r.id == g.id && r.rounds == g.rounds
    ensures |r.players| == |g.players| + 1 && g.players <= r.players
    ensures r.players[|g.players|] == Registry.Player(freshId, "")
  {
    g.(players := Registry.AddPlayer(g.players, freshId))
  }

  /** `removePlayer(id)`: drops exactly the players with that id. */
  function RemovePlayer(g: Game, id: Id): (r: Game)
    ensures r.id == g.id && r.rounds == g.rounds
    ensures forall p :: p in r.players <==> p in g.players && p.id != id
  {
    g.(players := Registry.RemovePlayer(g.players, id))
  }

  /** `updatePlayer(id, name)`: renames only the players with that id. */
  function UpdatePlayer(g: Game, id: Id, name: string): (r: Game)
    ensures r.id == g.id && r.rounds == g.rounds
    ensures |r.players| == |g.players|
    ensures forall i :: 0 <= i < |g.players| ==>
      r.players[i].id == g.players[i].id &&
      r.players[i].name == (if g.players[i].id == id then name else g.players[i].name)
  {
    g.(players := Registry.UpdatePlayer(g.players, id, name))
  }

  // ---------------------------------------------------------------------
  // Score operations: they change the rounds numbered `n` and nothing else.

  /** No round carries the number `n`. */
  predicate NoRoundNumbered(g: Game, n: int) {
    forall i :: 0 <= i < |g.rounds| ==> g.rounds[i].number != n
  }

  /** `rounds.map(round => round.number === n ? f(round) : round)`. */
  function MapRounds(rounds: seq<Round>, n: int, f: Round -> Round): (r: seq<Round>)
    ensures |r| == |rounds|
    ensures forall i :: 0 <= i < |r| ==>
      r[i] == if rounds[i].number == n then f(rounds[i]) else rounds[i]
  {
    seq(|rounds|, i requires 0 <= i < |rounds| =>
      if rounds[i].number == n then f(rounds[i]) else rounds[i])
  }

  /** `ids.filter(id => id !== pid)`. */
  function Without(ids: seq<Id>, pid: Id): (r: seq<Id>)
    ensures forall x :: x in r <==> x in ids && x != pid
    ensures pid !in ids ==> r == ids
  {
    Seqs.Filter(ids, (x: Id) => x != pid)
  }

  /** `Without` keeps every other member in its place in the order. */
  lemma WithoutKeepsOrder(a: seq<Id>, b: seq<Id>, pid: Id)
    ensures Without(a + b, pid) == Without(a, pid) + Without(b, pid)
  {
    Seqs.FilterConcat(a, b, (x: Id) => x != pid);
  }

  /** The callback `addToScore` maps over the scores of the round. */
  function AddToGroup(score: Score, scoreId: Id, pid: Id): (r: Score)
    ensures r.id == score.id
    ensures score.id == scoreId ==>
      (forall x :: x in r.playerIds <==> x in score.playerIds || x == pid) &&
      score.playerIds <= r.playerIds
    ensures score.id != scoreId ==>
      forall x :: x in r.playerIds <==> x in score.playerIds && x != pid
  {
    var hasPlayer := pid in score.playerIds;
    if score.id == scoreId then
      if !hasPlayer then score.(playerIds := score.playerIds + [pid]) else score
    else
      if hasPlayer then score.(playerIds := Without(score.playerIds, pid)) else score
  }

  /** What `addToScore` does to one round whose number matches. */
  function AddToRound(round: Round, scoreId: Id, pid: Id): (r: Round)
    ensures r.number == round.number && |r.scores| == |round.scores|
    ensures forall k :: 0 <= k < |r.scores| ==> r.scores[k].id == round.scores[k].id
    // the target group gains the player, once
    ensures forall k :: 0 <= k < |r.scores| && round.scores[k].id == scoreId ==>
      pid in r.scores[k].playerIds &&
      (pid in round.scores[k].playerIds ==> r.scores[k] == round.scores[k]) &&
      (pid !in round.scores[k].playerIds ==>
        r.scores[k].playerIds == round.scores[k].playerIds + [pid])
    // every other group loses it and keeps the rest
    ensures forall k :: 0 <= k < |r.scores| && round.scores[k].id != scoreId ==>
      r.scores[k].playerIds == Without(round.scores[k].playerIds, pid)
    ensures forall k :: 0 <= k < |r.scores| && pid in r.scores[k].playerIds ==>
      r.scores[k].id == scoreId
  {
    round.(scores := seq(|round.scores|, k requires 0 <= k < |round.scores| =>
      AddToGroup(round.scores[k], scoreId, pid)))
  }

  /** `addToScore(n, scoreId, player)`. */
  function AddToScore(g: Game, n: int, scoreId: Id, player: Player): (r: Game)
    ensures r.id == g.id && r.players == g.players && |r.rounds| == |g.rounds|
    ensures forall i :: 0 <= i < |g.rounds| && g.rounds[i].number != n ==>
      r.rounds[i] == g.rounds[i]
    ensures forall i :: 0 <= i < |g.rounds| && g.rounds[i].number == n ==>
      r.rounds[i] == AddToRound(g.rounds[i], scoreId, player.id)
    ensures NoRoundNumbered(g, n) ==> r == g
  {
    g.(rounds := MapRounds(g.rounds, n, (round: Round) => AddToRound(round, scoreId, player.id)))
  }

  /** Every group of the round lists each member once. */
  predicate GroupsDuplicateFree(round: Round) {
    forall k :: 0 <= k < |round.scores| ==> Seqs.Distinct(round.scores[k].playerIds)
  }

  /** `addToScore` adds no duplicate member to any group. */
  lemma AddToRoundKeepsGroupsDuplicateFree(round: Round, scoreId: Id, pid: Id)
    requires GroupsDuplicateFree(round)
    ensures GroupsDuplicateFree(AddToRound(round, scoreId, pid))
  {
    var r := AddToRound(round, scoreId, pid);
    forall k | 0 <= k < |r.scores| ensures Seqs.Distinct(r.scores[k].playerIds) {
      var old_ids := round.scores[k].playerIds;
      assert Seqs.Distinct(old_ids);
      if round.scores[k].id != scoreId {
        Seqs.FilterDistinct(old_ids, (x: Id) => x != pid);
      } else if pid !in old_ids {
        var ids := old_ids + [pid];
        forall i, j | 0 <= i < j < |ids| ensures ids[i] != ids[j] {
          if j == |old_ids| { assert ids[i] in old_ids; }
        }
      }
    }
  }

  /** No player id is in two groups of the round. */
  predicate GroupedOnce(round: Round) {
    forall k1, k2, x :: 0 <= k1 < k2 < |round.scores| && x in round.scores[k1].playerIds ==>
      x !in round.scores[k2].playerIds
  }

  /** No two groups of the round share an id. */
  predicate ScoreIdsDistinct(round: Round) {
    forall k1, k2 :: 0 <= k1 < k2 < |round.scores| ==> round.scores[k1].id != round.scores[k2].id
  }

  /**
   * With distinct score ids, `addToScore` keeps every player in at most one
   * group of the round: the moved player is only in the target group and
   * every other membership can only shrink.
   */
  lemma AddToRoundKeepsGroupedOnce(round: Round, scoreId: Id, pid: Id)
    requires ScoreIdsDistinct(round) && GroupedOnce(round)
    ensures GroupedOnce(AddToRound(round, scoreId, pid))
  {
    var r := AddToRound(round, scoreId, pid);
    forall k1, k2, x | 0 <= k1 < k2 < |r.scores| && x in r.scores[k1].playerIds
      ensures x !in r.scores[k2].playerIds
    {
      if x == pid {
        assert r.scores[k1].id == scoreId;
        assert round.scores[k1].id != round.scores[k2].id;
      } else {
        assert x in round.scores[k1].playerIds;
      }
    }
  }

  /** What `createScore` does to one round whose number matches. */
  function AppendScore(round: Round, score: Score): (r: Round)
    ensures r.number == round.number && round.scores <= r.scores
    ensures |r.scores| == |round.scores| + 1 && r.scores[|round.scores|] == score
  {
    round.(scores := round.scores + [score])
  }

  /** `createScore(n, players)`: one new group of the players' ids, in order. */
  function CreateScore(g: Game, n: int, freshScoreId: Id, players: seq<Player>): (r: Game)
    ensures r.id == g.id && r.players == g.players && |r.rounds| == |g.rounds|
    ensures forall i :: 0 <= i < |g.rounds| && g.rounds[i].number != n ==>
      r.rounds[i] == g.rounds[i]
    ensures forall i :: 0 <= i < |g.rounds| && g.rounds[i].number == n ==>
      r.rounds[i].number == n &&
      r.rounds[i].scores == g.rounds[i].scores + [Score(freshScoreId, Registry.Ids(players))]
    ensures NoRoundNumbered(g, n) ==> r == g
  {
    var newScore := Score(freshScoreId, Registry.Ids(players));
    g.(rounds := MapRounds(g.rounds, n, (round: Round) => AppendScore(round, newScore)))
  }

  /** The groups of a round once `pid` has been taken out of each of them. */
  function Stripped(scores: seq<Score>, pid: Id): (r: seq<Score>)
    ensures |r| == |scores|
    ensures forall k :: 0 <= k < |r| ==>
      r[k].id == scores[k].id && r[k].playerIds == Without(scores[k].playerIds, pid)
  {
    seq(|scores|, k requires 0 <= k < |scores| =>
      scores[k].(playerIds := Without(scores[k].playerIds, pid)))
  }

  /** `scores.filter(score => score.playerIds.length > 1)`. */
  function Pruned(scores: seq<Score>): (r: seq<Score>)
    ensures forall s :: s in r <==> s in scores && |s.playerIds| > 1
  {
    Seqs.Filter(scores, (s: Score) => |s.playerIds| > 1)
  }

  /** Pruning keeps the surviving groups in their order, each as often as before. */
  lemma PrunedKeepsOrder(a: seq<Score>, b: seq<Score>)
    ensures Pruned(a + b) == Pruned(a) + Pruned(b)
  {
    Seqs.FilterConcat(a, b, (s: Score) => |s.playerIds| > 1);
  }

  /** Stripping works group by group, so it distributes over concatenation. */
  lemma StrippedConcat(a: seq<Score>, b: seq<Score>, pid: Id)
    ensures Stripped(a + b, pid) == Stripped(a, pid) + Stripped(b, pid)
  {
  }

  /** Every group left after stripping and pruning is an old group without `pid`, of two or more. */
  lemma PrunedStrippedFromOld(scores: seq<Score>, pid: Id)
    ensures forall s :: s in Pruned(Stripped(scores, pid)) ==>
      pid !in s.playerIds && |s.playerIds| >= 2 &&
      exists k :: 0 <= k < |scores| && s.id == scores[k].id &&
        s.playerIds == Without(scores[k].playerIds, pid)
  {
    var stripped := Stripped(scores, pid);
    forall s | s in Pruned(stripped)
      ensures pid !in s.playerIds && |s.playerIds| >= 2
      ensures exists k :: (0 <= k < |scores| && s.id == scores[k].id &&
        s.playerIds == Without(scores[k].playerIds, pid))
    {
      var k :| 0 <= k < |stripped| && stripped[k] == s;
    }
  }

  /** Every old group still of two or more once `pid` is stripped survives the pruning. */
  lemma PrunedStrippedKeeps(scores: seq<Score>, pid: Id)
    ensures forall k :: 0 <= k < |scores| && |Without(scores[k].playerIds, pid)| >= 2 ==>
      scores[k].(playerIds := Without(scores[k].playerIds, pid)) in Pruned(Stripped(scores, pid))
  {
    var stripped := Stripped(scores, pid);
    forall k | 0 <= k < |scores| && |Without(scores[k].playerIds, pid)| >= 2
      ensures scores[k].(playerIds := Without(scores[k].playerIds, pid)) in Pruned(stripped)
    {
      assert stripped[k] == scores[k].(playerIds := Without(scores[k].playerIds, pid));
    }
  }

  /** What `removeFromScore` does to one round whose number matches. */
  function RemoveFromRound(round: Round, pid: Id): (r: Round)
    ensures r.number == round.number && |r.scores| <= |round.scores|
    ensures forall s :: s in r.scores ==> pid !in s.playerIds && |s.playerIds| >= 2
    ensures forall s :: s in r.scores ==>
      exists k :: 0 <= k < |round.scores| && s.id == round.scores[k].id &&
        s.playerIds == Without(round.scores[k].playerIds, pid)
    ensures forall k :: 0 <= k < |round.scores| && |Without(round.scores[k].playerIds, pid)| >= 2 ==>
      round.scores[k].(playerIds := Without(round.scores[k].playerIds, pid)) in r.scores
  {
    PrunedStrippedFromOld(round.scores, pid);
    PrunedStrippedKeeps(round.scores, pid);
    round.(scores := Pruned(Stripped(round.scores, pid)))
  }

  /**
   * `removeFromScore` treats the groups of a round one after the other: the
   * groups left from the first stretch come first, in their order, then the
   * groups left from the second.
   */
  lemma RemoveFromRoundKeepsOrder(round: Round, pid: Id, a: seq<Score>, b: seq<Score>)
    requires round.scores == a + b
    ensures RemoveFromRound(round, pid).scores ==
      RemoveFromRound(round.(scores := a), pid).scores + RemoveFromRound(round.(scores := b), pid).scores
  {
    StrippedConcat(a, b, pid);
    PrunedKeepsOrder(Stripped(a, pid), Stripped(b, pid));
  }

  /** `removeFromScore(n, player)`: takes the player out of every group and prunes groups below two. */
  function RemoveFromScore(g: Game, n: int, player: Player): (r: Game)
    ensures r.id == g.id && r.players == g.players && |r.rounds| == |g.rounds|
    ensures forall i :: 0 <= i < |g.rounds| && g.rounds[i].number != n ==>
      r.rounds[i] == g.rounds[i]
    ensures forall i :: 0 <= i < |g.rounds| && g.rounds[i].number == n ==>
      r.rounds[i] == RemoveFromRound(g.rounds[i], player.id)
    ensures NoRoundNumbered(g, n) ==> r == g
  {
    g.(rounds := MapRounds(g.rounds, n, (round: Round) => RemoveFromRound(round, player.id)))
  }

  /**
   * A round in which `pid` is in no group and every group has two members or
   * more is left exactly as it is by `removeFromScore`.
   */
  lemma RemoveFromRoundNoop(round: Round, pid: Id)
    requires forall s :: s in round.scores ==> pid !in s.playerIds && |s.playerIds| >= 2
    ensures RemoveFromRound(round, pid) == round
  {
    var stripped := Stripped(round.scores, pid);
    assert stripped == round.scores by {
      forall k | 0 <= k < |round.scores| ensures stripped[k] == round.scores[k] {
        assert round.scores[k] in round.scores;
      }
    }
    assert Pruned(stripped) == stripped;
  }

  /** Applying `removeFromScore` twice equals applying it once. */
  lemma RemoveFromScoreIdempotent(g: Game, n: int, player: Player)
    ensures RemoveFromScore(RemoveFromScore(g, n, player), n, player) == RemoveFromScore(g, n, player)
  {
    var once := RemoveFromScore(g, n, player);
    var twice := RemoveFromScore(once, n, player);
    forall i | 0 <= i < |g.rounds| ensures twice.rounds[i] == once.rounds[i] {
      if g.rounds[i].number == n {
        RemoveFromRoundNoop(once.rounds[i], player.id);
      }
    }
  }

  /**
   * `createScore` does not take its players out of the groups they are
   * already in: grouping `a` with `c` while `a` is grouped with `b` leaves
   * `a` in two groups of the round.
   */
  lemma CreateScoreCanGroupAPlayerTwice()
    ensures var r := CreateScore(Game("g", [], [Round(1, [Score("s1", ["a", "b"])])]), 1, "s2",
      [Registry.Player("a", ""), Registry.Player("c", "")]);
      !GroupedOnce(r.rounds[0])
  {
    var g := Game("g", [], [Round(1, [Score("s1", ["a", "b"])])]);
    var ps := [Registry.Player("a", ""), Registry.Player("c", "")];
    var r := CreateScore(g, 1, "s2", ps);
    assert Registry.Ids(ps) == ["a", "c"];
    assert r.rounds[0].scores == [Score("s1", ["a", "b"]), Score("s2", ["a", "c"])];
    assert "a" in r.rounds[0].scores[0].playerIds && "a" in r.rounds[0].scores[1].playerIds;
  }

  /**
   * `addToScore` does not prune: moving `a` out of the pair `a, b` into
   * another group leaves `b` alone in a group worth one point.
   */
  lemma AddToScoreCanLeaveASingleton()
    ensures var r := AddToScore(Game("g", [], [Round(1, [Score("s1", ["a", "b"]), Score("s2", ["c", "d"])])]),
      1, "s2", Registry.Player("a", ""));
      |r.rounds[0].scores| == 2 && r.rounds[0].scores[0].playerIds == ["b"]
  {
    var round := Round(1, [Score("s1", ["a", "b"]), Score("s2", ["c", "d"])]);
    var g := Game("g", [], [round]);
    assert AddToScore(g, 1, "s2", Registry.Player("a", "")).rounds[0] == AddToRound(round, "s2", "a");
    var ids: seq<Id> := ["a", "b"];
    assert round.scores[0].id != "s2" by {
      assert round.scores[0].id[1] != "s2"[1];
    }
    assert AddToRound(round, "s2", "a").scores[0].playerIds == Without(ids, "a");
    assert ids == ["a"] + ["b"];
    WithoutKeepsOrder(["a"], ["b"], "a");
    assert Without(["a"], "a") == [];
    assert Without(["b"], "a") == ["b"];
  }

  /** The provider's state cell as the screens see it. */
  class GameStore {
    var game: Game

    constructor(initial: Game)
      ensures game == initial
    {
      game := initial;
    }

    /**
     * `getRound(n)`: indexes `rounds` by position `n`, not by the `number`
     * field; on a miss it appends `{number: n, scores: []}` and returns it.
     */
    method GetRound(n: int) returns (round: Round)
      modifies this
      ensures 0 <= n < |old(game.rounds)| ==> round == old(game.rounds)[n] && game == old(game)
      ensures !(0 <= n < |old(game.rounds)|) ==>
        round == Round(n, []) && game == old(game).(rounds := old(game.rounds) + [round])
    {
      if 0 <= n < |game.rounds| {
        round := game.rounds[n];
      } else {
        round := Round(n, []);
        game := game.(rounds := game.rounds + [round]);
      }
    }
  }

  /**
   * Because `getRound` looks by position but creates by number, asking twice
   * for round 1 of an empty game appends two rounds numbered 1.
   */
  method GetRoundTwiceOnEmptyGame(store: GameStore)
    requires store.game.rounds == []
    modifies store
    ensures store.game.rounds == [Round(1, []), Round(1, [])]
  {
    var first := store.GetRound(1);
    var second := store.GetRound(1);
  }
}
