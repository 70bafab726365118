/**
 * The older round ledger of `src/GameContext.tsx`: rounds of
 * `{playerId, value}` entries, and the one-shot conversion of the schema
 * before it, an array of `{[playerName]: value}` objects, into that form.
 * `createId()` is modelled as a supply `createId: nat -> Id` whose k-th draw
 * (counting from 0) yields `createId(k)`.
 */
module GameContext {
  import Seqs
  import Registry

  type Id = Registry.Id

  datatype Score = Score(playerId: Id, value: int)

  datatype Round = Round(scores: seq<Score>)

  datatype Game = Game(rounds: seq<Round>)

  /** `addRound(round)`: appends the given round. */
  function AddRound(g: Game, round: Round): (r: Game)
    ensures |r.rounds| == |g.rounds| + 1 && g.rounds <= r.rounds && r.rounds[|g.rounds|] == round
  {
    Game(g.rounds + [round])
  }

  /** `removeRound(index)`: drops position `index`; any other index changes nothing. */
  function RemoveRound(g: Game, index: int): (r: Game)
    ensures 0 <= index < |g.rounds| ==>
      |r.rounds| == |g.rounds| - 1 &&
      (forall i :: 0 <= i < index ==> r.rounds[i] == g.rounds[i]) &&
      (forall i :: index <= i < |r.rounds| ==> r.rounds[i] == g.rounds[i + 1])
    ensures !(0 <= index < |g.rounds|) ==> r == g
  {
    Game(Seqs.RemoveAt(g.rounds, index))
  }

  /** `resetGame()`: no rounds. */
  function ResetGame(): (r: Game)
    ensures |r.rounds| == 0
  {
    Game([])
  }

  // ---------------------------------------------------------------------
  // Schema migration

  /** One old round, as `Object.entries(oldRound)` lists it: `[playerName, value]` pairs. */
  type OldRound = seq<(string, int)>

  /** What the storage slot holds: the old array form or the current object form. */
  datatype Stored = OldGame(oldRounds: seq<OldRound>) | NewGame(game: Game)

  /** `isOldGame(game)`: `Array.isArray(game)`. */
  function IsOldGame(stored: Stored): (b: bool)
    ensures b <==> stored.OldGame?
  {
    match stored
    case OldGame(_) => true
    case NewGame(_) => false
  }

  /** The state of the `playerMap` memo and how many ids it has drawn. */
  datatype Memo = Memo(ids: map<string, Id>, drawn: nat)

  /** One call of `idFor(name)`: draws a fresh id only for a name not seen before. */
  function IdForStep(m: Memo, name: string, createId: nat -> Id): (r: Memo)
    ensures name in r.ids
  {
    if name in m.ids then m else Memo(m.ids[name := createId(m.drawn)], m.drawn + 1)
  }

  /** The memo after `idFor` has been called on `names`, in order, starting empty. */
  function MemoAfter(names: seq<string>, createId: nat -> Id): Memo {
    if names == [] then Memo(map[], 0)
    else IdForStep(MemoAfter(names[..|names| - 1], createId), names[|names| - 1], createId)
  }

  /** The memo has an id for exactly the names `idFor` was called on. */
  lemma {:induction false} MemoAfterKeys(names: seq<string>, createId: nat -> Id)
    ensures forall x :: x in MemoAfter(names, createId).ids <==> x in names
  {
    if names != [] {
      var prefix := names[..|names| - 1];
      MemoAfterKeys(prefix, createId);
      assert names == prefix + [names[|names| - 1]];
    }
  }

  /** Every id in the memo is one of the draws made so far. */
  ghost predicate IdsDrawn(m: Memo, createId: nat -> Id) {
    forall x :: x in m.ids ==> exists k: nat :: k < m.drawn && m.ids[x] == createId(k)
  }

  lemma {:induction false} MemoIdsDrawn(names: seq<string>, createId: nat -> Id)
    ensures IdsDrawn(MemoAfter(names, createId), createId)
  {
    if names != [] {
      var prefix := names[..|names| - 1];
      var last := names[|names| - 1];
      MemoIdsDrawn(prefix, createId);
      var prev := MemoAfter(prefix, createId);
      var m := MemoAfter(names, createId);
      assert m == IdForStep(prev, last, createId);
      if last !in prev.ids {
        forall x | x in m.ids ensures exists k: nat :: k < m.drawn && m.ids[x] == createId(k) {
          if x == last {
            assert m.ids[x] == createId(prev.drawn);
          } else {
            var k: nat :| k < prev.drawn && prev.ids[x] == createId(k);
            assert m.ids[x] == createId(k);
          }
        }
      }
    }
  }

  /** A fresh id is drawn exactly for the first occurrence of a name. */
  lemma IdForDrawsOnFirstOccurrence(names: seq<string>, name: string, createId: nat -> Id)
    ensures MemoAfter(names + [name], createId).drawn ==
      MemoAfter(names, createId).drawn + (if name in names then 0 else 1)
    ensures name !in names ==>
      MemoAfter(names + [name], createId).ids[name] == createId(MemoAfter(names, createId).drawn)
  {
    assert (names + [name])[..|names + [name]| - 1] == names;
  }

  /** Once a name has an id, later calls of `idFor` never change it. */
  lemma {:induction false} MemoStable(s: seq<string>, t: seq<string>, createId: nat -> Id)
    ensures forall x :: x in MemoAfter(s, createId).ids ==>
      x in MemoAfter(s + t, createId).ids &&
      MemoAfter(s + t, createId).ids[x] == MemoAfter(s, createId).ids[x]
  {
    if t == [] {
      assert s + t == s;
    } else {
      var t' := t[..|t| - 1];
      MemoStable(s, t', createId);
      assert (s + t)[..|s + t| - 1] == s + t';
      var prev := MemoAfter(s + t', createId);
      assert MemoAfter(s + t, createId) == IdForStep(prev, t[|t| - 1], createId);
    }
  }

  /** No two keys share a value. */
  ghost predicate Injective(ids: map<string, Id>) {
    forall x, y :: x in ids && y in ids && x != y ==> ids[x] != ids[y]
  }

  /** With a supply that never repeats an id, distinct names get distinct ids. */
  lemma {:induction false} MemoInjective(names: seq<string>, createId: nat -> Id)
    requires forall a: nat, b: nat :: createId(a) == createId(b) ==> a == b
    ensures Injective(MemoAfter(names, createId).ids)
  {
    if names != [] {
      var prefix := names[..|names| - 1];
      MemoInjective(prefix, createId);
      MemoIdsDrawn(prefix, createId);
      var prev := MemoAfter(prefix, createId);
      var m := MemoAfter(names, createId);
      var last := names[|names| - 1];
      assert m == IdForStep(prev, last, createId);
      if last !in prev.ids {
        assert m.ids == prev.ids[last := createId(prev.drawn)];
        assert Injective(prev.ids);
        forall x, y | x in m.ids && y in m.ids && x != y ensures m.ids[x] != m.ids[y] {
          if x == last {
            assert y in prev.ids && m.ids[y] == prev.ids[y];
            NotADrawnId(prev, y, createId);
          } else if y == last {
            assert x in prev.ids && m.ids[x] == prev.ids[x];
            NotADrawnId(prev, x, createId);
          } else {
            assert m.ids[x] == prev.ids[x] && m.ids[y] == prev.ids[y];
          }
        }
      }
    }
  }

  /** The next draw differs from every id already in the memo. */
  lemma NotADrawnId(prev: Memo, x: string, createId: nat -> Id)
    requires forall a: nat, b: nat :: createId(a) == createId(b) ==> a == b
    requires IdsDrawn(prev, createId) && x in prev.ids
    ensures prev.ids[x] != createId(prev.drawn)
  {
    var k: nat :| k < prev.drawn && prev.ids[x] == createId(k);
  }

  /** The player names of an old round, in entry order. */
  function Names(oldRound: OldRound): (r: seq<string>)
    ensures |r| == |oldRound| && forall j :: 0 <= j < |r| ==> r[j] == oldRound[j].0
  {
    seq(|oldRound|, j requires 0 <= j < |oldRound| => oldRound[j].0)
  }

  /** Every name of every old round, in the order the migration visits them. */
  function Flatten(oldRounds: seq<OldRound>): seq<string> {
    if oldRounds == [] then []
    else Flatten(oldRounds[..|oldRounds| - 1]) + Names(oldRounds[|oldRounds| - 1])
  }

  lemma {:induction false} FlattenConcat(a: seq<OldRound>, b: seq<OldRound>)
    ensures Flatten(a + b) == Flatten(a) + Flatten(b)
  {
    if b == [] {
      assert a + b == a;
    } else {
      assert (a + b)[..|a + b| - 1] == a + b[..|b| - 1];
      assert (a + b)[|a + b| - 1] == b[|b| - 1];
      FlattenConcat(a, b[..|b| - 1]);
    }
  }

  /** Visiting one more round appends that round's names. */
  lemma FlattenStep(oldRounds: seq<OldRound>, i: int)
    requires 0 <= i < |oldRounds|
    ensures Flatten(oldRounds[..i + 1]) == Flatten(oldRounds[..i]) + Names(oldRounds[i])
  {
    var s := oldRounds[..i + 1];
    assert s[..|s| - 1] == oldRounds[..i];
    assert s[|s| - 1] == oldRounds[i];
  }

  /** Splits the visiting order at entry `j` of round `i`. */
  lemma FlattenAt(oldRounds: seq<OldRound>, i: int, j: int)
    requires 0 <= i < |oldRounds| && 0 <= j <= |oldRounds[i]|
    ensures exists rest ::
      Flatten(oldRounds) == Flatten(oldRounds[..i]) + Names(oldRounds[i])[..j] + rest
  {
    var front, back := oldRounds[..i + 1], oldRounds[i + 1..];
    assert oldRounds == front + back;
    FlattenConcat(front, back);
    FlattenStep(oldRounds, i);
    var names := Names(oldRounds[i]);
    var rest := names[j..] + Flatten(back);
    calc {
      Flatten(oldRounds);
      Flatten(front) + Flatten(back);
      Flatten(oldRounds[..i]) + names + Flatten(back);
      { assert names == names[..j] + names[j..]; }
      Flatten(oldRounds[..i]) + (names[..j] + names[j..]) + Flatten(back);
      Flatten(oldRounds[..i]) + names[..j] + rest;
    }
  }

  /** Every name of every old round is visited. */
  lemma FlattenCovers(oldRounds: seq<OldRound>)
    ensures forall i, j :: 0 <= i < |oldRounds| && 0 <= j < |oldRounds[i]| ==>
      oldRounds[i][j].0 in Flatten(oldRounds)
  {
    forall i, j | 0 <= i < |oldRounds| && 0 <= j < |oldRounds[i]|
      ensures oldRounds[i][j].0 in Flatten(oldRounds)
    {
      FlattenAt(oldRounds, i, j + 1);
      var rest :| Flatten(oldRounds) == Flatten(oldRounds[..i]) + Names(oldRounds[i])[..j + 1] + rest;
      assert Names(oldRounds[i])[..j + 1][j] == oldRounds[i][j].0;
    }
  }

  /** The ids the migration gives every name it meets. */
  function MigrationIds(oldRounds: seq<OldRound>, createId: nat -> Id): map<string, Id> {
    MemoAfter(Flatten(oldRounds), createId).ids
  }

  /** Every name of round `i` has an id after the migration. */
  lemma RoundNamesHaveIds(oldRounds: seq<OldRound>, i: int, createId: nat -> Id)
    requires 0 <= i < |oldRounds|
    ensures forall k :: 0 <= k < |oldRounds[i]| ==> oldRounds[i][k].0 in MigrationIds(oldRounds, createId)
  {
    FlattenCovers(oldRounds);
    MemoAfterKeys(Flatten(oldRounds), createId);
  }

  /** One old round converted with the ids `ids`: each entry becomes a score, in order. */
  function MigrateRound(oldRound: OldRound, ids: map<string, Id>): (r: Round)
    requires forall j :: 0 <= j < |oldRound| ==> oldRound[j].0 in ids
    ensures |r.scores| == |oldRound|
    ensures forall j :: 0 <= j < |oldRound| ==>
      r.scores[j] == Score(ids[oldRound[j].0], oldRound[j].1)
  {
    Round(seq(|oldRound|, j requires 0 <= j < |oldRound| =>
      Score(ids[oldRound[j].0], oldRound[j].1)))
  }

  /**
   * The migrated game: one round per old round, in order, and one score per
   * entry, in entry order, with the value kept and the name replaced by its id.
   */
  function Migration(oldRounds: seq<OldRound>, createId: nat -> Id): (g: Game)
    ensures |g.rounds| == |oldRounds|
    ensures forall i, j :: 0 <= i < |oldRounds| && 0 <= j < |oldRounds[i]| ==>
      oldRounds[i][j].0 in MigrationIds(oldRounds, createId)
    ensures forall i :: 0 <= i < |oldRounds| ==>
      g.rounds[i] == MigrateRound(oldRounds[i], MigrationIds(oldRounds, createId))
  {
    var ids := MigrationIds(oldRounds, createId);
    FlattenCovers(oldRounds);
    MemoAfterKeys(Flatten(oldRounds), createId);
    Game(seq(|oldRounds|, i requires 0 <= i < |oldRounds| => MigrateRound(oldRounds[i], ids)))
  }

  /**
   * The `idFor` call on entry `j` of round `i` extends the memo by that name,
   * and the id it returns is the one the whole migration gives the name.
   */
  lemma EntryStep(oldRounds: seq<OldRound>, i: int, j: int, createId: nat -> Id)
    requires 0 <= i < |oldRounds| && 0 <= j < |oldRounds[i]|
    ensures var visited := Flatten(oldRounds[..i]) + Names(oldRounds[i])[..j];
      var after := IdForStep(MemoAfter(visited, createId), oldRounds[i][j].0, createId);
      after == MemoAfter(Flatten(oldRounds[..i]) + Names(oldRounds[i])[..j + 1], createId) &&
      oldRounds[i][j].0 in MigrationIds(oldRounds, createId) &&
      after.ids[oldRounds[i][j].0] == MigrationIds(oldRounds, createId)[oldRounds[i][j].0]
  {
    var name := oldRounds[i][j].0;
    var visited := Flatten(oldRounds[..i]) + Names(oldRounds[i])[..j];
    assert Names(oldRounds[i])[..j + 1] == Names(oldRounds[i])[..j] + [name];
    assert Flatten(oldRounds[..i]) + Names(oldRounds[i])[..j + 1] == visited + [name];
    assert (visited + [name])[..|visited + [name]| - 1] == visited;
    FlattenAt(oldRounds, i, j + 1);
    var rest :| Flatten(oldRounds) == Flatten(oldRounds[..i]) + Names(oldRounds[i])[..j + 1] + rest;
    MemoStable(visited + [name], rest, createId);
  }

  /**
   * Within one migration every occurrence of a name gets the same id, and,
   * with a supply that never repeats an id, different names get different ids.
   */
  lemma MigrationNamesAgree(oldRounds: seq<OldRound>, createId: nat -> Id, i1: int, j1: int, i2: int, j2: int)
    requires forall a: nat, b: nat :: createId(a) == createId(b) ==> a == b
    requires 0 <= i1 < |oldRounds| && 0 <= j1 < |oldRounds[i1]|
    requires 0 <= i2 < |oldRounds| && 0 <= j2 < |oldRounds[i2]|
    ensures var g := Migration(oldRounds, createId);
      (oldRounds[i1][j1].0 == oldRounds[i2][j2].0) <==>
      (g.rounds[i1].scores[j1].playerId == g.rounds[i2].scores[j2].playerId)
  {
    var g := Migration(oldRounds, createId);
    var ids := MigrationIds(oldRounds, createId);
    var n1, n2 := oldRounds[i1][j1].0, oldRounds[i2][j2].0;
    assert g.rounds[i1].scores[j1].playerId == ids[n1];
    assert g.rounds[i2].scores[j2].playerId == ids[n2];
    MemoInjective(Flatten(oldRounds), createId);
    assert Injective(ids);
  }

  /** The `idFor` closure over its `playerMap`, which it updates in place. */
  class PlayerIdMemo {
    var playerMap: map<string, Id>
    var drawn: nat
    const createId: nat -> Id

    /** The memo as a value. */
    function State(): Memo
      reads this
    {
      Memo(playerMap, drawn)
    }

    constructor(createId: nat -> Id)
      ensures State() == Memo(map[], 0) && this.createId == createId
    {
      playerMap := map[];
      drawn := 0;
      this.createId := createId;
    }

    /** `idFor(name)`: the memoised id, drawn fresh on the name's first occurrence. */
    method IdFor(name: string) returns (id: Id)
      modifies this
      ensures State() == IdForStep(old(State()), name, createId)
      ensures id == playerMap[name]
    {
      if name !in playerMap {
        playerMap := playerMap[name := createId(drawn)];
        drawn := drawn + 1;
      }
      id := playerMap[name];
    }
  }

  /** The entry callback `([playerName, value]) => ({playerId: idFor(playerName), value})`. */
  method ConvertEntry(memo: PlayerIdMemo, oldRounds: seq<OldRound>, i: int, j: int) returns (score: Score)
    requires 0 <= i < |oldRounds| && 0 <= j < |oldRounds[i]|
    requires memo.State() ==
      MemoAfter(Flatten(oldRounds[..i]) + Names(oldRounds[i])[..j], memo.createId)
    modifies memo
    ensures memo.State() ==
      MemoAfter(Flatten(oldRounds[..i]) + Names(oldRounds[i])[..j + 1], memo.createId)
    ensures oldRounds[i][j].0 in MigrationIds(oldRounds, memo.createId)
    ensures score ==
      Score(MigrationIds(oldRounds, memo.createId)[oldRounds[i][j].0], oldRounds[i][j].1)
  {
    var (name, value) := oldRounds[i][j];
    EntryStep(oldRounds, i, j, memo.createId);
    var id := memo.IdFor(name);
    score := Score(id, value);
  }

  /** The inner `Object.entries(oldRound).map(...)`: converts round `i` entry by entry. */
  method ConvertRound(memo: PlayerIdMemo, oldRounds: seq<OldRound>, i: int) returns (round: Round)
    requires 0 <= i < |oldRounds|
    requires memo.State() == MemoAfter(Flatten(oldRounds[..i]), memo.createId)
    modifies memo
    ensures memo.State() == MemoAfter(Flatten(oldRounds[..i + 1]), memo.createId)
    ensures forall j :: 0 <= j < |oldRounds[i]| ==>
      oldRounds[i][j].0 in MigrationIds(oldRounds, memo.createId)
    ensures round == MigrateRound(oldRounds[i], MigrationIds(oldRounds, memo.createId))
  {
    ghost var ids := MigrationIds(oldRounds, memo.createId);
    ghost var before := Flatten(oldRounds[..i]);
    var scores: seq<Score> := [];
    var j := 0;
    assert before + Names(oldRounds[i])[..0] == before;
    RoundNamesHaveIds(oldRounds, i, memo.createId);
    while j < |oldRounds[i]|
      invariant 0 <= j <= |oldRounds[i]|
      invariant memo.State() == MemoAfter(before + Names(oldRounds[i])[..j], memo.createId)
      invariant |scores| == j
      invariant forall k :: 0 <= k < j ==>
        scores[k] == Score(ids[oldRounds[i][k].0], oldRounds[i][k].1)
    {
      var score := ConvertEntry(memo, oldRounds, i, j);
      ghost var next := scores + [score];
      forall k | 0 <= k < j + 1
        ensures next[k] == Score(ids[oldRounds[i][k].0], oldRounds[i][k].1)
      {
        if k < j {
          assert next[k] == scores[k];
        }
      }
      scores := scores + [score];
      j := j + 1;
    }
    assert Names(oldRounds[i])[..j] == Names(oldRounds[i]);
    FlattenStep(oldRounds, i);
    round := Round(scores);
    assert round.scores == MigrateRound(oldRounds[i], ids).scores;
  }

  /** The `game.map(oldRound => ...)` conversion, one round at a time. */
  method Migrate(oldRounds: seq<OldRound>, createId: nat -> Id) returns (game: Game)
    ensures game == Migration(oldRounds, createId)
  {
    ghost var spec := Migration(oldRounds, createId).rounds;
    var memo := new PlayerIdMemo(createId);
    var rounds: seq<Round> := [];
    var i := 0;
    assert oldRounds[..0] == [];
    while i < |oldRounds|
      invariant 0 <= i <= |oldRounds|
      invariant memo.createId == createId
      invariant memo.State() == MemoAfter(Flatten(oldRounds[..i]), createId)
      invariant rounds == spec[..i]
    {
      var round := ConvertRound(memo, oldRounds, i);
      assert spec[..i + 1] == spec[..i] + [round];
      rounds := rounds + [round];
      i := i + 1;
    }
    assert spec[..i] == spec;
    game := Game(rounds);
  }

  /** `useOldGameMigration`: an old array is converted, a current game is returned unchanged. */
  method MigrateStored(stored: Stored, createId: nat -> Id) returns (game: Game)
    ensures !IsOldGame(stored) ==> game == stored.game
    ensures IsOldGame(stored) ==> game == Migration(stored.oldRounds, createId)
  {
    if IsOldGame(stored) {
      game := Migrate(stored.oldRounds, createId);
    } else {
      game := stored.game;
    }
  }

  /** An old game with one round of Alice 3 and Bob 1 becomes one round of two scores with fresh ids. */
  lemma MigrationExample(createId: nat -> Id)
    ensures Migration([[("Alice", 3), ("Bob", 1)]], createId) ==
      Game([Round([Score(createId(0), 3), Score(createId(1), 1)])])
  {
    var oldRounds: seq<OldRound> := [[("Alice", 3), ("Bob", 1)]];
    assert oldRounds[..0] == [];
    assert Names(oldRounds[0]) == ["Alice", "Bob"];
    assert Flatten(oldRounds) == ["Alice", "Bob"];
    assert ["Alice", "Bob"][..1] == ["Alice"] && ["Alice"][..0] == [];
    var m1 := MemoAfter(["Alice"], createId);
    assert m1 == Memo(map["Alice" := createId(0)], 1);
    var m2 := MemoAfter(["Alice", "Bob"], createId);
    assert m2 == IdForStep(m1, "Bob", createId);
    assert m2.ids["Alice"] == createId(0) && m2.ids["Bob"] == createId(1);
    var g := Migration(oldRounds, createId);
    assert g.rounds[0].scores == [Score(createId(0), 3), Score(createId(1), 1)];
  }
}
