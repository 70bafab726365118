/**
 * The older player list of `src/PlayerContext.tsx`: the caller supplies the
 * whole player to append, and the name update rebuilds `{id, name}`.
 */
module PlayerContext {
  import Registry

  type Id = Registry.Id
  type Player = Registry.Player

  /** `addPlayer(player)`: appends the given player as it is, without a duplicate check. */
  function AddPlayer(players: seq<Player>, player: Player): (r: seq<Player>)
    ensures |r| == |players| + 1 && players <= r && r[|players|] == player
  {
    players + [player]
  }

  /** Appending a player whose id is taken gives two players with that id. */
  lemma AddPlayerAllowsRepeatedIds(players: seq<Player>, player: Player)
    requires Registry.HasId(players, player.id)
    ensures !Registry.IdsDistinct(AddPlayer(players, player))
  {
    var r := AddPlayer(players, player);
    var q :| q in players && q.id == player.id;
    var k :| 0 <= k < |players| && players[k] == q;
    assert Registry.Ids(r)[k] == Registry.Ids(r)[|players|];
  }

  /** `updatePlayerName(id, newName)`: players with that id become `{id, name: newName}`. */
  function UpdatePlayerName(players: seq<Player>, id: Id, newName: string): (r: seq<Player>)
    ensures |r| == |players|
    ensures forall i :: 0 <= i < |players| ==>
      r[i] == if players[i].id == id then Registry.Player(id, newName) else players[i]
  {
    seq(|players|, i requires 0 <= i < |players| =>
      if players[i].id != id then players[i] else Registry.Player(players[i].id, newName))
  }

  /** The older rename agrees with the id-based registry's `updatePlayer`. */
  lemma UpdatePlayerNameAgreesWithRegistry(players: seq<Player>, id: Id, newName: string)
    ensures UpdatePlayerName(players, id, newName) == Registry.UpdatePlayer(players, id, newName)
  {
  }

  /** `hasPlayers`: the list is not empty. */
  function HasPlayers(players: seq<Player>): (b: bool)
    ensures b <==> exists p :: p in players
  {
    assert |players| > 0 ==> players[0] in players;
    |players| > 0
  }
}
