/**
 * The id-based player registry of `src/usePlayers.tsx`. Every operation is
 * a state updater `(players) => newPlayers`; ids that the application draws
 * from `crypto.randomUUID()` are passed in as `freshId`.
 */
module Registry {
  import Seqs

  type Id = string

  /** `{ id, name }`: the id never changes, the name may be empty or repeated. */
  datatype Player = Player(id: Id, name: string)

  /** The ids of `players`, position by position. */
  function Ids(players: seq<Player>): (ids: seq<Id>)
    ensures |ids| == |players|
    ensures forall i :: 0 <= i < |players| ==> ids[i] == players[i].id
  {
    seq(|players|, i requires 0 <= i < |players| => players[i].id)
  }

  /** No two players share an id. */
  predicate IdsDistinct(players: seq<Player>) {
    Seqs.Distinct(Ids(players))
  }

  /** Some player in `players` has id `id`. */
  predicate HasId(players: seq<Player>, id: Id) {
    exists p :: p in players && p.id == id
  }

  /** `createPlayer()`: a new player with the given fresh id and an empty name. */
  function CreatePlayer(freshId: Id): (p: Player)
    ensures p.id == freshId && p.name == ""
  {
    Player(freshId, "")
  }

  /** The state a fresh registry starts in: one player, whose name is empty. */
  function Initial(freshId: Id): (players: seq<Player>)
    ensures |players| == 1 && players[0].name == "" && players[0].id == freshId
    ensures IdsDistinct(players)
  {
    [CreatePlayer(freshId)]
  }

  /** `addPlayer()`: appends a new player with an empty name. */
  function AddPlayer(players: seq<Player>, freshId: Id): (r: seq<Player>)
    ensures |r| == |players| + 1 && players <= r
    ensures r[|players|].name == "" && r[|players|].id == freshId
  {
    players + [CreatePlayer(freshId)]
  }

  /** An id that no registered player has keeps the ids pairwise distinct after `addPlayer`. */
  lemma AddPlayerKeepsIdsDistinct(players: seq<Player>, freshId: Id)
    requires IdsDistinct(players) && !HasId(players, freshId)
    ensures IdsDistinct(AddPlayer(players, freshId))
  {
    var r := AddPlayer(players, freshId);
    forall i, j | 0 <= i < j < |r| ensures Ids(r)[i] != Ids(r)[j] {
      if j < |players| {
        assert Ids(players)[i] != Ids(players)[j];
      } else {
        assert players[i] in players;
      }
    }
  }

  /** `removePlayer(id)`: the players whose id differs from `id`, in order. */
  function RemovePlayer(players: seq<Player>, id: Id): (r: seq<Player>)
    ensures forall p :: p in r <==> p in players && p.id != id
    ensures !HasId(r, id)
    ensures !HasId(players, id) ==> r == players
  {
    Seqs.Filter(players, (p: Player) => p.id != id)
  }

  /** `removePlayer` keeps the relative order of the players it keeps. */
  lemma RemovePlayerKeepsOrder(a: seq<Player>, b: seq<Player>, id: Id)
    ensures RemovePlayer(a + b, id) == RemovePlayer(a, id) + RemovePlayer(b, id)
  {
    Seqs.FilterConcat(a, b, (p: Player) => p.id != id);
  }

  /** `updatePlayer(id, name)`: renames every player with that id; nothing else changes. */
  function UpdatePlayer(players: seq<Player>, id: Id, name: string): (r: seq<Player>)
    ensures |r| == |players| && Ids(r) == Ids(players)
    ensures forall i :: 0 <= i < |r| && players[i].id == id ==> r[i].name == name
    ensures forall i :: 0 <= i < |r| && players[i].id != id ==> r[i] == players[i]
    ensures !HasId(players, id) ==> r == players
  {
    seq(|players|, i requires 0 <= i < |players| =>
      if players[i].id == id then players[i].(name := name) else players[i])
  }

  /**
   * Renaming a registered player in a registry with distinct ids leaves exactly
   * one player with that id, and it carries the new name.
   */
  lemma UpdatePlayerRenamesExactlyOne(players: seq<Player>, id: Id, name: string)
    requires IdsDistinct(players) && HasId(players, id)
    ensures IdsDistinct(UpdatePlayer(players, id, name))
    ensures exists k :: 0 <= k < |players| && UpdatePlayer(players, id, name)[k] == Player(id, name)
    ensures forall i, j :: 0 <= i < j < |players| ==>
      !(UpdatePlayer(players, id, name)[i].id == id && UpdatePlayer(players, id, name)[j].id == id)
  {
    var r := UpdatePlayer(players, id, name);
    var p :| p in players && p.id == id;
    var k :| 0 <= k < |players| && players[k] == p;
    assert r[k] == Player(id, name);
    forall i, j | 0 <= i < j < |players| ensures !(r[i].id == id && r[j].id == id) {
      assert Ids(r)[i] == Ids(players)[i] && Ids(r)[j] == Ids(players)[j];
    }
  }

  /** `resetPlayers()`: the empty registry. */
  function ResetPlayers(): (r: seq<Player>)
    ensures |r| == 0
  {
    []
  }
}
