/**
 * The logic of the round screen in `src/game/GamePage.tsx`: finding the
 * round, turning a drop into ledger calls, splitting the players into
 * grouped and ungrouped, and what the group cards show. Gestures, layout and
 * navigation are not modelled; a drop is given as the droppable it ended on.
 */
module GamePage {
  import opened Wrappers
  import Seqs
  import Registry
  import Ledger
  import Results

  type Id = Registry.Id
  type Player = Registry.Player

  /**
   * `game.rounds.find(it => it.number === roundNumber)`; a route parameter that
   * does not parse (`NaN`, here `None`) matches no round. `None` is the redirect.
   */
  function FindRound(rounds: seq<Ledger.Round>, roundNumber: Option<int>): (r: Option<Ledger.Round>)
    ensures r.None? <==>
      roundNumber.None? || forall i :: 0 <= i < |rounds| ==> rounds[i].number != roundNumber.value
    ensures r.Some? ==>
      roundNumber.Some? && r.value.number == roundNumber.value &&
      (exists k :: 0 <= k < |rounds| && rounds[k] == r.value &&
         forall j :: 0 <= j < k ==> rounds[j].number != roundNumber.value)
  {
    if roundNumber.None? || rounds == [] then None
    else if rounds[0].number == roundNumber.value then Some(rounds[0])
    else
      var r := FindRound(rounds[1..], roundNumber);
      assert forall i :: 1 <= i < |rounds| ==> rounds[i] == rounds[1..][i - 1];
      if r.Some? then
        var k :| 0 <= k < |rounds[1..]| && rounds[1..][k] == r.value &&
          (forall j :: 0 <= j < k ==> rounds[1..][j].number != roundNumber.value);
        assert rounds[k + 1] == r.value;
        r
      else r
  }

  // ---------------------------------------------------------------------
  // Drag and drop

  /** The `data` a draggable or droppable carries. */
  datatype DragData = NoData | PlayerData(player: Player) | ScoreData(scoreId: Id)

  /** `event.over`: the droppable under the pointer, with its id and data. */
  datatype Over = Over(id: string, data: DragData)

  /** A call `onDragEnd` makes on the ledger; the dragged player is `null` when none was recorded. */
  datatype Call =
    | CreateScoreCall(roundNumber: int, target: Player, dragged: Option<Player>)
    | AddToScoreCall(roundNumber: int, scoreId: Id, dragged: Option<Player>)
    | RemoveFromScoreCall(roundNumber: int, dragged: Option<Player>)

  /** The background droppable's id. */
  const Background := "background"

  /** The three independent tests of `onDragEnd`, in order. */
  function DropCalls(dragging: Option<Player>, roundNumber: int, over: Option<Over>): (calls: seq<Call>)
    ensures over.None? ==> calls == []
    ensures forall c :: c in calls ==> c.roundNumber == roundNumber && c.dragged == dragging
    ensures dragging.Some? && over.Some? && over.value.data.PlayerData? &&
            over.value.data.player.id == dragging.value.id ==>
      forall c :: c in calls ==> !c.CreateScoreCall?
  {
    var target := if over.Some? then over.value.data else NoData;
    (if target.PlayerData? && (dragging.None? || target.player.id != dragging.value.id)
     then [CreateScoreCall(roundNumber, target.player, dragging)] else [])
    + (if target.ScoreData? then [AddToScoreCall(roundNumber, target.scoreId, dragging)] else [])
    + (if over.Some? && over.value.id == Background then [RemoveFromScoreCall(roundNumber, dragging)] else [])
  }

  /** Dropping onto another player's card asks for a new group of the two. */
  lemma DropOnOtherPlayer(d: Player, n: int, overId: string, t: Player)
    requires overId != Background && t.id != d.id
    ensures DropCalls(Some(d), n, Some(Over(overId, PlayerData(t)))) == [CreateScoreCall(n, t, Some(d))]
  {
  }

  /** Dropping onto a group card asks to add the dragged player to it. */
  lemma DropOnScore(d: Player, n: int, overId: string, s: Id)
    requires overId != Background
    ensures DropCalls(Some(d), n, Some(Over(overId, ScoreData(s)))) == [AddToScoreCall(n, s, Some(d))]
  {
  }

  /** Dropping onto the background asks to take the dragged player out of its group. */
  lemma DropOnBackground(d: Player, n: int)
    ensures DropCalls(Some(d), n, Some(Over(Background, NoData))) == [RemoveFromScoreCall(n, Some(d))]
  {
  }

  /** The player a call acts on is known. */
  predicate HasDragged(c: Call) {
    c.dragged.Some?
  }

  /**
   * What a call does to the game, with the ledger's `removeFromScore` behind a
   * background drop (the corrected wiring, see ApplyCallAsWritten).
   */
  function ApplyCall(g: Ledger.Game, c: Call, freshScoreId: Id): (r: Ledger.Game)
    requires HasDragged(c)
    ensures r.id == g.id && r.players == g.players && |r.rounds| == |g.rounds|
    ensures forall i :: 0 <= i < |g.rounds| && g.rounds[i].number != c.roundNumber ==>
      r.rounds[i] == g.rounds[i]
  {
    match c
    case CreateScoreCall(n, t, d) => Ledger.CreateScore(g, n, freshScoreId, [t, d.value])
    case AddToScoreCall(n, s, d) => Ledger.AddToScore(g, n, s, d.value)
    case RemoveFromScoreCall(n, d) => Ledger.RemoveFromScore(g, n, d.value)
  }

  /** The error a call into a missing context member throws. */
  datatype CallError = NotAFunction(member: string)

  /**
   * What a call does as the page is written: it destructures
   * `removeFromScores`, which the provider does not supply, so a background
   * drop calls `undefined` and throws.
   */
  function ApplyCallAsWritten(g: Ledger.Game, c: Call, freshScoreId: Id): (r: Result<Ledger.Game, CallError>)
    requires HasDragged(c)
    ensures c.RemoveFromScoreCall? <==> r.Err?
    ensures r.Ok? ==> r.value == ApplyCall(g, c, freshScoreId)
  {
    match c
    case RemoveFromScoreCall(_, _) => Err(NotAFunction("removeFromScores"))
    case _ => Ok(ApplyCall(g, c, freshScoreId))
  }

  /** As written, every background drop throws instead of ungrouping the player. */
  lemma BackgroundDropThrowsAsWritten(g: Ledger.Game, d: Player, n: int, freshScoreId: Id)
    ensures var calls := DropCalls(Some(d), n, Some(Over(Background, NoData)));
      |calls| == 1 && ApplyCallAsWritten(g, calls[0], freshScoreId).Err?
  {
    DropOnBackground(d, n);
  }

  /**
   * Corrected, a background drop leaves the dragged player in no group of the
   * round, and every group left there has at least two members.
   */
  lemma BackgroundDropUngroups(g: Ledger.Game, d: Player, n: int, freshScoreId: Id)
    ensures var calls := DropCalls(Some(d), n, Some(Over(Background, NoData)));
      |calls| == 1 &&
      var g' := ApplyCall(g, calls[0], freshScoreId);
      forall i, s :: 0 <= i < |g'.rounds| && g'.rounds[i].number == n && s in g'.rounds[i].scores ==>
        d.id !in s.playerIds && |s.playerIds| >= 2
  {
    DropOnBackground(d, n);
  }

  /**
   * A drop onto a group card puts the dragged player into that group of the
   * round and into no other.
   */
  lemma ScoreDropGroupsPlayer(g: Ledger.Game, d: Player, n: int, overId: string, s: Id, freshScoreId: Id)
    requires overId != Background
    ensures var calls := DropCalls(Some(d), n, Some(Over(overId, ScoreData(s))));
      |calls| == 1 &&
      var g' := ApplyCall(g, calls[0], freshScoreId);
      forall i, k :: 0 <= i < |g.rounds| && g.rounds[i].number == n && 0 <= k < |g.rounds[i].scores| ==>
        (d.id in g'.rounds[i].scores[k].playerIds <==> g.rounds[i].scores[k].id == s)
  {
    DropOnScore(d, n, overId, s);
  }

  /** A drop onto another player's card appends the group `[target, dragged]` to the round. */
  lemma PlayerDropPairs(g: Ledger.Game, d: Player, n: int, overId: string, t: Player, freshScoreId: Id)
    requires overId != Background && t.id != d.id
    ensures var calls := DropCalls(Some(d), n, Some(Over(overId, PlayerData(t))));
      |calls| == 1 &&
      var g' := ApplyCall(g, calls[0], freshScoreId);
      forall i :: 0 <= i < |g.rounds| && g.rounds[i].number == n ==>
        g'.rounds[i].scores == g.rounds[i].scores + [Ledger.Score(freshScoreId, [t.id, d.id])]
  {
    DropOnOtherPlayer(d, n, overId, t);
    assert Registry.Ids([t, d]) == [t.id, d.id];
  }

  /** The `draggingPlayer` state of the page. */
  class DragSession {
    var dragging: Option<Player>

    constructor()
      ensures dragging == None
    {
      dragging := None;
    }

    /** `onDragStart`: records the player the dragged item carries, if it carries one. */
    method DragStart(active: DragData)
      modifies this
      ensures dragging == if active.PlayerData? then Some(active.player) else old(dragging)
    {
      if active.PlayerData? {
        dragging := Some(active.player);
      }
    }

    /** `onDragEnd`: the ledger calls for the drop; afterwards no player is being dragged. */
    method DragEnd(roundNumber: int, over: Option<Over>) returns (calls: seq<Call>)
      modifies this
      ensures calls == DropCalls(old(dragging), roundNumber, over)
      ensures dragging == None
    {
      calls := DropCalls(dragging, roundNumber, over);
      dragging := None;
    }

    /** `onDragEnd` as written: the calls for the drop, and the reset only when none of them threw. */
    method DragEndAsWritten(roundNumber: int, over: Option<Over>) returns (calls: seq<Call>)
      modifies this
      ensures calls == DropCalls(old(dragging), roundNumber, over)
      ensures dragging == DraggingAfterEndAsWritten(old(dragging), calls)
    {
      calls := DropCalls(dragging, roundNumber, over);
      if forall c :: c in calls ==> !c.RemoveFromScoreCall? {
        dragging := None;
      }
    }
  }

  /**
   * What `draggingPlayer` is after `onDragEnd` as the page is written: a call
   * that throws (the background drop, see ApplyCallAsWritten) leaves the
   * handler before its last statement, so the reset is skipped.
   */
  function DraggingAfterEndAsWritten(before: Option<Player>, calls: seq<Call>): (r: Option<Player>)
    ensures (exists c :: c in calls && c.RemoveFromScoreCall?) ==> r == before
    ensures (forall c :: c in calls ==> !c.RemoveFromScoreCall?) ==> r.None?
  {
    if exists c :: c in calls && c.RemoveFromScoreCall? then before else None
  }

  /** As written, a background drop leaves the dragged player set, so its overlay stays. */
  lemma BackgroundDropKeepsDraggingAsWritten(d: Player, n: int)
    ensures DraggingAfterEndAsWritten(Some(d), DropCalls(Some(d), n, Some(Over(Background, NoData)))) == Some(d)
  {
    DropOnBackground(d, n);
    assert RemoveFromScoreCall(n, Some(d)) in [RemoveFromScoreCall(n, Some(d))];
  }

  /**
   * A whole drag of a player card, as the page is written. Every draggable on
   * the page carries a player, so every call names it; the player stays
   * dragged exactly when the drop threw (a background drop).
   */
  method DragOfPlayer(session: DragSession, p: Player, roundNumber: int, over: Option<Over>)
    returns (calls: seq<Call>)
    modifies session
    ensures calls == DropCalls(Some(p), roundNumber, over)
    ensures forall c :: c in calls ==> c.dragged == Some(p)
    ensures session.dragging == DraggingAfterEndAsWritten(Some(p), calls)
  {
    session.DragStart(PlayerData(p));
    calls := session.DragEndAsWritten(roundNumber, over);
  }

  // ---------------------------------------------------------------------
  // Grouped and ungrouped players

  /** `round.scores.some(score => score.playerIds.includes(pid))`. */
  predicate Grouped(round: Ledger.Round, pid: Id) {
    exists s :: s in round.scores && pid in s.playerIds
  }

  /** `playersWithoutScores`: the registry players in no group of the round, in registry order. */
  function PlayersWithoutScores(players: seq<Player>, round: Ledger.Round): (r: seq<Player>)
    ensures forall p :: p in r <==> p in players && !Grouped(round, p.id)
  {
    Seqs.Filter(players, (p: Player) => !Grouped(round, p.id))
  }

  /** The ungrouped list keeps the registry order. */
  lemma PlayersWithoutScoresKeepsOrder(a: seq<Player>, b: seq<Player>, round: Ledger.Round)
    ensures PlayersWithoutScores(a + b, round) ==
      PlayersWithoutScores(a, round) + PlayersWithoutScores(b, round)
  {
    Seqs.FilterConcat(a, b, (p: Player) => !Grouped(round, p.id));
  }

  /** A player shows up ungrouped exactly when the round's table cell for the player is 0. */
  lemma UngroupedIffNoCell(players: seq<Player>, round: Ledger.Round, p: Player)
    requires p in players
    ensures p in PlayersWithoutScores(players, round) <==> Results.Cell(round, p.id) == 0
  {
  }

  /** `players.find(player => player.id === id)`. */
  function FindPlayer(players: seq<Player>, id: Id): (r: Option<Player>)
    ensures r.None? <==> !Registry.HasId(players, id)
    ensures r.Some? ==> r.value in players && r.value.id == id
    ensures r.Some? ==>
      exists k :: 0 <= k < |players| && players[k] == r.value &&
        forall j :: 0 <= j < k ==> players[j].id != id
  {
    if players == [] then None
    else if players[0].id == id then Some(players[0])
    else
      var r := FindPlayer(players[1..], id);
      assert forall p :: p in players ==> p == players[0] || p in players[1..];
      assert r.Some? ==> r.value in players[1..];
      if r.Some? then
        var k :| 0 <= k < |players[1..]| && players[1..][k] == r.value &&
          (forall j :: 0 <= j < k ==> players[1..][j].id != id);
        assert players[k + 1] == r.value;
        assert forall j :: 1 <= j < k + 1 ==> players[j] == players[1..][j - 1];
        r
      else r
  }

  /**
   * `displayPlayers`: one entry per member id, the registry player with that
   * id or, for an id no player has, `{id, name: "???"}`.
   */
  function DisplayPlayers(playerIds: seq<Id>, players: seq<Player>): (r: seq<Player>)
    ensures |r| == |playerIds|
    ensures forall i :: 0 <= i < |r| ==> r[i].id == playerIds[i]
    ensures forall i :: 0 <= i < |r| && Registry.HasId(players, playerIds[i]) ==>
      exists k :: 0 <= k < |players| && players[k] == r[i] &&
        forall j :: 0 <= j < k ==> players[j].id != playerIds[i]
    ensures forall i :: 0 <= i < |r| && !Registry.HasId(players, playerIds[i]) ==>
      r[i] == Registry.Player(playerIds[i], "???")
  {
    seq(|playerIds|, i requires 0 <= i < |playerIds| =>
      match FindPlayer(players, playerIds[i])
      case Some(p) => p
      case None => Registry.Player(playerIds[i], "???"))
  }

  // ---------------------------------------------------------------------
  // Group cards

  /** The player cards a `ScoreDisplay` stacks: the members shown, then the preview player if there is one. */
  function CardEntries(shown: seq<Player>, preview: Option<Player>): seq<Player> {
    shown + (if preview.Some? then [preview.value] else [])
  }

  /** `ScoreDisplay`'s count: the number it prints is the number of player cards it stacks. */
  function CardCount(shown: seq<Player>, preview: Option<Player>): (n: nat)
    ensures n == |CardEntries(shown, preview)|
    ensures shown <= CardEntries(shown, preview)
  {
    |shown| + (if preview.Some? then 1 else 0)
  }

  /** The preview on a group card: the hovering dragged player, unless already a member. */
  function ScorePreview(isOver: bool, active: DragData, score: Ledger.Score): (r: Option<Player>)
    ensures r.Some? <==> isOver && active.PlayerData? && active.player.id !in score.playerIds
  {
    if isOver && active.PlayerData? && active.player.id !in score.playerIds
    then Some(active.player) else None
  }

  /** The preview on an ungrouped player's card: the hovering dragged player, unless it is that player. */
  function PlayerPreview(isOver: bool, active: DragData, player: Player): (r: Option<Player>)
    ensures r.Some? <==> isOver && active.PlayerData? && active.player.id != player.id
  {
    if isOver && active.PlayerData? && active.player.id != player.id
    then Some(active.player) else None
  }

  /**
   * While a player hovers over a group card, the card's count is the size the
   * group has once the player is dropped there.
   */
  lemma ScoreCardCountPredictsDrop(round: Ledger.Round, k: int, players: seq<Player>, p: Player)
    requires 0 <= k < |round.scores|
    ensures var score := round.scores[k];
      CardCount(DisplayPlayers(score.playerIds, players), ScorePreview(true, PlayerData(p), score)) ==
      |Ledger.AddToRound(round, score.id, p.id).scores[k].playerIds|
  {
  }

  /**
   * While a player hovers over another player's card, the card counts 2, the
   * size of the group `createScore` makes of the two (see PlayerDropPairs).
   */
  lemma PlayerCardCountPredictsDrop(target: Player, p: Player)
    requires target.id != p.id
    ensures CardCount([target], PlayerPreview(true, PlayerData(p), target)) == 2
    ensures CardCount([target], PlayerPreview(true, PlayerData(p), target)) ==
      |Registry.Ids([target, p])|
  {
    assert Registry.Ids([target, p]) == [target.id, p.id];
  }
}
