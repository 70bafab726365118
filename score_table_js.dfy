/**
 * The plain-JavaScript score sheet, `src/App.jsx`. Its totals, cell edit,
 * row delete, "Fertig" and wizard click are the same handlers as in
 * `src/App.tsx` and are the members of `ScoreTable`; its single reset is
 * `ScoreTable.ResetAll`. Only `onSubmit` differs: it does not look for the
 * name among the players first.
 */
module ScoreTableJs {
  import Seqs
  import ScoreTable

  type Name = ScoreTable.Name

  /** `onSubmit`: any non-empty name is appended, even one already present. */
  function SubmitName(players: seq<Name>, v: Name): (r: seq<Name>)
    ensures v != "" ==> r == players + [v]
    ensures v == "" ==> r == players
  {
    if v != "" then players + [v] else players
  }

  /** Submitting a name that is already there produces a duplicate player. */
  lemma SubmitNameAllowsDuplicates(players: seq<Name>, v: Name)
    requires v != "" && v in players
    ensures !Seqs.Distinct(SubmitName(players, v))
  {
    var r := SubmitName(players, v);
    var i :| 0 <= i < |players| && players[i] == v;
    assert r[i] == v && r[|players|] == v;
  }

  /** On a name not yet present, both sheets do the same thing. */
  lemma SubmitNameAgreesOnNewNames(players: seq<Name>, v: Name)
    requires v !in players
    ensures SubmitName(players, v) == ScoreTable.SubmitName(players, v)
  {
  }
}
