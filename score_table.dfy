/**
 * The first version of the score sheet, `src/App.tsx`: players are bare
 * names, and every round is a row object mapping a player's name to the
 * points entered for them (a missing or `undefined` entry counts 0).
 * Values read from the page (`parseInt` of the cell's text, the wizard's
 * `valueAsNumber`) come in already parsed: `None` stands for `NaN`.
 */
module ScoreTable {
  import opened Wrappers
  import Seqs

  type Name = string

  /** A cell of a row: a number, or `undefined` after a non-numeric edit. */
  datatype Entry = Undefined | Value(n: int)

  /** One round: `{[player]: points}`. */
  type Row = map<Name, Entry>

  /** The two pieces of state the sheet shows: the players and the rows. */
  datatype Table = Table(players: seq<Name>, rows: seq<Row>)

  /** `score[p] ?? 0`. */
  function EntryPoints(row: Row, p: Name): int {
    if p in row && row[p].Value? then row[p].n else 0
  }

  /** `scores.reduce((acc, score) => acc + (score[p] ?? 0), 0)`, folded from the left. */
  function Total(rows: seq<Row>, p: Name): (t: int)
    ensures rows == [] ==> t == 0
    ensures (forall k :: 0 <= k < |rows| ==> EntryPoints(rows[k], p) >= 0) ==> t >= 0
  {
    if rows == [] then 0
    else Total(rows[..|rows| - 1], p) + EntryPoints(rows[|rows| - 1], p)
  }

  /** The total over two stretches of rows is the sum of their totals. */
  lemma {:induction false} TotalConcat(a: seq<Row>, b: seq<Row>, p: Name)
    ensures Total(a + b, p) == Total(a, p) + Total(b, p)
  {
    if b == [] {
      assert a + b == a;
    } else {
      assert (a + b)[..|a + b| - 1] == a + b[..|b| - 1];
      assert (a + b)[|a + b| - 1] == b[|b| - 1];
      TotalConcat(a, b[..|b| - 1], p);
    }
  }

  /** Replacing one row changes every total by exactly that row's difference. */
  lemma TotalReplaceRow(rows: seq<Row>, i: int, row: Row, p: Name)
    requires 0 <= i < |rows|
    ensures Total(rows[i := row], p) == Total(rows, p) - EntryPoints(rows[i], p) + EntryPoints(row, p)
  {
    assert rows == rows[..i] + [rows[i]] + rows[i + 1..];
    assert rows[i := row] == rows[..i] + [row] + rows[i + 1..];
    TotalConcat(rows[..i] + [rows[i]], rows[i + 1..], p);
    TotalConcat(rows[..i], [rows[i]], p);
    TotalConcat(rows[..i] + [row], rows[i + 1..], p);
    TotalConcat(rows[..i], [row], p);
    assert [rows[i]][..0] == [] && [row][..0] == [];
  }

  /** `onSubmit`: a non-empty name not yet in `players` is appended; anything else changes nothing. */
  function SubmitName(players: seq<Name>, v: Name): (r: seq<Name>)
    ensures v != "" && v !in players ==> r == players + [v]
    ensures v == "" || v in players ==> r == players
    ensures v != "" ==> v in r
  {
    if v != "" && v !in players then players + [v] else players
  }

  /** Names added through `onSubmit` never repeat. */
  lemma SubmitNameKeepsDistinct(players: seq<Name>, v: Name)
    requires Seqs.Distinct(players)
    ensures Seqs.Distinct(SubmitName(players, v))
  {
    var r := SubmitName(players, v);
    if v != "" && v !in players {
      forall i, j | 0 <= i < j < |r| ensures r[i] != r[j] {
        if j == |players| {
          assert r[i] == players[i];
        }
      }
    }
  }

  /** Submitting the same name twice is submitting it once. */
  lemma SubmitNameIdempotent(players: seq<Name>, v: Name)
    ensures SubmitName(SubmitName(players, v), v) == SubmitName(players, v)
  {
  }

  /** The cell's new content: the parsed integer, or `undefined` when `parseInt` gave `NaN`. */
  function ParsedEntry(parsed: Option<int>): Entry {
    match parsed
    case Some(n) => Value(n)
    case None => Undefined
  }

  /** A number, or 0 for `NaN`: `value || 0`, and also what a parsed cell adds to a total. */
  function OrZero(value: Option<int>): int {
    match value
    case Some(n) => n
    case None => 0
  }

  /**
   * The cell `onChange`: writes the parsed value (or `undefined`) into row
   * `i` in place, then hands out the copy `[...scores]`. The edited player's
   * total moves by the difference; every other player's total stays.
   */
  method EditCell(rows: array<Row>, i: int, player: Name, parsed: Option<int>) returns (next: seq<Row>)
    requires 0 <= i < rows.Length
    modifies rows
    ensures rows[..] == old(rows[..])[i := old(rows[i])[player := ParsedEntry(parsed)]]
    ensures next == rows[..]
    ensures Total(next, player) ==
      Total(old(rows[..]), player) - EntryPoints(old(rows[i]), player) + OrZero(parsed)
    ensures forall q :: q != player ==> Total(next, q) == Total(old(rows[..]), q)
  {
    ghost var before := rows[..];
    var row := rows[i];
    rows[i] := row[player := ParsedEntry(parsed)];
    next := rows[..];
    assert next == before[i := row[player := ParsedEntry(parsed)]];
    TotalReplaceRow(before, i, row[player := ParsedEntry(parsed)], player);
    forall q | q != player
      ensures Total(next, q) == Total(before, q)
    {
      TotalReplaceRow(before, i, row[player := ParsedEntry(parsed)], q);
    }
  }

  /** The delete button of row `i`: `scores.filter((_, index2) => index !== index2)`. */
  function DeleteRow(rows: seq<Row>, i: int): (r: seq<Row>)
    ensures 0 <= i < |rows| ==> |r| == |rows| - 1 && r == rows[..i] + rows[i + 1..]
    ensures !(0 <= i < |rows|) ==> r == rows
  {
    Seqs.RemoveAt(rows, i)
  }

  /** Deleting row `i` takes exactly that row's points off every total. */
  lemma TotalAfterDelete(rows: seq<Row>, i: int, p: Name)
    requires 0 <= i < |rows|
    ensures Total(DeleteRow(rows, i), p) == Total(rows, p) - EntryPoints(rows[i], p)
  {
    assert rows == rows[..i] + ([rows[i]] + rows[i + 1..]);
    TotalConcat(rows[..i], [rows[i]] + rows[i + 1..], p);
    TotalConcat([rows[i]], rows[i + 1..], p);
    TotalConcat(rows[..i], rows[i + 1..], p);
    assert [rows[i]][..0] == [];
  }

  /** `addScore(s)`, the wizard's "Fertig": appends the wizard row. */
  function AddRow(rows: seq<Row>, row: Row): (r: seq<Row>)
    ensures |r| == |rows| + 1 && rows <= r && r[|rows|] == row
  {
    rows + [row]
  }

  /** Appending a row adds exactly that row's points to every total. */
  lemma TotalAfterAddRow(rows: seq<Row>, row: Row, p: Name)
    ensures Total(AddRow(rows, row), p) == Total(rows, p) + EntryPoints(row, p)
  {
    assert AddRow(rows, row)[..|rows|] == rows;
  }

  /** "Alles": clears the players and the rows. */
  function ResetAll(t: Table): (r: Table)
    ensures r.players == [] && r.rows == []
  {
    Table([], [])
  }

  /** "Nur Ergebnisse": clears the rows and keeps the players, so every total is 0. */
  function ResetScores(t: Table): (r: Table)
    ensures r.players == t.players && r.rows == []
    ensures forall p :: Total(r.rows, p) == 0
  {
    Table(t.players, [])
  }

  /** `handleOpen`: the wizard row starts empty. */
  function WizardOpen(): (r: Row)
    ensures forall p :: EntryPoints(r, p) == 0
  {
    map[]
  }

  /** A wizard button: `{...scores, [player]: value || 0}`. */
  function WizardClick(row: Row, player: Name, value: Option<int>): (r: Row)
    ensures player in r && r[player] == Value(OrZero(value))
    ensures forall q :: q != player ==> (q in r <==> q in row)
    ensures forall q :: q != player && q in row ==> r[q] == row[q]
  {
    row[player := Value(OrZero(value))]
  }

  /** A click followed by "Fertig" adds the clicked value to that player's total and nothing else. */
  lemma WizardClickThenAdd(rows: seq<Row>, row: Row, player: Name, value: Option<int>, q: Name)
    ensures Total(AddRow(rows, WizardClick(row, player, value)), q) ==
      Total(rows, q) + (if q == player then OrZero(value) else EntryPoints(row, q))
  {
    TotalAfterAddRow(rows, WizardClick(row, player, value), q);
  }
}
