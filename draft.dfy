/**
 * The list of names typed in before a game starts, `newPlayers` in
 * `src/routes/index.lazy.tsx` (and, with the same handlers, in the `Intro`
 * of `src/App.tsx`): edited by position, grown by an empty entry, and
 * submitted without its empty entries.
 */
module Draft {
  import Seqs

  type Name = string

  /** `useState([""])`: one empty entry. */
  function Initial(): (d: seq<Name>)
    ensures |d| == 1 && d[0] == ""
  {
    [""]
  }

  /** `deletePlayer(index)`: drops position `index`, keeping the others in order. */
  function DeletePlayer(draft: seq<Name>, index: int): (r: seq<Name>)
    ensures 0 <= index < |draft| ==>
      |r| == |draft| - 1 &&
      (forall k :: 0 <= k < index ==> r[k] == draft[k]) &&
      (forall k :: index <= k < |r| ==> r[k] == draft[k + 1])
    ensures !(0 <= index < |draft|) ==> r == draft
  {
    Seqs.RemoveAt(draft, index)
  }

  /** `updatePlayer(name, index)`: replaces position `index` and nothing else. */
  function UpdatePlayer(draft: seq<Name>, name: Name, index: int): (r: seq<Name>)
    ensures |r| == |draft|
    ensures forall k :: 0 <= k < |draft| ==> r[k] == (if k == index then name else draft[k])
  {
    Seqs.ReplaceAt(draft, index, name)
  }

  /** The add button: `[...newPlayers, ""]`. */
  function AddEmpty(draft: seq<Name>): (r: seq<Name>)
    ensures |r| == |draft| + 1 && draft <= r && r[|draft|] == ""
  {
    draft + [""]
  }

  /** `submit`: `newPlayers.filter(it => it)`, the non-empty names. */
  function Submit(draft: seq<Name>): (r: seq<Name>)
    ensures forall x :: x in r <==> x in draft && x != ""
    ensures |r| <= |draft|
  {
    Seqs.Filter(draft, (x: Name) => x != "")
  }

  /** Two different entries of the draft are filled in. */
  ghost predicate TwoFilled(draft: seq<Name>) {
    exists i, j :: 0 <= i < j < |draft| && draft[i] != "" && draft[j] != ""
  }

  /** Submitting a draft: its first entry if filled in, then the submitted rest. */
  lemma SubmitCons(draft: seq<Name>)
    requires draft != []
    ensures Submit(draft) == (if draft[0] == "" then [] else [draft[0]]) + Submit(draft[1..])
  {
    SubmitKeepsOrder([draft[0]], draft[1..]);
    assert [draft[0]] + draft[1..] == draft;
    SubmitOne(draft[0]);
  }

  /** Some name is submitted exactly when some entry is filled in. */
  lemma SubmitSomeIffFilled(draft: seq<Name>)
    ensures |Submit(draft)| >= 1 <==> exists j :: 0 <= j < |draft| && draft[j] != ""
  {
    if |Submit(draft)| >= 1 {
      var x := Submit(draft)[0];
      assert x in draft && x != "";
    }
    if j :| 0 <= j < |draft| && draft[j] != "" {
      assert draft[j] in Submit(draft);
    }
  }

  /** An empty first entry is never one of two filled-in entries. */
  lemma TwoFilledSkipsEmpty(draft: seq<Name>)
    requires draft != [] && draft[0] == ""
    ensures TwoFilled(draft) <==> TwoFilled(draft[1..])
  {
    var tail := draft[1..];
    if TwoFilled(draft) {
      var i, j :| 0 <= i < j < |draft| && draft[i] != "" && draft[j] != "";
      assert tail[i - 1] == draft[i] && tail[j - 1] == draft[j];
    }
    if TwoFilled(tail) {
      var i, j :| 0 <= i < j < |tail| && tail[i] != "" && tail[j] != "";
      assert draft[i + 1] == tail[i] && draft[j + 1] == tail[j];
    }
  }

  /** With a filled-in first entry, two are filled in exactly when one of the rest is. */
  lemma TwoFilledWithFirst(draft: seq<Name>)
    requires draft != [] && draft[0] != ""
    ensures TwoFilled(draft) <==> exists j :: 0 <= j < |draft[1..]| && draft[1..][j] != ""
  {
    var tail := draft[1..];
    if TwoFilled(draft) {
      var i, j :| 0 <= i < j < |draft| && draft[i] != "" && draft[j] != "";
      assert tail[j - 1] == draft[j];
    }
    if j :| 0 <= j < |tail| && tail[j] != "" {
      assert draft[j + 1] == tail[j];
    }
  }

  /** At least two names are submitted exactly when two entries are filled in. */
  lemma {:induction false} SubmitTwoIffTwoFilled(draft: seq<Name>)
    ensures |Submit(draft)| >= 2 <==> TwoFilled(draft)
  {
    if draft != [] {
      SubmitCons(draft);
      if draft[0] == "" {
        SubmitTwoIffTwoFilled(draft[1..]);
        TwoFilledSkipsEmpty(draft);
      } else {
        SubmitSomeIffFilled(draft[1..]);
        TwoFilledWithFirst(draft);
      }
    }
  }

  /** The start button is disabled exactly while at most one entry is filled in. */
  predicate StartDisabled(draft: seq<Name>): (b: bool)
    ensures b <==> forall i, j :: 0 <= i < j < |draft| && draft[i] != "" ==> draft[j] == ""
  {
    SubmitTwoIffTwoFilled(draft);
    |Submit(draft)| <= 1
  }

  /** A delete button is shown exactly when no delete can leave the draft without an entry. */
  predicate DeleteAllowed(draft: seq<Name>): (b: bool)
    ensures b <==> forall index :: 0 <= index < |draft| ==> |DeletePlayer(draft, index)| >= 1
  {
    assert |draft| == 1 ==> |DeletePlayer(draft, 0)| == 0;
    |draft| != 1
  }

  /** Submitting keeps the filled-in names in the order they were typed in: it distributes over `+`. */
  lemma SubmitKeepsOrder(a: seq<Name>, b: seq<Name>)
    ensures Submit(a + b) == Submit(a) + Submit(b)
  {
    Seqs.FilterConcat(a, b, (x: Name) => x != "");
  }

  /** An added empty entry never reaches the submitted list. */
  lemma AddEmptyDoesNotChangeSubmit(draft: seq<Name>)
    ensures Submit(AddEmpty(draft)) == Submit(draft)
  {
    SubmitKeepsOrder(draft, [""]);
    assert Submit([""]) == [];
  }

  /** A single entry reaches the submitted list exactly when it is filled in. */
  lemma SubmitOne(x: Name)
    ensures Submit([x]) == (if x == "" then [] else [x])
  {
    assert [x][1..] == [];
  }

  /** Submitting around one entry: the entries before it, then it, then the ones after. */
  lemma SubmitAround(pre: seq<Name>, x: Name, post: seq<Name>)
    ensures Submit(pre + ([x] + post)) == Submit(pre) + Submit([x]) + Submit(post)
  {
    SubmitKeepsOrder(pre, [x] + post);
    SubmitKeepsOrder([x], post);
  }

  /** An edited draft is the entries before `index`, the new name, and the entries after. */
  lemma UpdateSplits(draft: seq<Name>, name: Name, index: int)
    requires 0 <= index < |draft|
    ensures UpdatePlayer(draft, name, index) == draft[..index] + ([name] + draft[index + 1..])
  {
    var r, s := UpdatePlayer(draft, name, index), draft[..index] + ([name] + draft[index + 1..]);
    assert |r| == |s|;
    forall k | 0 <= k < |r| ensures r[k] == s[k] {
      if k > index {
        assert s[k] == draft[index + 1..][k - index - 1];
      }
    }
  }

  /** Filling in an empty entry puts that name into the submitted list at its place. */
  lemma FillingInAddsToSubmit(draft: seq<Name>, name: Name, index: int)
    requires 0 <= index < |draft| && draft[index] == "" && name != ""
    ensures Submit(UpdatePlayer(draft, name, index)) ==
      Submit(draft[..index]) + [name] + Submit(draft[index + 1..])
    ensures |Submit(UpdatePlayer(draft, name, index))| == |Submit(draft)| + 1
  {
    var pre, post := draft[..index], draft[index + 1..];
    UpdateSplits(draft, draft[index], index);
    UpdateSplits(draft, name, index);
    assert draft[index := draft[index]] == draft;
    SubmitAround(pre, "", post);
    SubmitAround(pre, name, post);
    SubmitOne("");
    SubmitOne(name);
  }

  /** The start screen opens with the start button disabled and no delete button. */
  lemma InitialState()
    ensures StartDisabled(Initial()) && !DeleteAllowed(Initial())
  {
    assert Submit(Initial()) == [];
  }
}
