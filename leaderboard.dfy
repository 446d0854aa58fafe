/**
 * The leaderboard: which entries of a game's ranking list are shown under
 * the nickname filter, the rank and highlight each shown entry gets, and
 * the small state machine of the edit and filter controls.
 */
module Leaderboard {
  import opened Wrappers
  import opened Text

  /** One score record; the nickname may be null. */
  datatype Entry = Entry(id: int, gameName: string, nickname: Option<string>, score: int)

  /** `it.nickname || ''`: a null (or empty) nickname reads as the empty string. */
  function NicknameOrEmpty(e: Entry): string
  {
    if e.nickname.Some? then e.nickname.value else ""
  }

  /** The filter test: the lower-cased nickname equals the filter key exactly. */
  predicate Matches(e: Entry, name: string)
  {
    Lower(NicknameOrEmpty(e)) == name
  }

  /** a occurs in b in order, possibly with gaps. */
  predicate IsSubsequence<T(==)>(a: seq<T>, b: seq<T>)
    decreases |b|
  {
    if a == [] then true
    else if b == [] then false
    else if a[0] == b[0] then IsSubsequence(a[1..], b[1..])
    else IsSubsequence(a, b[1..])
  }

  lemma {:induction false} SubsequenceReflexive<T>(a: seq<T>)
    ensures IsSubsequence(a, a)
    decreases |a|
  {
    if a != [] {
      SubsequenceReflexive(a[1..]);
    }
  }

  /** `list.filter(it => (it.nickname || '').toLowerCase() === name)`. */
  function FilterByNickname(list: seq<Entry>, name: string): (r: seq<Entry>)
    ensures IsSubsequence(r, list)
    ensures forall k :: 0 <= k < |r| ==> Matches(r[k], name)
    ensures forall e :: e in r <==> e in list && Matches(e, name)
    decreases |list|
  {
    if list == [] then []
    else
      var rest := FilterByNickname(list[1..], name);
      if Matches(list[0], name) then
        assert ([list[0]] + rest)[1..] == rest;
        [list[0]] + rest
      else
        assert rest != [] ==> rest[0] != list[0];
        assert forall e :: e in list <==> e == list[0] || e in list[1..];
        rest
  }

  /**
   * The filter drops no copy of a matching entry and keeps no copy of any
   * other: each entry occurs in the result as often as in the list if it
   * matches, and not at all otherwise.
   */
  lemma {:induction false} FilterByNicknameCounts(list: seq<Entry>, name: string, e: Entry)
    ensures multiset(FilterByNickname(list, name))[e] == if Matches(e, name) then multiset(list)[e] else 0
    decreases |list|
  {
    if list != [] {
      FilterByNicknameCounts(list[1..], name, e);
      var rest := FilterByNickname(list[1..], name);
      assert list == [list[0]] + list[1..];
      assert multiset(list) == multiset{list[0]} + multiset(list[1..]);
      if Matches(list[0], name) {
        assert FilterByNickname(list, name) == [list[0]] + rest;
        assert multiset(FilterByNickname(list, name)) == multiset{list[0]} + multiset(rest);
      } else {
        assert FilterByNickname(list, name) == rest;
      }
    }
  }

  /** The filter key: the confirmed filter name, trimmed and lower-cased. */
  function FilterKey(filterName: string): string
  {
    Lower(Trim(filterName))
  }

  /**
   * The entries a game's card shows: everything when the filter key is
   * empty, otherwise those whose nickname matches it, in list order.
   */
  function Displayed(list: seq<Entry>, filterName: string): (r: seq<Entry>)
    ensures IsSubsequence(r, list)
    ensures Trim(filterName) == "" ==> r == list
    ensures Trim(filterName) != "" ==>
      forall e :: e in r <==> e in list && Matches(e, FilterKey(filterName))
  {
    var name := FilterKey(filterName);
    if name == "" then
      SubsequenceReflexive(list);
      list
    else
      FilterByNickname(list, name)
  }

  /** Filter names that differ only in letter case show the same entries. */
  lemma FilterCaseInsensitive(list: seq<Entry>, f1: string, f2: string)
    requires Lower(f1) == Lower(f2)
    ensures Displayed(list, f1) == Displayed(list, f2)
  {
    LowerTrimCommute(f1);
    LowerTrimCommute(f2);
    assert FilterKey(f1) == FilterKey(f2);
  }

  /** An empty filter key shows the whole list: a filter of only white space filters nothing. */
  lemma BlankFilterShowsAll(list: seq<Entry>, filterName: string)
    requires AllSpace(filterName)
    ensures Displayed(list, filterName) == list
  {
    TrimEmptyIffAllSpace(filterName);
  }

  /**
   * Confirming the filter stores the trimmed input, and the card trims it
   * again: the confirmed name shows the same entries as the raw input.
   */
  lemma ConfirmedFilterShowsSame(list: seq<Entry>, input: string)
    ensures Displayed(list, Trim(input)) == Displayed(list, input)
  {
    TrimIdempotent(input);
  }

  /** `list.findIndex(it => it.id === id)`: the first index with that id, or -1. */
  function FindIndex(list: seq<Entry>, id: int): (r: int)
    ensures -1 <= r < |list|
    ensures 0 <= r ==> list[r].id == id && forall j :: 0 <= j < r ==> list[j].id != id
    ensures r == -1 ==> forall j :: 0 <= j < |list| ==> list[j].id != id
    decreases |list|
  {
    if list == [] then -1
    else if list[0].id == id then 0
    else
      var k := FindIndex(list[1..], id);
      if k < 0 then -1 else k + 1
  }

  /** The rank cell: a place number, or '-' when the id is not in the list. */
  datatype RankLabel = Place(n: nat) | Dash

  /** One displayed row: the entry, its rank and its CSS class name. */
  datatype Row = Row(item: Entry, rank: RankLabel, className: string)

  function Digit(n: nat): char
    requires n < 10
  {
    ('0' as int + n) as char
  }

  /** The extra class for the top three places: rank-1, rank-2 or rank-3. */
  function RankClass(origIndex: int): string
  {
    if origIndex < 3 && origIndex >= 0 then "rank-" + [Digit(origIndex + 1)] else ""
  }

  /** The row for one displayed entry, ranked against the unfiltered list. */
  function MakeRow(list: seq<Entry>, item: Entry): Row
  {
    var origIndex := FindIndex(list, item.id);
    Row(item, if origIndex >= 0 then Place(origIndex + 1) else Dash,
        "ranking-item " + RankClass(origIndex))
  }

  /**
   * An entry of the list is ranked at the first place n whose entry has
   * the same id, so 1 <= n <= |list|; it is highlighted as rank-n exactly
   * when n <= 3.
   */
  lemma RowRank(list: seq<Entry>, item: Entry)
    requires item in list
    ensures MakeRow(list, item).rank.Place?
    ensures var n := MakeRow(list, item).rank.n;
      && 1 <= n <= |list|
      && list[n - 1].id == item.id
      && (forall j :: 0 <= j < n - 1 ==> list[j].id != item.id)
      && (n <= 3 ==> MakeRow(list, item).className == "ranking-item rank-" + [Digit(n)])
      && (n > 3 ==> MakeRow(list, item).className == "ranking-item ")
  {
    var j :| 0 <= j < |list| && list[j] == item;
    assert list[j].id == item.id;
  }

  /** The rows for the displayed entries, in order. */
  function RowsOf(list: seq<Entry>, shown: seq<Entry>): (rows: seq<Row>)
    ensures |rows| == |shown|
    ensures forall k :: 0 <= k < |shown| ==> rows[k] == MakeRow(list, shown[k])
    decreases |shown|
  {
    if shown == [] then [] else [MakeRow(list, shown[0])] + RowsOf(list, shown[1..])
  }

  /** What one game's card shows. */
  datatype Card = NoScores | NoMatch | Rows(rows: seq<Row>)

  /**
   * The card of one game: no scores when the game has no (or an empty)
   * list, a no-match message when the filter leaves nothing, otherwise one
   * row per displayed entry.
   */
  function RenderCard(rankings: map<string, seq<Entry>>, gameKey: string, filterName: string): (c: Card)
    ensures c.NoScores? <==> gameKey !in rankings || rankings[gameKey] == []
    ensures c.NoMatch? ==> Trim(filterName) != "" && Displayed(rankings[gameKey], filterName) == []
    ensures c.Rows? ==>
      var shown := Displayed(rankings[gameKey], filterName);
      && shown != []
      && |c.rows| == |shown|
      && forall k :: 0 <= k < |shown| ==> c.rows[k] == MakeRow(rankings[gameKey], shown[k])
  {
    if gameKey !in rankings || |rankings[gameKey]| == 0 then NoScores
    else
      var list := rankings[gameKey];
      var shown := Displayed(list, filterName);
      if |shown| == 0 then NoMatch else Rows(RowsOf(list, shown))
  }

  lemma {:induction false} RowsOfSubsequence(list: seq<Entry>, a: seq<Entry>, b: seq<Entry>)
    requires IsSubsequence(a, b)
    ensures IsSubsequence(RowsOf(list, a), RowsOf(list, b))
    decreases |b|
  {
    if a != [] && b != [] {
      if a[0] == b[0] {
        RowsOfSubsequence(list, a[1..], b[1..]);
        assert RowsOf(list, a)[1..] == RowsOf(list, a[1..]);
        assert RowsOf(list, b)[1..] == RowsOf(list, b[1..]);
      } else {
        RowsOfSubsequence(list, a, b[1..]);
        assert RowsOf(list, b)[1..] == RowsOf(list, b[1..]);
        if RowsOf(list, a)[0] == RowsOf(list, b)[0] {
          // Equal rows carry equal entries, which would contradict a[0] != b[0].
          assert false;
        }
      }
    }
  }

  /**
   * Every shown row belongs to an entry of the list and carries that
   * entry's rank in the unfiltered list; filtering only drops rows of the
   * unfiltered card, keeping the order and every remaining row unchanged.
   */
  lemma FilterKeepsRanks(rankings: map<string, seq<Entry>>, gameKey: string, filterName: string)
    requires RenderCard(rankings, gameKey, filterName).Rows?
    ensures RenderCard(rankings, gameKey, "").Rows?
    ensures var rows := RenderCard(rankings, gameKey, filterName).rows;
      && IsSubsequence(rows, RenderCard(rankings, gameKey, "").rows)
      && forall k :: 0 <= k < |rows| ==>
           rows[k].item in rankings[gameKey] && rows[k] == MakeRow(rankings[gameKey], rows[k].item)
  {
    var list := rankings[gameKey];
    var shown := Displayed(list, filterName);
    assert Trim("") == "";
    assert RenderCard(rankings, gameKey, "") == Rows(RowsOf(list, list));
    assert RenderCard(rankings, gameKey, filterName) == Rows(RowsOf(list, shown));
    RowsOfSubsequence(list, shown, list);
    SubsequenceMembers(shown, list);
  }

  lemma {:induction false} SubsequenceMembers<T>(a: seq<T>, b: seq<T>)
    requires IsSubsequence(a, b)
    ensures forall x :: x in a ==> x in b
    decreases |b|
  {
    if a != [] && b != [] {
      if a[0] == b[0] {
        SubsequenceMembers(a[1..], b[1..]);
        assert forall x :: x in a ==> x == a[0] || x in a[1..];
      } else {
        SubsequenceMembers(a, b[1..]);
      }
    }
  }

  // ---------------------------------------------------------------------
  // Edit and filter state
  // ---------------------------------------------------------------------

  /** The arguments of an updateNickname call. */
  datatype UpdateCall = UpdateCall(id: int, gameName: string, score: int, newName: string)

  /** How handleEditSave ends. ThrewOnNull: trim was called on a null nickname. */
  datatype SaveOutcome = ThrewOnNull | EmptyName | UpdateFailed | Saved

  /**
   * The update handleEditSave sends for the nickname being edited: none
   * when that nickname is null (trim throws) or only white space; otherwise
   * the item's id, game and score with the trimmed name.
   */
  function SaveRequest(item: Entry, editingNickname: Option<string>): (r: Option<UpdateCall>)
    ensures r.None? <==> editingNickname.None? || AllSpace(editingNickname.value)
    ensures r.Some? ==>
      && r.value == UpdateCall(item.id, item.gameName, item.score, Trim(editingNickname.value))
      && r.value.newName != ""
      && !IsSpace(r.value.newName[0]) && !IsSpace(r.value.newName[|r.value.newName| - 1])
  {
    match editingNickname
    case None => None
    case Some(s) =>
      var newName := Trim(s);
      TrimEmptyIffAllSpace(s);
      if newName == "" then None
      else Some(UpdateCall(item.id, item.gameName, item.score, newName))
  }

  class Board {
    /** The id of the entry being edited, if any. */
    var editingId: Option<int>
    /** The nickname input's value; null when editing an entry without nickname. */
    var editingNickname: Option<string>
    /** The filter text box. */
    var filterInput: string
    /** The confirmed filter name. */
    var filterName: string

    constructor ()
      ensures editingId == None && editingNickname == Some("")
      ensures filterInput == "" && filterName == ""
    {
      editingId := None;
      editingNickname := Some("");
      filterInput := "";
      filterName := "";
    }

    /** The edit button: start editing the item with its current nickname. */
    method EditClick(item: Entry)
      modifies this
      ensures editingId == Some(item.id) && editingNickname == item.nickname
      ensures filterInput == old(filterInput) && filterName == old(filterName)
    {
      editingId := Some(item.id);
      editingNickname := item.nickname;
    }

    /** Typing in the nickname input. */
    method EditInput(value: string)
      modifies this
      ensures editingNickname == Some(value) && editingId == old(editingId)
      ensures filterInput == old(filterInput) && filterName == old(filterName)
    {
      editingNickname := Some(value);
    }

    /** The cancel button: stop editing. */
    method EditCancel()
      modifies this
      ensures editingId == None && editingNickname == Some("")
      ensures filterInput == old(filterInput) && filterName == old(filterName)
    {
      editingId := None;
      editingNickname := Some("");
    }

    /**
     * The save button. updateOk is what updateNickname would answer. A null
     * or blank nickname makes no call and changes nothing; otherwise the
     * call is made, and only its success ends the editing.
     */
    method EditSave(item: Entry, updateOk: bool) returns (call: Option<UpdateCall>, outcome: SaveOutcome)
      modifies this
      ensures call == SaveRequest(item, old(editingNickname))
      ensures outcome ==
        if old(editingNickname).None? then ThrewOnNull
        else if call.None? then EmptyName
        else if updateOk then Saved
        else UpdateFailed
      ensures outcome == Saved ==> editingId == None && editingNickname == Some("")
      ensures outcome != Saved ==> editingId == old(editingId) && editingNickname == old(editingNickname)
      ensures filterInput == old(filterInput) && filterName == old(filterName)
    {
      call := SaveRequest(item, editingNickname);
      if editingNickname.None? {
        return call, ThrewOnNull;
      }
      if call.None? {
        return call, EmptyName;
      }
      if !updateOk {
        return call, UpdateFailed;
      }
      editingId := None;
      editingNickname := Some("");
      outcome := Saved;
    }

    /**
     * The delete button. confirmed is the user's answer to the dialog and
     * deleteOk what deleteScore would answer. The editing state is cleared
     * exactly when the deletion succeeded and removed the entry being edited.
     */
    method Delete(id: int, confirmed: bool, deleteOk: bool) returns (called: bool)
      modifies this
      ensures called == confirmed
      ensures confirmed && deleteOk && old(editingId) == Some(id) ==>
        editingId == None && editingNickname == Some("")
      ensures !(confirmed && deleteOk && old(editingId) == Some(id)) ==>
        editingId == old(editingId) && editingNickname == old(editingNickname)
      ensures filterInput == old(filterInput) && filterName == old(filterName)
    {
      if !confirmed {
        return false;
      }
      called := true;
      if deleteOk {
        if editingId == Some(id) {
          editingId := None;
          editingNickname := Some("");
        }
      }
    }

    /** Typing in the filter box. */
    method FilterInput(value: string)
      modifies this
      ensures filterInput == value && filterName == old(filterName)
      ensures editingId == old(editingId) && editingNickname == old(editingNickname)
    {
      filterInput := value;
    }

    /** Enter in the filter box, or the confirm button. */
    method ConfirmFilter()
      modifies this
      ensures filterName == Trim(filterInput) && filterInput == old(filterInput)
      ensures editingId == old(editingId) && editingNickname == old(editingNickname)
    {
      filterName := Trim(filterInput);
    }

    /** The clear-filter button. */
    method ClearFilter()
      modifies this
      ensures filterInput == "" && filterName == ""
      ensures editingId == old(editingId) && editingNickname == old(editingNickname)
    {
      filterInput := "";
      filterName := "";
    }
  }
}
