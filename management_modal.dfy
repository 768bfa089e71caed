/** The bookmark manager dialog: checkbox selection, the per-row move
    menu with its busy flag, the batch move, and the date column. */
module ManagementModal {
  import opened Wrappers
  import opened Types

  // ---------------------------------------------------------------------
  // Selection

  /** `selected.filter(selectedId => selectedId !== id)`. */
  function Without(selected: seq<string>, id: string): (r: seq<string>)
    ensures id !in r
    ensures forall x :: x != id ==> multiset(r)[x] == multiset(selected)[x]
    ensures |r| <= |selected|
  {
    if selected == [] then []
    else
      assert selected == [selected[0]] + selected[1..];
      (if selected[0] == id then [] else [selected[0]]) + Without(selected[1..], id)
  }

  /** The checkbox of a row is checked when its id is selected. */
  predicate IsChecked(selected: seq<string>, id: string)
  {
    id in selected
  }

  /** The checkbox handler: checking appends the id (without looking for
      an earlier copy), unchecking removes every copy. */
  function OnCheckboxChange(selected: seq<string>, id: string, checked: bool): (r: seq<string>)
    ensures checked ==> |r| == |selected| + 1 && r[..|selected|] == selected && multiset(r)[id] == multiset(selected)[id] + 1
    ensures !checked ==> !IsChecked(r, id)
    ensures forall x :: x != id ==> multiset(r)[x] == multiset(selected)[x]
  {
    if checked then selected + [id] else Without(selected, id)
  }

  /** Unchecking after checking removes every copy of the id, including
      any that were there before; it restores the selection exactly when
      the id was not selected. */
  lemma {:induction false} CheckThenUncheck(selected: seq<string>, id: string)
    ensures OnCheckboxChange(OnCheckboxChange(selected, id, true), id, false) == Without(selected, id)
    ensures id !in selected ==> OnCheckboxChange(OnCheckboxChange(selected, id, true), id, false) == selected
  {
    WithoutAppend(selected, [id], id);
    assert Without([id], id) == [] by {
      assert [id][1..] == [];
    }
    if id !in selected {
      WithoutAbsent(selected, id);
    }
  }

  lemma {:induction false} WithoutAppend(a: seq<string>, b: seq<string>, id: string)
    ensures Without(a + b, id) == Without(a, id) + Without(b, id)
  {
    if a == [] {
      assert a + b == b;
    } else {
      assert (a + b)[1..] == a[1..] + b;
      WithoutAppend(a[1..], b, id);
    }
  }

  lemma {:induction false} WithoutAbsent(s: seq<string>, id: string)
    requires id !in s
    ensures Without(s, id) == s
  {
    if s != [] {
      WithoutAbsent(s[1..], id);
      assert s == [s[0]] + s[1..];
    }
  }

  // ---------------------------------------------------------------------
  // Moving

  /** One `onMoveBookmark(id, {parentId: folderId})` call. */
  datatype MoveRequest = MoveRequest(id: string, destination: Destination)

  function ToFolder(id: string, folderId: string): MoveRequest
  {
    MoveRequest(id, Destination(Some(folderId), None))
  }

  /** The toast shown at the end of an action. */
  datatype Notice = SelectFirst | MovedAll(count: nat) | MoveFailed | Moved

  /** `handleBatchMove`: nothing is moved for an empty selection; otherwise
      the selected ids are moved one by one in selection order until the
      first rejection, which ends the loop. The selection is cleared only
      when every move succeeded. `outcome(i)` is the fate of the i-th call. */
  method HandleBatchMove(selected: seq<string>, folderId: string, outcome: nat -> Outcome)
    returns (requests: seq<MoveRequest>, cleared: bool, notice: Notice)
    ensures selected == [] ==> requests == [] && !cleared && notice == SelectFirst
    ensures |requests| <= |selected|
    ensures forall i :: 0 <= i < |requests| ==> requests[i] == ToFolder(selected[i], folderId)
    ensures forall i :: 0 <= i < |requests| - 1 ==> outcome(i).Pass?
    ensures cleared <==> selected != [] && forall i :: 0 <= i < |selected| ==> outcome(i).Pass?
    ensures cleared ==> |requests| == |selected| && notice == MovedAll(|selected|)
    ensures selected != [] && !cleared ==> 0 < |requests| && outcome(|requests| - 1).Fail? && notice == MoveFailed
  {
    requests := [];
    if |selected| == 0 {
      return [], false, SelectFirst;
    }
    var i := 0;
    while i < |selected|
      invariant 0 <= i <= |selected|
      invariant |requests| == i
      invariant forall k :: 0 <= k < i ==> requests[k] == ToFolder(selected[k], folderId)
      invariant forall k :: 0 <= k < i ==> outcome(k).Pass?
    {
      requests := requests + [ToFolder(selected[i], folderId)];
      if outcome(i).Fail? {
        return requests, false, MoveFailed;
      }
      i := i + 1;
    }
    cleared, notice := true, MovedAll(|selected|);
  }

  /** The "move" button of a row: spinning for the row being moved,
      disabled on every row while any move runs. */
  function ButtonLoading(movingBookmarkId: Option<string>, recordId: string): bool
  {
    movingBookmarkId == Some(recordId)
  }

  function ButtonDisabled(movingBookmarkId: Option<string>): bool
  {
    movingBookmarkId.Some?
  }

  /** A spinning button is always disabled, and at most one row spins. */
  lemma ButtonStates(movingBookmarkId: Option<string>, a: string, b: string)
    ensures ButtonLoading(movingBookmarkId, a) ==> ButtonDisabled(movingBookmarkId)
    ensures ButtonLoading(movingBookmarkId, a) && ButtonLoading(movingBookmarkId, b) ==> a == b
    ensures !ButtonDisabled(movingBookmarkId) ==> !ButtonLoading(movingBookmarkId, a)
  {
  }

  class MoveMenu {
    var movingBookmarkId: Option<string>

    constructor()
      ensures movingBookmarkId == None
    {
      movingBookmarkId := None;
    }

    /** `handleMoveToFolder`: the row is marked busy for the duration of the
        request (`busy` is the flag while it runs) and cleared afterwards
        on success and on failure alike. */
    method HandleMoveToFolder(bookmarkId: string, folderId: string, outcome: Outcome)
      returns (request: MoveRequest, busy: Option<string>, notice: Notice)
      modifies this
      ensures busy == Some(bookmarkId)
      ensures request == ToFolder(bookmarkId, folderId)
      ensures notice == if outcome.Pass? then Moved else MoveFailed
      ensures movingBookmarkId == None
    {
      movingBookmarkId := Some(bookmarkId);
      busy := movingBookmarkId;
      request := ToFolder(bookmarkId, folderId);
      notice := if outcome.Pass? then Moved else MoveFailed;
      movingBookmarkId := None;
    }
  }

  // ---------------------------------------------------------------------
  // The date column

  /** `.replace(/\//g, '-')`. */
  function ReplaceSlashes(s: string): (r: string)
    ensures |r| == |s|
    ensures forall i :: 0 <= i < |s| ==> r[i] == if s[i] == '/' then '-' else s[i]
  {
    if s == [] then [] else [if s[0] == '/' then '-' else s[0]] + ReplaceSlashes(s[1..])
  }

  /** `formatDate(dateAdded)`: a missing or zero date shows "-"; any other
      is the locale rendering (a parameter here) with every slash turned
      into a dash. */
  function FormatDate(date: Option<int>, toLocaleString: int -> string): (r: string)
    ensures date.None? || date == Some(0) ==> r == "-"
    ensures date.Some? && date.value != 0 ==>
      |r| == |toLocaleString(date.value)| &&
      (forall i :: 0 <= i < |r| ==> r[i] == if toLocaleString(date.value)[i] == '/' then '-' else toLocaleString(date.value)[i])
    ensures '/' !in r
  {
    if date.None? || date.value == 0 then "-" else ReplaceSlashes(toLocaleString(date.value))
  }
}
