/** The drag-reorder engine of `moveBookmarkOptimized`: the validation of
    the two fetched records, the index sent to the browser, and the local
    splice that patches the cached lists after a successful move. */
module Reorder {
  import opened Wrappers
  import opened Types

  // ---------------------------------------------------------------------
  // Validation and the API index

  datatype MoveError = FetchFailed(error: string) | RecordMissing | DifferentParent | IndexMissing

  /** What the code decides after reading both records. */
  datatype MoveDecision =
    | Proceed(parentId: Option<string>, draggedIndex: int, targetIndex: int, newIndex: int)
    | Abort(reason: MoveError)

  /** The index passed to `chrome.bookmarks.move`: the target's index when
      dragging upwards, one past it when dragging downwards. It never equals
      the dragged record's own index, so the source's early return for
      `dragged.index === newIndex` can never be taken. */
  function NewIndex(draggedIndex: int, targetIndex: int): (r: int)
    ensures r != draggedIndex
    ensures draggedIndex > targetIndex ==> r == targetIndex
    ensures draggedIndex <= targetIndex ==> r == targetIndex + 1 && r > draggedIndex
  {
    if draggedIndex > targetIndex then targetIndex else targetIndex + 1
  }

  /** The checks on the results of the two `chrome.bookmarks.get` calls:
      either call rejecting, an empty answer, different parents, or a
      missing index each abort the optimistic path. */
  function PlanMove(draggedGet: Result<seq<Bookmark>>, targetGet: Result<seq<Bookmark>>): (r: MoveDecision)
    ensures r.Proceed? <==>
      draggedGet.Ok? && targetGet.Ok? && |draggedGet.value| > 0 && |targetGet.value| > 0 &&
      draggedGet.value[0].parentId == targetGet.value[0].parentId &&
      draggedGet.value[0].index.Some? && targetGet.value[0].index.Some?
    ensures r.Proceed? ==>
      r.parentId == draggedGet.value[0].parentId &&
      r.draggedIndex == draggedGet.value[0].index.value &&
      r.targetIndex == targetGet.value[0].index.value &&
      r.newIndex == NewIndex(r.draggedIndex, r.targetIndex) &&
      r.newIndex != r.draggedIndex
  {
    if draggedGet.Err? then Abort(FetchFailed(draggedGet.error))
    else if targetGet.Err? then Abort(FetchFailed(targetGet.error))
    else if |draggedGet.value| == 0 || |targetGet.value| == 0 then Abort(RecordMissing)
    else
      var dragged := draggedGet.value[0];
      var target := targetGet.value[0];
      if dragged.parentId != target.parentId then Abort(DifferentParent)
      else if dragged.index.None? || target.index.None? then Abort(IndexMissing)
      else Proceed(dragged.parentId, dragged.index.value, target.index.value,
                   NewIndex(dragged.index.value, target.index.value))
  }

  /** Dropping a bookmark on itself is not a no-op: both fetches return the
      same record, so the checks pass and the index sent is one past its
      own, and `move` is called. */
  lemma SelfDropCallsMove(get: Result<seq<Bookmark>>)
    requires get.Ok? && |get.value| > 0 && get.value[0].index.Some?
    ensures var plan := PlanMove(get, get);
      plan.Proceed? && plan.newIndex == get.value[0].index.value + 1
  {
  }

  // ---------------------------------------------------------------------
  // Array helpers

  /** `list.findIndex(b => b.id === id)`: the first position holding `id`,
      or -1. */
  function FindIndex(s: seq<Bookmark>, id: string): (k: int)
    ensures -1 <= k < |s|
    ensures k >= 0 ==> s[k].id == id
  {
    if s == [] then -1
    else if s[0].id == id then 0
    else
      var k := FindIndex(s[1..], id);
      if k == -1 then -1 else k + 1
  }

  /** The index found is the first holding `id`, and -1 means no entry
      holds it. */
  lemma {:induction false} FindIndexSpec(s: seq<Bookmark>, id: string)
    ensures var k := FindIndex(s, id);
      (k >= 0 ==> forall j :: 0 <= j < k ==> s[j].id != id) &&
      (k == -1 <==> forall j :: 0 <= j < |s| ==> s[j].id != id)
  {
    if s != [] && s[0].id != id {
      FindIndexSpec(s[1..], id);
      assert forall j :: 1 <= j < |s| ==> s[j] == s[1..][j - 1];
    }
  }

  /** `list.splice(i, 1)`: the list without its i-th element. */
  function SpliceRemove(s: seq<Bookmark>, i: nat): (r: seq<Bookmark>)
    requires i < |s|
    ensures |r| == |s| - 1
  {
    s[..i] + s[i + 1..]
  }

  /** `list.splice(i, 0, x)`: `x` inserted before position `i`, or appended
      when `i` is past the end. */
  function SpliceInsert(s: seq<Bookmark>, i: nat, x: Bookmark): (r: seq<Bookmark>)
    ensures |r| == |s| + 1
  {
    var j := if i <= |s| then i else |s|;
    s[..j] + [x] + s[j..]
  }

  /** Removing takes out exactly the i-th element. */
  lemma SpliceRemoveCount(s: seq<Bookmark>, i: nat)
    requires i < |s|
    ensures multiset(SpliceRemove(s, i)) + multiset{s[i]} == multiset(s)
  {
    assert s == s[..i] + [s[i]] + s[i + 1..];
  }

  /** Inserting adds exactly `x`, wherever it goes. */
  lemma SpliceInsertCount(s: seq<Bookmark>, i: nat, x: Bookmark)
    ensures multiset(SpliceInsert(s, i, x)) == multiset(s) + multiset{x}
  {
    var j := if i <= |s| then i else |s|;
    assert s == s[..j] + s[j..];
  }

  // ---------------------------------------------------------------------
  // The local splice

  /** Where each copy re-inserts the dragged entry after removing it: the
      store at the target's old position, the hook one further on when
      dragging upwards. */
  datatype SpliceVariant = InsertAtTarget | InsertAfterTarget

  function InsertIndex(v: SpliceVariant, draggedPos: nat, targetPos: nat): nat
  {
    match v
    case InsertAtTarget => targetPos
    case InsertAfterTarget => if draggedPos < targetPos then targetPos else targetPos + 1
  }

  /** The patch of one cached list: find both ids; if both are present,
      take the dragged entry out and put it back at the variant's insert
      index; otherwise leave the list as it is. */
  function LocalSplice(v: SpliceVariant, s: seq<Bookmark>, draggedId: string, targetId: string): (r: seq<Bookmark>)
    ensures |r| == |s|
    ensures FindIndex(s, draggedId) == -1 || FindIndex(s, targetId) == -1 ==> r == s
  {
    var d := FindIndex(s, draggedId);
    var t := FindIndex(s, targetId);
    if d != -1 && t != -1 then SpliceInsert(SpliceRemove(s, d), InsertIndex(v, d, t), s[d]) else s
  }

  /** The patch is a permutation of the list: nothing is lost or duplicated. */
  lemma LocalSplicePermutes(v: SpliceVariant, s: seq<Bookmark>, draggedId: string, targetId: string)
    ensures multiset(LocalSplice(v, s, draggedId, targetId)) == multiset(s)
  {
    var d := FindIndex(s, draggedId);
    var t := FindIndex(s, targetId);
    if d != -1 && t != -1 {
      SpliceRemoveCount(s, d);
      SpliceInsertCount(SpliceRemove(s, d), InsertIndex(v, d, t), s[d]);
    }
  }

  /** Taking out position `d` and re-inserting it further down at `t`: the
      entries after `d` up to the target move up one place. */
  lemma MoveDownShape(s: seq<Bookmark>, d: nat, t: nat)
    requires d < t < |s|
    ensures var w := s[..d] + s[d + 1..t + 1] + [s[d]] + s[t + 1..];
      SpliceInsert(SpliceRemove(s, d), t, s[d]) == w && w[t - 1] == s[t] && w[t] == s[d]
  {
    var u := s[..d] + s[d + 1..];
    assert u[..t] == s[..d] + s[d + 1..t + 1];
    assert u[t..] == s[t + 1..];
  }

  /** Taking out position `d` and re-inserting it further up at `j`: the
      entries from `j` up to `d` move down one place. */
  lemma MoveUpShape(s: seq<Bookmark>, d: nat, j: nat)
    requires j <= d < |s|
    ensures var w := s[..j] + [s[d]] + s[j..d] + s[d + 1..];
      SpliceInsert(SpliceRemove(s, d), j, s[d]) == w &&
      w[j] == s[d] && (j < d ==> w[j + 1] == s[j]) && (0 < j ==> w[j - 1] == s[j - 1])
  {
    var u := s[..d] + s[d + 1..];
    assert u[..j] == s[..j];
    assert u[j..] == s[j..d] + s[d + 1..];
  }

  /** Taking out position `d` and re-inserting it there gives the list back. */
  lemma MoveInPlace(s: seq<Bookmark>, d: nat)
    requires d < |s|
    ensures SpliceInsert(SpliceRemove(s, d), d, s[d]) == s
  {
    MoveUpShape(s, d, d);
    assert s[d..d] == [];
    assert s == s[..d] + [s[d]] + s[d + 1..];
  }

  /** Downward drag in either copy: the target and everything between move
      up one place and the dragged entry lands right after the target. */
  lemma ReorderDownward(v: SpliceVariant, s: seq<Bookmark>, draggedId: string, targetId: string)
    requires 0 <= FindIndex(s, draggedId) < FindIndex(s, targetId)
    ensures var d, t := FindIndex(s, draggedId), FindIndex(s, targetId);
      var r := LocalSplice(v, s, draggedId, targetId);
      r == s[..d] + s[d + 1..t + 1] + [s[d]] + s[t + 1..] &&
      r[t - 1].id == targetId && r[t].id == draggedId
  {
    var d, t := FindIndex(s, draggedId), FindIndex(s, targetId);
    var r := LocalSplice(v, s, draggedId, targetId);
    assert r == SpliceInsert(SpliceRemove(s, d), t, s[d]) by {
      ReorderFound(v, s, draggedId, targetId);
      assert InsertIndex(v, d, t) == t;
    }
    assert r == s[..d] + s[d + 1..t + 1] + [s[d]] + s[t + 1..] && r[t - 1] == s[t] && r[t] == s[d] by {
      MoveDownShape(s, d, t);
    }
  }

  /** Upward drag in the store: the dragged entry takes the target's place
      and ends up right before it. */
  lemma StoreReorderUpward(s: seq<Bookmark>, draggedId: string, targetId: string)
    requires 0 <= FindIndex(s, targetId) < FindIndex(s, draggedId)
    ensures var d, t := FindIndex(s, draggedId), FindIndex(s, targetId);
      var r := LocalSplice(InsertAtTarget, s, draggedId, targetId);
      r == s[..t] + [s[d]] + s[t..d] + s[d + 1..] &&
      r[t].id == draggedId && r[t + 1].id == targetId
  {
    var d, t := FindIndex(s, draggedId), FindIndex(s, targetId);
    var r := LocalSplice(InsertAtTarget, s, draggedId, targetId);
    assert r == SpliceInsert(SpliceRemove(s, d), t, s[d]) by {
      ReorderFound(InsertAtTarget, s, draggedId, targetId);
    }
    assert r == s[..t] + [s[d]] + s[t..d] + s[d + 1..] && r[t] == s[d] && r[t + 1] == s[t] by {
      MoveUpShape(s, d, t);
    }
  }

  /** Upward drag in the hook: the dragged entry lands right after the
      target, not before it. */
  lemma HookReorderUpward(s: seq<Bookmark>, draggedId: string, targetId: string)
    requires 0 <= FindIndex(s, targetId) < FindIndex(s, draggedId)
    ensures var d, t := FindIndex(s, draggedId), FindIndex(s, targetId);
      var r := LocalSplice(InsertAfterTarget, s, draggedId, targetId);
      r == s[..t + 1] + [s[d]] + s[t + 1..d] + s[d + 1..] &&
      r[t].id == targetId && r[t + 1].id == draggedId
  {
    var d, t := FindIndex(s, draggedId), FindIndex(s, targetId);
    var r := LocalSplice(InsertAfterTarget, s, draggedId, targetId);
    assert r == SpliceInsert(SpliceRemove(s, d), t + 1, s[d]) by {
      ReorderFound(InsertAfterTarget, s, draggedId, targetId);
      assert InsertIndex(InsertAfterTarget, d, t) == t + 1;
    }
    assert r == s[..t + 1] + [s[d]] + s[t + 1..d] + s[d + 1..] && r[t] == s[t] && r[t + 1] == s[d] by {
      MoveUpShape(s, d, t + 1);
    }
  }

  /** The store's patch puts the dragged entry right after the target when
      it started before it, and right before the target when it started
      after it. */
  lemma StoreReorderPlacement(s: seq<Bookmark>, draggedId: string, targetId: string)
    requires FindIndex(s, draggedId) >= 0 && FindIndex(s, targetId) >= 0 && draggedId != targetId
    ensures var d, t := FindIndex(s, draggedId), FindIndex(s, targetId);
      var r := LocalSplice(InsertAtTarget, s, draggedId, targetId);
      (d < t ==> r[t - 1].id == targetId && r[t].id == draggedId) &&
      (d > t ==> r[t].id == draggedId && r[t + 1].id == targetId)
  {
    var d, t := FindIndex(s, draggedId), FindIndex(s, targetId);
    if d < t {
      ReorderDownward(InsertAtTarget, s, draggedId, targetId);
    } else {
      assert d != t by {
        assert s[d].id == draggedId && s[t].id == targetId;
      }
      StoreReorderUpward(s, draggedId, targetId);
    }
  }

  /** For distinct ids the hook's patch always puts the dragged entry right
      after the target, whichever way it was dragged. */
  lemma HookReorderAfterTarget(s: seq<Bookmark>, draggedId: string, targetId: string)
    requires FindIndex(s, draggedId) >= 0 && FindIndex(s, targetId) >= 0 && draggedId != targetId
    ensures var d, t := FindIndex(s, draggedId), FindIndex(s, targetId);
      var p := if d < t then t else t + 1;
      var r := LocalSplice(InsertAfterTarget, s, draggedId, targetId);
      1 <= p < |r| && r[p].id == draggedId && r[p - 1].id == targetId
  {
    var d, t := FindIndex(s, draggedId), FindIndex(s, targetId);
    if d < t {
      ReorderDownward(InsertAfterTarget, s, draggedId, targetId);
    } else {
      assert d != t by {
        assert s[d].id == draggedId && s[t].id == targetId;
      }
      HookReorderUpward(s, draggedId, targetId);
    }
  }

  /** Dropping an entry on itself leaves the store's list as it was. */
  lemma StoreReorderOntoItself(s: seq<Bookmark>, id: string)
    requires FindIndex(s, id) >= 0
    ensures LocalSplice(InsertAtTarget, s, id, id) == s
  {
    var d := FindIndex(s, id);
    var r := LocalSplice(InsertAtTarget, s, id, id);
    assert r == SpliceInsert(SpliceRemove(s, d), d, s[d]) by {
      ReorderFound(InsertAtTarget, s, id, id);
    }
    assert r == s by {
      MoveInPlace(s, d);
    }
  }

  /** Dropping an entry on itself in the hook moves it one place further
      down; the last entry stays where it is. */
  lemma HookReorderOntoItself(s: seq<Bookmark>, id: string)
    requires FindIndex(s, id) >= 0
    ensures var d := FindIndex(s, id);
      LocalSplice(InsertAfterTarget, s, id, id) ==
        if d + 1 < |s| then s[..d] + [s[d + 1], s[d]] + s[d + 2..] else s
  {
    var d := FindIndex(s, id);
    ReorderFound(InsertAfterTarget, s, id, id);
    if d + 1 < |s| {
      SwapWithNext(s, d);
    } else {
      SpliceAppendLast(s);
    }
  }

  /** Taking out position `d` and re-inserting it one place further on. */
  lemma SwapWithNext(s: seq<Bookmark>, d: nat)
    requires d + 1 < |s|
    ensures SpliceInsert(SpliceRemove(s, d), d + 1, s[d]) == s[..d] + [s[d + 1], s[d]] + s[d + 2..]
  {
    var u := s[..d] + s[d + 1..];
    var x, y := s[d], s[d + 1];
    assert u[..d + 1] == s[..d] + [y];
    assert u[d + 1..] == s[d + 2..];
    assert [y] + [x] == [y, x];
    assert s[..d] + [y] + [x] + s[d + 2..] == s[..d] + ([y] + [x]) + s[d + 2..];
  }

  /** With both ids present the patch is a remove followed by an insert. */
  lemma ReorderFound(v: SpliceVariant, s: seq<Bookmark>, draggedId: string, targetId: string)
    requires FindIndex(s, draggedId) >= 0 && FindIndex(s, targetId) >= 0
    ensures var d, t := FindIndex(s, draggedId), FindIndex(s, targetId);
      LocalSplice(v, s, draggedId, targetId) == SpliceInsert(SpliceRemove(s, d), InsertIndex(v, d, t), s[d])
  {
  }

  /** Removing the last entry and appending it again gives the list back. */
  lemma SpliceAppendLast(s: seq<Bookmark>)
    requires |s| > 0
    ensures SpliceInsert(SpliceRemove(s, |s| - 1), |s|, s[|s| - 1]) == s
  {
    var u := SpliceRemove(s, |s| - 1);
    assert u == s[..|s| - 1];
    assert s == s[..|s| - 1] + [s[|s| - 1]];
  }

  /** The two copies disagree on every upward drag. */
  lemma VariantsDisagreeUpward(s: seq<Bookmark>, draggedId: string, targetId: string)
    requires 0 <= FindIndex(s, targetId) < FindIndex(s, draggedId)
    ensures LocalSplice(InsertAtTarget, s, draggedId, targetId) != LocalSplice(InsertAfterTarget, s, draggedId, targetId)
  {
    var t := FindIndex(s, targetId);
    StoreReorderUpward(s, draggedId, targetId);
    HookReorderUpward(s, draggedId, targetId);
    assert LocalSplice(InsertAtTarget, s, draggedId, targetId)[t].id != LocalSplice(InsertAfterTarget, s, draggedId, targetId)[t].id;
  }

  /** On an upward drag, reading list positions as sibling indices: the
      index sent to the API is the target's, the store's patch puts the
      dragged entry at that index, and the hook's patch puts it one further
      on, leaving the target there instead. */
  lemma UpwardDragVersusApiIndex(s: seq<Bookmark>, draggedId: string, targetId: string)
    requires 0 <= FindIndex(s, targetId) < FindIndex(s, draggedId)
    ensures var d, t := FindIndex(s, draggedId), FindIndex(s, targetId);
      var sent := NewIndex(d, t);
      sent == t &&
      LocalSplice(InsertAtTarget, s, draggedId, targetId)[sent].id == draggedId &&
      LocalSplice(InsertAfterTarget, s, draggedId, targetId)[sent].id == targetId &&
      LocalSplice(InsertAfterTarget, s, draggedId, targetId)[sent + 1].id == draggedId
  {
    StoreReorderUpward(s, draggedId, targetId);
    HookReorderUpward(s, draggedId, targetId);
  }

  /** On a downward drag both copies put the dragged entry at the target's
      old position, one below the index sent. */
  lemma DownwardDragVersusApiIndex(v: SpliceVariant, s: seq<Bookmark>, draggedId: string, targetId: string)
    requires 0 <= FindIndex(s, draggedId) < FindIndex(s, targetId)
    ensures var d, t := FindIndex(s, draggedId), FindIndex(s, targetId);
      NewIndex(d, t) == t + 1 &&
      LocalSplice(v, s, draggedId, targetId)[NewIndex(d, t) - 1].id == draggedId
  {
    ReorderDownward(v, s, draggedId, targetId);
  }

  // ---------------------------------------------------------------------
  // The folders patch

  /** `folder.children.some(child => child.id === id)`. */
  predicate HasChild(folder: Bookmark, id: string)
  {
    folder.children.Children? &&
    exists k :: 0 <= k < |folder.children.items| && folder.children.items[k].id == id
  }

  /** A folder whose children hold the dragged id gets its children
      re-spliced; every other folder is returned as it was. */
  function PatchFolder(v: SpliceVariant, folder: Bookmark, draggedId: string, targetId: string): (r: Bookmark)
    ensures r.(children := folder.children) == folder
    ensures r.children.Children? == folder.children.Children?
    ensures multiset(Kids(r)) == multiset(Kids(folder))
    ensures !HasChild(folder, draggedId) ==> r == folder
  {
    if HasChild(folder, draggedId) then
      LocalSplicePermutes(v, folder.children.items, draggedId, targetId);
      folder.(children := Children(LocalSplice(v, folder.children.items, draggedId, targetId)))
    else folder
  }

  /** `folders.map(...)` with the per-folder patch. */
  function PatchFolders(v: SpliceVariant, folders: seq<Bookmark>, draggedId: string, targetId: string): (r: seq<Bookmark>)
    ensures |r| == |folders|
    ensures forall i :: 0 <= i < |folders| ==> r[i] == PatchFolder(v, folders[i], draggedId, targetId)
  {
    seq(|folders|, i requires 0 <= i < |folders| => PatchFolder(v, folders[i], draggedId, targetId))
  }

  /** The folders patch keeps every folder in place with its id and fields;
      a folder not containing the dragged id is untouched, and every
      folder's children are a permutation of what they were. */
  lemma PatchFoldersFrame(v: SpliceVariant, folders: seq<Bookmark>, draggedId: string, targetId: string, i: nat)
    requires i < |folders|
    ensures var r := PatchFolders(v, folders, draggedId, targetId);
      r[i].id == folders[i].id && r[i].title == folders[i].title && r[i].url == folders[i].url &&
      multiset(Kids(r[i])) == multiset(Kids(folders[i])) &&
      (!HasChild(folders[i], draggedId) ==> r[i] == folders[i])
  {
  }
}
