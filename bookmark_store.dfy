/** The bookmark cache: the global store of `src/store/bookmarkStore.ts`
    and the per-component state of `src/hooks/useBookmarks.ts`, which hold
    the same fields and run the same operations. The only behavioural
    difference between the two copies, the insert index of the local
    splice after a drag, is the constant `splice`. Every browser call is
    replaced by its outcome, passed in as a parameter, and each operation
    returns the calls it issued in order. */
module BookmarkStore {
  import opened Wrappers
  import opened Types
  import opened BookmarkTree
  import opened Reorder

  /** Everything a component can observe in the cache. */
  datatype ViewState = ViewState(
    bookmarks: seq<Bookmark>,
    folders: seq<Bookmark>,
    loading: bool,
    permission: PermissionState)

  /** Both copies start empty, loading, and without permission. */
  function Initial(): ViewState
  {
    ViewState([], [], true, PermissionState(false, false))
  }

  /** The state a load leaves behind, given whether it ran with the
      permission flag set and what `getTree` answered: nothing happens
      without permission; a rejected fetch only clears `loading`; otherwise
      both lists are replaced by the normalised tree. */
  function AfterLoad(st: ViewState, allowed: bool, tree: Result<seq<Bookmark>>): (r: ViewState)
    ensures r.permission == st.permission
  {
    if !allowed then st
    else if tree.Err? then st.(loading := false)
    else
      var folders := RootFolders(tree.value);
      st.(bookmarks := FlattenFolders(folders), folders := folders, loading := false)
  }

  /** What a load guarantees: the permission flags never change; without
      permission nothing changes (so `loading` keeps its initial `true`);
      with it `loading` ends false; a failed fetch keeps both lists; a
      successful one installs folders that are normalised copies and a flat
      list holding exactly their url-bearing descendants in pre-order, all
      with a url. */
  lemma AfterLoadSpec(st: ViewState, allowed: bool, tree: Result<seq<Bookmark>>)
    ensures var r := AfterLoad(st, allowed, tree);
      r.permission == st.permission &&
      (!allowed ==> r == st) &&
      (allowed ==> !r.loading) &&
      (allowed && tree.Err? ==> r.bookmarks == st.bookmarks && r.folders == st.folders) &&
      (allowed && tree.Ok? ==>
        r.folders == RootFolders(tree.value) &&
        WellFormedAll(r.folders) &&
        (forall f :: f in r.folders ==> f.url == "") &&
        r.bookmarks == UrlNodes(Descendants(r.folders)) &&
        (forall b :: b in r.bookmarks ==> b.url != ""))
  {
    if allowed && tree.Ok? {
      var folders := RootFolders(tree.value);
      RootFoldersOfBar(tree.value);
      FlattenFoldersIsUrlDescendants(folders);
      FlattenFoldersHasUrls(folders);
    }
  }

  /** Loading twice from the same tree is the same as loading once. */
  lemma AfterLoadIdempotent(st: ViewState, allowed: bool, tree: Result<seq<Bookmark>>)
    ensures AfterLoad(AfterLoad(st, allowed, tree), allowed, tree) == AfterLoad(st, allowed, tree)
  {
  }

  /** The trace of a load with the given flag. */
  function LoadCalls(allowed: bool): seq<ApiCall>
  {
    if allowed then [GetTree] else []
  }

  class BookmarkCache {
    const splice: SpliceVariant
    var bookmarks: seq<Bookmark>
    var folders: seq<Bookmark>
    var loading: bool
    var permission: PermissionState

    function State(): ViewState
      reads this
    {
      ViewState(bookmarks, folders, loading, permission)
    }

    constructor(splice: SpliceVariant)
      ensures this.splice == splice
      ensures State() == Initial()
    {
      this.splice := splice;
      bookmarks := [];
      folders := [];
      loading := true;
      permission := PermissionState(false, false);
    }

    /** `checkPermission`: a resolved query stores its answer and returns
        it, keeping `isRequesting`; a rejected one returns false and changes
        nothing. */
    method CheckPermission(contains: Result<bool>) returns (hasPermission: bool, calls: seq<ApiCall>)
      modifies this
      ensures calls == [PermissionsContains]
      ensures hasPermission == (contains == Ok(true))
      ensures contains.Ok? ==> State() == old(State()).(permission := old(permission).(hasPermission := contains.value))
      ensures contains.Err? ==> State() == old(State())
    {
      calls := [PermissionsContains];
      if contains.Err? {
        return false, calls;
      }
      hasPermission := contains.value;
      permission := permission.(hasPermission := hasPermission);
    }

    /** `requestPermission`: the flags are first set to "requesting, not
        granted" (returned as `pending`), then to the answer with
        `isRequesting` cleared; a rejected request counts as not granted. */
    method RequestPermission(request: Result<bool>) returns (granted: bool, pending: PermissionState, calls: seq<ApiCall>)
      modifies this
      ensures calls == [PermissionsRequest]
      ensures pending == PermissionState(false, true)
      ensures granted == (request == Ok(true))
      ensures State() == old(State()).(permission := PermissionState(granted, false))
    {
      permission := PermissionState(false, true);
      pending := permission;
      calls := [PermissionsRequest];
      granted := request.Ok? && request.value;
      permission := PermissionState(granted, false);
    }

    /** The body of `loadBookmarks`, run with the permission flag it reads:
        the store reads the current flag, the hook's callback the flag of
        the render that created it. Failures are swallowed; `loading` is
        cleared in every path that got past the permission test. */
    method Load(allowed: bool, tree: Result<seq<Bookmark>>) returns (calls: seq<ApiCall>)
      modifies this
      ensures calls == LoadCalls(allowed)
      ensures State() == AfterLoad(old(State()), allowed, tree)
    {
      if !allowed {
        return [];
      }
      loading := true;
      calls := [GetTree];
      if tree.Ok? {
        var newFolders, newBookmarks := Normalize(tree.value);
        bookmarks, folders := newBookmarks, newFolders;
      }
      loading := false;
    }

    /** `loadBookmarks` as the store runs it, reading the current flag. */
    method LoadBookmarks(tree: Result<seq<Bookmark>>) returns (calls: seq<ApiCall>)
      modifies this
      ensures calls == LoadCalls(old(permission.hasPermission))
      ensures State() == AfterLoad(old(State()), old(permission.hasPermission), tree)
    {
      calls := Load(permission.hasPermission, tree);
    }

    /** The permission flag a reload after a command reads. The store's
        commands call the store's current `loadBookmarks`, so it is the
        current flag. The hook's commands call the `loadBookmarks` their
        callback captured, so it is the flag of the render that created
        that callback, which is the current one unless the callback is
        stale. */
    predicate ReloadFlagFits(reloadFlag: bool)
      reads this
    {
      splice == InsertAtTarget ==> reloadFlag == permission.hasPermission
    }

    /** `createBookmark`: on success, reload with `reloadFlag` and return
        the new node; on a rejected create, rethrow without reloading. */
    method CreateBookmark(title: string, url: string, parentId: Option<string>,
                          created: Result<Bookmark>, reloadFlag: bool, tree: Result<seq<Bookmark>>)
      returns (r: Result<Bookmark>, calls: seq<ApiCall>)
      requires ReloadFlagFits(reloadFlag)
      modifies this
      ensures r == created
      ensures created.Ok? ==>
        calls == [Create(title, url, parentId)] + LoadCalls(reloadFlag) &&
        State() == AfterLoad(old(State()), reloadFlag, tree)
      ensures created.Err? ==> calls == [Create(title, url, parentId)] && State() == old(State())
    {
      calls := [Create(title, url, parentId)];
      r := created;
      if created.Ok? {
        var reload := Load(reloadFlag, tree);
        calls := calls + reload;
      }
    }

    /** `updateBookmark`: the same shape as create, without a result. */
    method UpdateBookmark(id: string, changes: BookmarkChanges, outcome: Outcome,
                          reloadFlag: bool, tree: Result<seq<Bookmark>>)
      returns (r: Outcome, calls: seq<ApiCall>)
      requires ReloadFlagFits(reloadFlag)
      modifies this
      ensures r == outcome
      ensures outcome.Pass? ==>
        calls == [Update(id, changes)] + LoadCalls(reloadFlag) &&
        State() == AfterLoad(old(State()), reloadFlag, tree)
      ensures outcome.Fail? ==> calls == [Update(id, changes)] && State() == old(State())
    {
      calls := [Update(id, changes)];
      r := outcome;
      if outcome.Pass? {
        var reload := Load(reloadFlag, tree);
        calls := calls + reload;
      }
    }

    /** `removeBookmark`. */
    method RemoveBookmark(id: string, outcome: Outcome, reloadFlag: bool, tree: Result<seq<Bookmark>>)
      returns (r: Outcome, calls: seq<ApiCall>)
      requires ReloadFlagFits(reloadFlag)
      modifies this
      ensures r == outcome
      ensures outcome.Pass? ==>
        calls == [Remove(id)] + LoadCalls(reloadFlag) &&
        State() == AfterLoad(old(State()), reloadFlag, tree)
      ensures outcome.Fail? ==> calls == [Remove(id)] && State() == old(State())
    {
      calls := [Remove(id)];
      r := outcome;
      if outcome.Pass? {
        var reload := Load(reloadFlag, tree);
        calls := calls + reload;
      }
    }

    /** `moveBookmark`: the destination is passed through unchanged. */
    method MoveBookmark(id: string, destination: Destination, outcome: Outcome,
                        reloadFlag: bool, tree: Result<seq<Bookmark>>)
      returns (r: Outcome, calls: seq<ApiCall>)
      requires ReloadFlagFits(reloadFlag)
      modifies this
      ensures r == outcome
      ensures outcome.Pass? ==>
        calls == [Move(id, destination)] + LoadCalls(reloadFlag) &&
        State() == AfterLoad(old(State()), reloadFlag, tree)
      ensures outcome.Fail? ==> calls == [Move(id, destination)] && State() == old(State())
    {
      calls := [Move(id, destination)];
      r := outcome;
      if outcome.Pass? {
        var reload := Load(reloadFlag, tree);
        calls := calls + reload;
      }
    }

    /** `moveBookmarkOptimized`: fetch both records, validate them, move
        the dragged one to `NewIndex`, and patch both cached lists locally.
        Every failure (a rejected fetch, a missing record, different parents,
        a missing index, a rejected move) is caught and turned into a full
        reload, run with `reloadFlag`; nothing is rethrown. The source's
        early return when the dragged index equals the new index is
        unreachable (see `NewIndex`). */
    method MoveBookmarkOptimized(draggedId: string, targetId: string,
                                 draggedGet: Result<seq<Bookmark>>, targetGet: Result<seq<Bookmark>>,
                                 moveOutcome: Outcome, reloadFlag: bool, tree: Result<seq<Bookmark>>)
      returns (calls: seq<ApiCall>)
      requires ReloadFlagFits(reloadFlag)
      modifies this
      ensures var plan := PlanMove(draggedGet, targetGet);
        var fetches := [Get(draggedId), Get(targetId)];
        if plan.Abort? then
          calls == fetches + LoadCalls(reloadFlag) &&
          State() == AfterLoad(old(State()), reloadFlag, tree)
        else
          var move := Move(draggedId, Destination(plan.parentId, Some(plan.newIndex)));
          if moveOutcome.Pass? then
            calls == fetches + [move] &&
            State() == old(State()).(bookmarks := LocalSplice(splice, old(bookmarks), draggedId, targetId),
                                     folders := PatchFolders(splice, old(folders), draggedId, targetId))
          else
            calls == fetches + [move] + LoadCalls(reloadFlag) &&
            State() == AfterLoad(old(State()), reloadFlag, tree)
    {
      calls := [Get(draggedId), Get(targetId)];
      var plan := PlanMove(draggedGet, targetGet);
      if plan.Abort? {
        var reload := Load(reloadFlag, tree);
        calls := calls + reload;
        return;
      }
      calls := calls + [Move(draggedId, Destination(plan.parentId, Some(plan.newIndex)))];
      if moveOutcome.Fail? {
        var reload := Load(reloadFlag, tree);
        calls := calls + reload;
        return;
      }
      bookmarks := LocalSplice(splice, bookmarks, draggedId, targetId);
      folders := PatchFolders(splice, folders, draggedId, targetId);
    }
  }

  /** A drag of a record that is missing, has another parent than the
      target, or has no index never reaches `move`, whatever the store's
      state. */
  lemma InvalidDragNeverMoves(draggedGet: Result<seq<Bookmark>>, targetGet: Result<seq<Bookmark>>)
    requires draggedGet.Ok? && targetGet.Ok?
    requires |draggedGet.value| == 0 || |targetGet.value| == 0 ||
             draggedGet.value[0].parentId != targetGet.value[0].parentId ||
             draggedGet.value[0].index.None? || targetGet.value[0].index.None?
    ensures PlanMove(draggedGet, targetGet).Abort?
  {
  }

  /** A successful optimistic move keeps the cache a permutation of what it
      was: the flat list and every folder's children are rearranged, never
      gained or lost. */
  lemma OptimisticMovePermutes(v: SpliceVariant, st: ViewState, draggedId: string, targetId: string)
    ensures var bs := LocalSplice(v, st.bookmarks, draggedId, targetId);
      var fs := PatchFolders(v, st.folders, draggedId, targetId);
      multiset(bs) == multiset(st.bookmarks) &&
      |fs| == |st.folders| &&
      forall i :: 0 <= i < |fs| ==> fs[i].id == st.folders[i].id && multiset(Kids(fs[i])) == multiset(Kids(st.folders[i]))
  {
    LocalSplicePermutes(v, st.bookmarks, draggedId, targetId);
    var fs := PatchFolders(v, st.folders, draggedId, targetId);
    forall i | 0 <= i < |fs|
      ensures fs[i].id == st.folders[i].id && multiset(Kids(fs[i])) == multiset(Kids(st.folders[i]))
    {
      PatchFoldersFrame(v, st.folders, draggedId, targetId, i);
    }
  }
}
