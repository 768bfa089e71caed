/** The part of `useBookmarks` that the store does not have: the mount
    effect. The hook's state and operations are a `BookmarkCache` built
    with `InsertAfterTarget`. */
module UseBookmarks {
  import opened Wrappers
  import opened Types
  import opened Reorder
  import opened BookmarkStore

  /** The flags after a permission query resolved with `answer`: a
      resolved answer is stored, a rejected query changes nothing. */
  function Checked(st: ViewState, answer: Result<bool>): ViewState
  {
    if answer.Ok? then st.(permission := st.permission.(hasPermission := answer.value)) else st
  }

  /** One run of the mount effect, whose dependencies are
      `checkPermission` and `loadBookmarks`. The run holds the callbacks of
      the render that started it, so its load reads `renderedFlag`, the
      permission flag of that render, even after the check changed it. When
      the check leaves the flag different from `renderedFlag`,
      `loadBookmarks` gets a new identity and the effect runs again
      (`rerun`). */
  method EffectRun(hook: BookmarkCache, renderedFlag: bool, answer: Result<bool>, tree: Result<seq<Bookmark>>)
    returns (calls: seq<ApiCall>, rerun: bool)
    modifies hook
    ensures calls == [PermissionsContains] + (if answer == Ok(true) then LoadCalls(renderedFlag) else [])
    ensures answer == Ok(true) ==> hook.State() == AfterLoad(Checked(old(hook.State()), answer), renderedFlag, tree)
    ensures answer != Ok(true) ==> hook.State() == Checked(old(hook.State()), answer)
    ensures rerun <==> hook.permission.hasPermission != renderedFlag
  {
    var has;
    has, calls := hook.CheckPermission(answer);
    if has {
      var load := hook.Load(renderedFlag, tree);
      calls := calls + load;
    }
    rerun := hook.permission.hasPermission != renderedFlag;
  }

  /** The first two runs of the mount effect. The first run holds the
      callbacks of the first render, whose flag is still false, so its load
      does nothing even when the check says yes. That answer flips the flag
      and starts the second run, which checks again and loads when that
      check also says yes. A second answer of no flips the flag back and
      starts a third run (`thirdRun`). */
  method Init(hook: BookmarkCache, first: Result<bool>, second: Result<bool>, tree: Result<seq<Bookmark>>)
    returns (calls: seq<ApiCall>, thirdRun: bool)
    requires hook.State() == Initial()
    modifies hook
    ensures first != Ok(true) ==>
      calls == [PermissionsContains] && hook.State() == Initial() && !thirdRun
    ensures first == Ok(true) && second != Ok(true) ==>
      calls == [PermissionsContains, PermissionsContains] &&
      hook.bookmarks == [] && hook.folders == [] && hook.loading &&
      hook.permission.hasPermission == second.Err? &&
      (thirdRun <==> second == Ok(false))
    ensures first == Ok(true) && second == Ok(true) ==>
      calls == [PermissionsContains, PermissionsContains, GetTree] &&
      hook.State() == AfterLoad(Initial().(permission := PermissionState(true, false)), true, tree) &&
      !thirdRun
  {
    var rerun;
    calls, rerun := EffectRun(hook, hook.permission.hasPermission, first, tree);
    thirdRun := false;
    if rerun {
      var more;
      more, thirdRun := EffectRun(hook, hook.permission.hasPermission, second, tree);
      calls := calls + more;
    }
  }
}
