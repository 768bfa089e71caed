/** `src/hooks/useBackground.ts`: the hook version of the background
    settings. It differs from the store in three ways: its apply leaves the
    overlay classes alone, a load without a saved record applies nothing,
    and `clearBackground` does not wait for the save, so the resets run
    before the save's apply. */
module UseBackground {
  import opened Wrappers
  import opened Theme

  datatype HookState = HookState(settings: BackgroundSettings, isLoaded: bool, page: Page)

  function Initial(page: Page): HookState
  {
    HookState(DefaultSettings(), false, page)
  }

  /** `loadSettings`: only a saved record is adopted and applied;
      `isLoaded` is set on every path. */
  function Loaded(st: HookState, stored: Result<Option<BackgroundSettings>>): (r: HookState)
    ensures r.isLoaded
  {
    match stored
    case Ok(Some(saved)) => st.(settings := saved, page := ApplyHook(st.page, saved), isLoaded := true)
    case _ => st.(isLoaded := true)
  }

  /** `saveSettings`: adopted and applied only after the write succeeds. */
  function Saved(st: HookState, settings: BackgroundSettings, write: Outcome): (r: HookState)
    ensures write.Fail? ==> r == st
  {
    if write.Pass? then st.(settings := settings, page := ApplyHook(st.page, settings)) else st
  }

  /** The resets of `clearBackground`: the five background properties only. */
  function ClearStyles(p: Page): Page
  {
    p.(background := "", attachment := "", position := "", size := "", repeat := "")
  }

  /** `clearBackground`: the save is started but not awaited, so the resets
      run first and, if the write succeeds, the apply of the default runs
      after them. */
  function Cleared(st: HookState, write: Outcome): (r: HookState)
    ensures r.isLoaded == st.isLoaded
  {
    Saved(st.(page := ClearStyles(st.page)), DefaultSettings(), write)
  }

  class BackgroundHook {
    var settings: BackgroundSettings
    var isLoaded: bool
    var page: Page

    function State(): HookState
      reads this
    {
      HookState(settings, isLoaded, page)
    }

    constructor(page: Page)
      ensures State() == Initial(page)
    {
      settings := DefaultSettings();
      isLoaded := false;
      this.page := page;
    }

    method ApplyBackground(s: BackgroundSettings)
      modifies this
      ensures State() == old(State()).(page := ApplyHook(old(page), s))
    {
      page := ApplyHook(page, s);
    }

    /** Also what the mount effect runs, once. */
    method LoadSettings(stored: Result<Option<BackgroundSettings>>)
      modifies this
      ensures State() == Loaded(old(State()), stored)
    {
      if stored.Ok? && stored.value.Some? {
        settings := stored.value.value;
        ApplyBackground(stored.value.value);
      }
      isLoaded := true;
    }

    method SaveSettings(newSettings: BackgroundSettings, write: Outcome)
      modifies this
      ensures State() == Saved(old(State()), newSettings, write)
    {
      if write.Pass? {
        settings := newSettings;
        ApplyBackground(newSettings);
      }
    }

    /** The part of `saveSettings` before its first `await` does nothing to
        the state, so the resets come first and the continuation after. */
    method ClearBackground(write: Outcome)
      modifies this
      ensures State() == Cleared(old(State()), write)
    {
      page := ClearStyles(page);
      SaveSettings(DefaultSettings(), write);
    }
  }

  /** The hook's load adopts and applies a saved record; with no record or
      a read error it touches neither the settings nor the page. */
  lemma LoadedSpec(st: HookState, stored: Result<Option<BackgroundSettings>>)
    ensures var r := Loaded(st, stored);
      r.isLoaded &&
      (stored.Ok? && stored.value.Some? ==> r.settings == stored.value.value && r.page == ApplyHook(st.page, r.settings)) &&
      (!(stored.Ok? && stored.value.Some?) ==> r.settings == st.settings && r.page == st.page)
  {
  }

  /** A failed write changes nothing; a successful one adopts and applies,
      and a later successful save overrides an earlier one. */
  lemma SavedSpec(st: HookState, s: BackgroundSettings, t: BackgroundSettings, write: Outcome)
    ensures write.Fail? ==> Saved(st, s, write) == st
    ensures write.Pass? ==> Saved(st, s, write).settings == s && Saved(st, s, write).isLoaded == st.isLoaded
    ensures Saved(Saved(st, s, Pass), t, Pass) == Saved(st, t, Pass)
  {
    LastApplyWinsHook(st.page, s, t);
  }

  /** Because the apply of the default runs after the resets, a successful
      clear leaves the `#f5f5f5` background in place (the store's leaves it
      empty); a failed one leaves it empty with the theme class untouched. */
  lemma ClearedSpec(st: HookState, write: Outcome)
    ensures var r := Cleared(st, write);
      r.isLoaded == st.isLoaded &&
      (write.Pass? ==>
        r.settings == DefaultSettings() && r.page.background == "#f5f5f5" && r.page.attachment == "" &&
        DarkTheme !in r.page.classes && r.page.textPrimary == "#333333") &&
      (write.Fail? ==>
        r.settings == st.settings && r.page.background == "" && r.page.classes == st.page.classes)
  {
    ApplyDefault(ClearStyles(st.page));
  }
}
