/** `src/store/backgroundStore.ts`: the background settings store. Its state
    is the settings, the `isLoaded` flag and the page the settings were
    applied to. The storage read and write are parameters: the read yields
    the saved record, no record, or an error; the write passes or fails. */
module BackgroundStore {
  import opened Wrappers
  import opened Theme

  datatype BackgroundState = BackgroundState(settings: BackgroundSettings, isLoaded: bool, page: Page)

  /** The store as created, over the page as it is before any apply. */
  function Initial(page: Page): BackgroundState
  {
    BackgroundState(DefaultSettings(), false, page)
  }

  /** `loadSettings`: a saved record is adopted and applied, no record
      applies the default without adopting it, a read error applies
      nothing; `isLoaded` is set on every path. */
  function Loaded(st: BackgroundState, stored: Result<Option<BackgroundSettings>>): (r: BackgroundState)
    ensures r.isLoaded
  {
    match stored
    case Ok(Some(saved)) => st.(settings := saved, page := ApplyStore(st.page, saved), isLoaded := true)
    case Ok(None) => st.(page := ApplyStore(st.page, DefaultSettings()), isLoaded := true)
    case Err(_) => st.(isLoaded := true)
  }

  /** `saveSettings`: the new settings are adopted and applied only after
      the storage write succeeds. */
  function Saved(st: BackgroundState, settings: BackgroundSettings, write: Outcome): (r: BackgroundState)
    ensures write.Fail? ==> r == st
  {
    if write.Pass? then st.(settings := settings, page := ApplyStore(st.page, settings)) else st
  }

  /** The resets at the end of `clearBackground`: the five background
      properties become empty and both overlay classes are removed. */
  function ClearStyles(p: Page): Page
  {
    p.(background := "", attachment := "", position := "", size := "", repeat := "",
       classes := p.classes - {ShowOverlay, HideOverlay})
  }

  /** `clearBackground`: the save of the default is awaited (it catches its
      own failure), then the resets run. */
  function Cleared(st: BackgroundState, write: Outcome): (r: BackgroundState)
    ensures r.page.background == "" && ShowOverlay !in r.page.classes && HideOverlay !in r.page.classes
  {
    var saved := Saved(st, DefaultSettings(), write);
    saved.(page := ClearStyles(saved.page))
  }

  class Store {
    var settings: BackgroundSettings
    var isLoaded: bool
    var page: Page

    function State(): BackgroundState
      reads this
    {
      BackgroundState(settings, isLoaded, page)
    }

    constructor(page: Page)
      ensures State() == Initial(page)
    {
      settings := DefaultSettings();
      isLoaded := false;
      this.page := page;
    }

    /** `setSettings`: replaces the settings and applies nothing. */
    method SetSettings(settings: BackgroundSettings)
      modifies this
      ensures State() == old(State()).(settings := settings)
    {
      this.settings := settings;
    }

    /** `applyBackground`: writes the decision of `ApplyStore` to the page. */
    method ApplyBackground(s: BackgroundSettings)
      modifies this
      ensures State() == old(State()).(page := ApplyStore(old(page), s))
    {
      page := ApplyStore(page, s);
    }

    method LoadSettings(stored: Result<Option<BackgroundSettings>>)
      modifies this
      ensures State() == Loaded(old(State()), stored)
    {
      match stored {
        case Ok(saved) =>
          if saved.Some? {
            settings := saved.value;
            ApplyBackground(saved.value);
          } else {
            ApplyBackground(DefaultSettings());
          }
          isLoaded := true;
        case Err(_) =>
          isLoaded := true;
      }
    }

    method SaveSettings(newSettings: BackgroundSettings, write: Outcome)
      modifies this
      ensures State() == Saved(old(State()), newSettings, write)
    {
      if write.Pass? {
        settings := newSettings;
        ApplyBackground(newSettings);
      }
    }

    method ClearBackground(write: Outcome)
      modifies this
      ensures State() == Cleared(old(State()), write)
    {
      SaveSettings(DefaultSettings(), write);
      page := ClearStyles(page);
    }
  }

  /** After `loadSettings` the store is loaded whatever the read gave; the
      settings change only to a saved record; without a saved record the
      page shows the default's light theme; a read error leaves the page as
      it was. */
  lemma LoadedSpec(st: BackgroundState, stored: Result<Option<BackgroundSettings>>)
    ensures var r := Loaded(st, stored);
      r.isLoaded &&
      (stored.Ok? && stored.value.Some? ==> r.settings == stored.value.value && r.page == ApplyStore(st.page, r.settings)) &&
      (!(stored.Ok? && stored.value.Some?) ==> r.settings == st.settings) &&
      (stored == Ok(None) ==>
        r.page.background == "#f5f5f5" && DarkTheme !in r.page.classes && ShowOverlay in r.page.classes &&
        HideOverlay !in r.page.classes && r.page.textPrimary == "#333333") &&
      (stored.Err? ==> r.page == st.page)
  {
    ApplyDefault(st.page);
  }

  /** A failed write changes nothing; a successful one adopts the settings
      and applies them, and a second successful save overrides the first
      entirely. */
  lemma SavedSpec(st: BackgroundState, s: BackgroundSettings, t: BackgroundSettings, write: Outcome)
    ensures write.Fail? ==> Saved(st, s, write) == st
    ensures write.Pass? ==> Saved(st, s, write).settings == s && Saved(st, s, write).isLoaded == st.isLoaded
    ensures Saved(Saved(st, s, Pass), t, Pass) == Saved(st, t, Pass)
  {
    LastApplyWinsStore(st.page, s, t);
  }

  /** `clearBackground` always ends with an empty background and no overlay
      class. When the write of the default succeeds, the settings are the
      default and, the default being light, the page has no dark theme and
      dark text; when it fails, the settings and the theme class are as
      before. */
  lemma ClearedSpec(st: BackgroundState, write: Outcome)
    ensures var r := Cleared(st, write);
      r.page.background == "" && r.page.attachment == "" && r.page.repeat == "" &&
      ShowOverlay !in r.page.classes && HideOverlay !in r.page.classes &&
      r.isLoaded == st.isLoaded &&
      (write.Pass? ==> r.settings == DefaultSettings() && DarkTheme !in r.page.classes && r.page.textPrimary == "#333333") &&
      (write.Fail? ==>
        r.settings == st.settings && (DarkTheme in r.page.classes <==> DarkTheme in st.page.classes) &&
        r.page.textPrimary == st.page.textPrimary)
  {
    ApplyDefault(st.page);
  }

  /** Loading is idempotent once the same record is read again. */
  lemma LoadedTwice(st: BackgroundState, stored: Result<Option<BackgroundSettings>>)
    ensures Loaded(Loaded(st, stored), stored) == Loaded(st, stored)
  {
    match stored {
      case Ok(Some(saved)) => LastApplyWinsStore(st.page, saved, saved);
      case Ok(None) => LastApplyWinsStore(st.page, DefaultSettings(), DefaultSettings());
      case Err(_) =>
    }
  }
}
