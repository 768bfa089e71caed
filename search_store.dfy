/** `src/store/searchStore.ts`: the query, the selected engine and the
    engine list. The storage read and write are parameters; navigating to
    the target (an assignment to `window.location.href`) is the URL the
    search returns. */
module SearchStore {
  import opened Wrappers
  import opened JsText
  import opened Search

  /** `loadSettings`: only a non-empty saved value that names one of the
      engines selects it; anything else, a read error included, keeps the
      current engine. */
  function RestoredEngine(current: SearchEngine, stored: Result<Option<string>>): (r: SearchEngine)
    ensures r == current || r in Engines()
    ensures r != current ==> stored.Ok? && stored.value.Some? && r.value == stored.value.value
  {
    match stored
    case Ok(Some(saved)) =>
      if saved != "" then
        match FindEngine(Engines(), saved)
        case Some(engine) => engine
        case None => current
      else current
    case _ => current
  }

  class SearchState {
    var searchQuery: string
    var selectedEngine: SearchEngine
    const searchEngines: seq<SearchEngine>

    constructor()
      ensures searchQuery == "" && selectedEngine == Google() && searchEngines == Engines()
    {
      searchQuery := "";
      selectedEngine := Engines()[0];
      searchEngines := Engines();
    }

    method SetSearchQuery(query: string)
      modifies this
      ensures searchQuery == query && selectedEngine == old(selectedEngine)
    {
      searchQuery := query;
    }

    /** The state changes before the write is attempted, so a failed write
        still selects the engine. The value written is returned. */
    method SetSelectedEngine(engine: SearchEngine, write: Outcome) returns (written: string)
      modifies this
      ensures selectedEngine == engine && searchQuery == old(searchQuery)
      ensures written == engine.value
    {
      selectedEngine := engine;
      written := engine.value;
      match write {
        case Pass =>
        case Fail(_) =>
      }
    }

    /** `performSearch`: the URL assigned to the location, if any. */
    method PerformSearch(query: string, encode: string -> string) returns (target: Option<string>)
      ensures target.None? <==> IsBlank(query)
      ensures target.Some? ==> target.value == selectedEngine.searchUrl + encode(query)
    {
      if Trim(query) == "" {
        TrimEmptyIffBlank(query);
        return None;
      }
      TrimEmptyIffBlank(query);
      target := Some(selectedEngine.searchUrl + encode(query));
    }

    method LoadSettings(stored: Result<Option<string>>)
      modifies this
      ensures selectedEngine == RestoredEngine(old(selectedEngine), stored)
      ensures searchQuery == old(searchQuery)
    {
      if stored.Ok? && stored.value.Some? && stored.value.value != "" {
        var engine := FindEngine(Engines(), stored.value.value);
        if engine.Some? {
          selectedEngine := engine.value;
        }
      }
    }
  }

  /** An engine selected and saved is the one a later load restores; an
      unknown value or a read error restores nothing. */
  lemma SaveThenLoad(current: SearchEngine, engine: SearchEngine, other: string, error: string)
    requires engine in Engines()
    requires forall k :: 0 <= k < |Engines()| ==> Engines()[k].value != other
    ensures RestoredEngine(current, Ok(Some(engine.value))) == engine
    ensures RestoredEngine(current, Ok(Some(other))) == current
    ensures RestoredEngine(current, Ok(None)) == current
    ensures RestoredEngine(current, Err(error)) == current
  {
    FindStoredEngine(engine);
  }
}
