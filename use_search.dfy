/** `src/hooks/useSearch.ts`: the hook version of the search box. Its
    engine starts as Google and has no storage; a search opens the target
    in a new tab, which is the URL the search returns. */
module UseSearch {
  import opened Wrappers
  import opened JsText
  import opened Search

  class SearchHook {
    var searchQuery: string
    var selectedEngine: SearchEngine
    const searchEngines: seq<SearchEngine>

    constructor()
      ensures searchQuery == "" && selectedEngine == Google() && searchEngines == Engines()
    {
      searchQuery := "";
      selectedEngine := Google();
      searchEngines := Engines();
    }

    method SetSearchQuery(query: string)
      modifies this
      ensures searchQuery == query && selectedEngine == old(selectedEngine)
    {
      searchQuery := query;
    }

    method SetSelectedEngine(engine: SearchEngine)
      modifies this
      ensures selectedEngine == engine && searchQuery == old(searchQuery)
    {
      selectedEngine := engine;
    }

    /** `performSearch`: the URL tab in a new tab, if any. */
    method PerformSearch(query: string, encode: string -> string) returns (tab: Option<string>)
      ensures tab == SearchTarget(selectedEngine, query, encode)
    {
      if Trim(query) == "" {
        return None;
      }
      tab := Some(selectedEngine.searchUrl + encode(query));
    }

    /** `handleSearch`: searches the current query. */
    method HandleSearch(encode: string -> string) returns (tab: Option<string>)
      ensures tab.None? <==> IsBlank(searchQuery)
      ensures tab.Some? ==> tab.value == selectedEngine.searchUrl + encode(searchQuery)
    {
      tab := PerformSearch(searchQuery, encode);
    }

    /** `handleKeyPress`: Enter searches, every other key does nothing. */
    method HandleKeyPress(key: string, encode: string -> string) returns (tab: Option<string>)
      ensures key != "Enter" ==> tab.None?
      ensures key == "Enter" ==> tab == SearchTarget(selectedEngine, searchQuery, encode)
    {
      if key == "Enter" {
        tab := HandleSearch(encode);
      } else {
        tab := None;
      }
    }
  }
}
