/** What `src/store/searchStore.ts` and `src/hooks/useSearch.ts` share: the
    list of engines (the same three records in both files), the lookup of
    an engine by its value, and the target URL of a search.
    `encodeURIComponent` is a parameter, `encode`, with no properties. */
module Search {
  import opened Wrappers
  import opened JsText

  datatype SearchEngine = SearchEngine(value: string, caption: string, icon: string, searchUrl: string)

  function Google(): SearchEngine
  {
    SearchEngine("google", "🔍 Google", "🔍", "https://www.google.com/search?q=")
  }

  function Bing(): SearchEngine
  {
    SearchEngine("bing", "🔍 Bing", "🔍", "https://www.bing.com/search?q=")
  }

  function Baidu(): SearchEngine
  {
    SearchEngine("baidu", "🔍 百度", "🔍", "https://www.baidu.com/s?wd=")
  }

  /** `DEFAULT_ENGINES` (the hook's `searchEngines` is the same list);
      `caption` is the record's `label`. */
  function Engines(): seq<SearchEngine>
  {
    [Google(), Bing(), Baidu()]
  }

  /** `engines.find(e => e.value === value)`: the first engine with that
      value, or none. */
  function FindEngine(engines: seq<SearchEngine>, value: string): (r: Option<SearchEngine>)
    ensures r.Some? ==>
      exists k :: 0 <= k < |engines| && engines[k] == r.value && r.value.value == value &&
        (forall j :: 0 <= j < k ==> engines[j].value != value)
    ensures r.None? <==> forall k :: 0 <= k < |engines| ==> engines[k].value != value
  {
    if engines == [] then None
    else if engines[0].value == value then Some(engines[0])
    else
      var r := FindEngine(engines[1..], value);
      assert r.Some? ==>
        exists k :: 1 <= k < |engines| && engines[k] == r.value && r.value.value == value &&
          (forall j :: 1 <= j < k ==> engines[j].value != value);
      r
  }

  /** `performSearch(query)`: nothing for a query that is blank once
      trimmed, otherwise the engine's URL followed by the encoding of the
      query as typed (not the trimmed one). */
  function SearchTarget(engine: SearchEngine, query: string, encode: string -> string): (r: Option<string>)
    ensures r.None? <==> IsBlank(query)
    ensures r.Some? ==> r.value == engine.searchUrl + encode(query)
  {
    TrimEmptyIffBlank(query);
    if Trim(query) == "" then None else Some(engine.searchUrl + encode(query))
  }

  /** The first engine is Google and no two engines share a value. */
  lemma EnginesDistinct()
    ensures Engines()[0] == Google()
    ensures forall i, j :: 0 <= i < j < |Engines()| ==> Engines()[i].value != Engines()[j].value
  {
  }

  /** Saving an engine's value and looking it up again gives back that
      engine, because the values are distinct. */
  lemma {:induction false} FindStoredEngine(engine: SearchEngine)
    requires engine in Engines()
    ensures FindEngine(Engines(), engine.value) == Some(engine)
  {
    EnginesDistinct();
    var r := FindEngine(Engines(), engine.value);
    var k :| 0 <= k < 3 && Engines()[k] == engine;
    assert r.Some?;
    var m :| 0 <= m < 3 && Engines()[m] == r.value && r.value.value == engine.value &&
      (forall j :: 0 <= j < m ==> Engines()[j].value != engine.value);
    assert m == k;
  }
}
