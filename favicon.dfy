/** `src/hooks/useFavicon.ts`: the favicon of a bookmark, found by probing
    three icon services in a fixed order. Whether a service's image loads
    before its timeout is a parameter (`loads(i)` for the `i`-th service);
    whether the bookmark's URL parses, and to which host name, is another.
    The hook's state cells and its mounted flag are fields of a class, and
    the steps of a load that the browser runs later (the 100 ms timer, the
    end of the probes) are methods of their own, so that an unmount can
    come between them. */
module Favicon {
  import opened Wrappers

  datatype Service = DuckDuckGo | GoogleS2 | ChromeFavicon

  /** `FAVICON_SERVICES`, in priority order. */
  function Services(): seq<Service>
  {
    [DuckDuckGo, GoogleS2, ChromeFavicon]
  }

  function Name(s: Service): string
  {
    match s
    case DuckDuckGo => "duckduckgo"
    case GoogleS2 => "google"
    case ChromeFavicon => "chrome"
  }

  /** The probe timeout of each service, in milliseconds. */
  function Timeout(s: Service): nat
  {
    match s
    case DuckDuckGo => 3000
    case GoogleS2 => 3000
    case ChromeFavicon => 1000
  }

  /** The icon URL of a service for a key (the host name, or the whole URL
      when the host name is empty). */
  function ServiceUrl(s: Service, key: string): string
  {
    match s
    case DuckDuckGo => "https://icons.duckduckgo.com/ip3/" + key + ".ico"
    case GoogleS2 => "https://www.google.com/s2/favicons?domain=" + key + "&sz=64"
    case ChromeFavicon => "chrome://favicon/" + key
  }

  /** `hostname || url`: every service, the `chrome` one included, is given
      the host name unless it is empty. */
  function ProbeKey(url: string, hostname: string): (key: string)
    ensures hostname != "" ==> key == hostname
    ensures hostname == "" ==> key == url
  {
    if hostname != "" then hostname else url
  }

  /** `tryService`: the service's icon URL when its image loads, `null`
      when it fails or times out. It never rejects. */
  function TryService(s: Service, url: string, hostname: string, loaded: bool): (r: Option<string>)
    ensures r.Some? <==> loaded
    ensures r.Some? ==> r.value == ServiceUrl(s, ProbeKey(url, hostname)) && r.value != ""
  {
    if loaded then Some(ServiceUrl(s, ProbeKey(url, hostname))) else None
  }

  /** `fetchFavicon`: the services are probed one after the other in list
      order, and the first icon found is returned without probing the rest.
      `tried` lists the services probed. */
  method FetchFavicon(url: string, hostname: string, loads: nat -> bool) returns (result: Option<string>, tried: seq<Service>)
    ensures 1 <= |tried| <= |Services()| && tried == Services()[..|tried|]
    ensures forall i :: 0 <= i < |tried| - 1 ==> !loads(i)
    ensures result.Some? ==>
      loads(|tried| - 1) && result.value == ServiceUrl(tried[|tried| - 1], ProbeKey(url, hostname))
    ensures result.None? ==> |tried| == |Services()| && forall i :: 0 <= i < |Services()| ==> !loads(i)
  {
    var services := Services();
    tried := [];
    var i := 0;
    while i < |services|
      invariant 0 <= i <= |services|
      invariant tried == services[..i]
      invariant forall j :: 0 <= j < i ==> !loads(j)
    {
      var service := services[i];
      tried := tried + [service];
      var iconUrl := TryService(service, url, hostname, loads(i));
      if iconUrl.Some? {
        return iconUrl, tried;
      }
      i := i + 1;
    }
    result := None;
  }

  /** `result || ''`. */
  function ShownIcon(result: Option<string>): string
  {
    if result.Some? then result.value else ""
  }

  class FaviconLoader {
    var url: string
    var faviconUrl: string
    var isLoading: bool
    /** `mountedRef.current`. */
    var mounted: bool
    /** A load timer is set and has neither fired nor been cleared. */
    var timerPending: bool

    constructor(url: string)
      ensures this.url == url && faviconUrl == "" && !isLoading && mounted && !timerPending
    {
      this.url := url;
      faviconUrl := "";
      isLoading := false;
      mounted := true;
      timerPending := false;
    }

    /** `loadFavicon`: nothing once unmounted; an invalid URL (`host` is
        `None`) clears the icon and the loading flag at once without a
        probe; a valid one sets the 100 ms timer. */
    method LoadFavicon(host: Option<string>)
      modifies this
      ensures url == old(url) && mounted == old(mounted)
      ensures !old(mounted) ==>
        faviconUrl == old(faviconUrl) && isLoading == old(isLoading) && timerPending == old(timerPending)
      ensures old(mounted) && host.None? ==>
        faviconUrl == "" && !isLoading && timerPending == old(timerPending)
      ensures old(mounted) && host.Some? ==>
        faviconUrl == old(faviconUrl) && isLoading == old(isLoading) && timerPending
    {
      if !mounted {
        return;
      }
      if host.None? {
        faviconUrl := "";
        isLoading := false;
        return;
      }
      timerPending := true;
    }

    /** The effect on `[url]`: a new non-empty URL starts a load. */
    method UrlChanged(newUrl: string, host: Option<string>)
      modifies this
      ensures url == newUrl && mounted == old(mounted)
      ensures newUrl == "" ==>
        faviconUrl == old(faviconUrl) && isLoading == old(isLoading) && timerPending == old(timerPending)
      ensures newUrl != "" && !old(mounted) ==>
        faviconUrl == old(faviconUrl) && isLoading == old(isLoading) && timerPending == old(timerPending)
      ensures newUrl != "" && old(mounted) && host.None? ==>
        faviconUrl == "" && !isLoading && timerPending == old(timerPending)
      ensures newUrl != "" && old(mounted) && host.Some? ==>
        faviconUrl == old(faviconUrl) && isLoading == old(isLoading) && timerPending
    {
      url := newUrl;
      if newUrl != "" {
        LoadFavicon(host);
      }
    }

    /** The timer fires: the probes start and the loading flag is set. */
    method TimerFires() returns (started: bool)
      modifies this
      ensures started == old(timerPending) && !timerPending
      ensures url == old(url) && faviconUrl == old(faviconUrl) && mounted == old(mounted)
      ensures isLoading == (old(timerPending) || old(isLoading))
    {
      started := timerPending;
      if timerPending {
        timerPending := false;
        isLoading := true;
      }
    }

    /** The probes end with `result`: shown, and loading ended, only while
        still mounted. */
    method ProbesEnd(result: Option<string>)
      modifies this
      ensures url == old(url) && mounted == old(mounted) && timerPending == old(timerPending)
      ensures old(mounted) ==> faviconUrl == ShownIcon(result) && !isLoading
      ensures !old(mounted) ==> faviconUrl == old(faviconUrl) && isLoading == old(isLoading)
    {
      if mounted {
        faviconUrl := ShownIcon(result);
      }
      if mounted {
        isLoading := false;
      }
    }

    /** The unmount cleanup: the flag drops and a pending timer is cleared. */
    method Unmount()
      modifies this
      ensures !mounted && !timerPending
      ensures url == old(url) && faviconUrl == old(faviconUrl) && isLoading == old(isLoading)
    {
      mounted := false;
      timerPending := false;
    }
  }
}
