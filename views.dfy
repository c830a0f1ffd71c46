/** The pure arithmetic and selection rules behind the bot's lists: paging of the
    keyboard (`build_config_list_keyboard`, `handle_page`), the choice between the
    catalog order and the ranked view, the country filter, the download subset, and the
    dispatch of the menu actions. */
module Views {

  import opened Wrappers
  import opened Text

  /** Descriptors per keyboard page. */
  const ItemsPerPage: nat := 8

  /** Seconds a ranked view stays usable for paging. */
  const RankedViewTtl: real := 900.0

  function Min(a: int, b: int): int { if a <= b then a else b }
  function Max(a: int, b: int): int { if a >= b then a else b }

  /** `(n + ITEMS_PER_PAGE - 1) // ITEMS_PER_PAGE`: the number of pages of `n` items. */
  function PagesTotal(n: nat): (t: nat)
    ensures t * ItemsPerPage >= n
    ensures t > 0 ==> (t - 1) * ItemsPerPage < n
  {
    (n + ItemsPerPage - 1) / ItemsPerPage
  }

  /** The first position shown on `page`. */
  function PageStart(page: nat): nat { page * ItemsPerPage }

  /** One past the last position shown on `page` of a list of `n`: `min(start + 8, n)`. */
  function PageEnd(page: nat, n: nat): (e: int)
    ensures e <= n && e <= PageStart(page) + ItemsPerPage
    ensures e == n || e == PageStart(page) + ItemsPerPage
  {
    Min(PageStart(page) + ItemsPerPage, n)
  }

  /** The positions listed on `page`, in order (empty when `end <= start`). */
  function PageSlice<T>(list: seq<T>, page: nat): (r: seq<T>)
    ensures |r| == Max(0, Min(ItemsPerPage, |list| - PageStart(page)))
    ensures forall k :: 0 <= k < |r| ==> r[k] == list[PageStart(page) + k]
  {
    if PageEnd(page, |list|) > PageStart(page) then list[PageStart(page)..PageEnd(page, |list|)] else []
  }

  /** The navigation row: a back arrow, the `page + 1 / total` label and a forward arrow. */
  datatype Nav = Nav(prev: bool, shown: nat, pages: nat, next: bool)

  function Navigation(page: nat, n: nat): (r: Nav)
    ensures r.prev <==> page > 0
    // the forward arrow appears exactly when a later position exists
    ensures r.next <==> PageStart(page) + ItemsPerPage < n
    ensures r.shown == page + 1 && r.pages == PagesTotal(n)
  {
    Nav(page > 0, page + 1, PagesTotal(n), PageEnd(page, n) < n)
  }

  /** The range check of `handle_page` against a session of `n` descriptors. */
  predicate PageAccepted(page: int, n: nat) {
    !(page < 0 || page >= PagesTotal(n))
  }

  /** A page is accepted exactly when it shows at least one of the `n` descriptors. */
  lemma PageAcceptedIff<T>(page: int, list: seq<T>)
    ensures PageAccepted(page, |list|) <==> page >= 0 && PageStart(page) < |list|
    ensures PageAccepted(page, |list|) ==> |PageSlice(list, page)| > 0
  {
  }

  /** Paging covers the list: position `i` is shown on page `i / 8`, at offset `i % 8`,
      and that page is accepted. */
  lemma PagesCover<T>(list: seq<T>, i: nat)
    requires i < |list|
    ensures PageAccepted(i / ItemsPerPage, |list|)
    ensures i % ItemsPerPage < |PageSlice(list, i / ItemsPerPage)|
    ensures PageSlice(list, i / ItemsPerPage)[i % ItemsPerPage] == list[i]
  {
    assert PageStart(i / ItemsPerPage) + i % ItemsPerPage == i;
  }

  /** A ranked view and the time it was stored. */
  datatype RankedView = RankedView(ranked: seq<string>, stamp: real)

  /** The list `build_config_list_keyboard` pages through: the ranked view when it is asked
      for, exists and is not older than the TTL (an age of exactly 900 s still counts);
      the catalog order otherwise. */
  function ViewList(configs: seq<string>, ranked: Option<RankedView>, useSorted: bool, now: real): (r: seq<string>)
    ensures r == configs || (useSorted && ranked.Some? && r == ranked.value.ranked)
    ensures useSorted && ranked.Some? && now - ranked.value.stamp <= RankedViewTtl ==> r == ranked.value.ranked
    ensures !useSorted || ranked.None? || now - ranked.value.stamp > RankedViewTtl ==> r == configs
  {
    if useSorted && ranked.Some? then
      if now - ranked.value.stamp > RankedViewTtl then configs else ranked.value.ranked
    else configs
  }

  /** `country in (c.split("#")[-1].lower() if "#" in c else "")`, with `country` lowered. */
  predicate CountryMatches(config: string, country: string) {
    Contains(if '#' in config then Lower(AfterLast(config, '#')) else "", Lower(country))
  }

  /** A descriptor without a `#` tag never matches a non-empty country code. */
  lemma UntaggedNeverMatches(config: string, country: string)
    requires '#' !in config && country != []
    ensures !CountryMatches(config, country)
  {
  }

  /** The country code is looked for in the tag after the last `#` only: the host,
      the user part and earlier tags play no part. */
  lemma TagDecides(body: string, tag: string, country: string)
    requires '#' !in tag
    ensures CountryMatches(body + "#" + tag, country) <==> Contains(Lower(tag), Lower(country))
  {
    AfterLastSuffix(body, tag, '#');
    assert '#' in body + "#" + tag by { assert (body + "#" + tag)[|body|] == '#'; }
  }

  /** The descriptors whose tag holds the country code, in catalog order. */
  function CountryFilter(configs: seq<string>, country: string): (r: seq<string>)
    ensures |r| <= |configs|
    ensures forall i :: 0 <= i < |r| ==> CountryMatches(r[i], country)
  {
    if configs == [] then []
    else
      CountryFilter(configs[..|configs| - 1], country)
      + if CountryMatches(configs[|configs| - 1], country) then [configs[|configs| - 1]] else []
  }

  /** The filter keeps every matching descriptor as often as the catalog lists it, and
      nothing else. */
  lemma {:induction false} CountryFilterCounts(configs: seq<string>, country: string)
    ensures forall c :: multiset(CountryFilter(configs, country))[c]
                        == if CountryMatches(c, country) then multiset(configs)[c] else 0
  {
    if configs != [] {
      var init := configs[..|configs| - 1];
      var last := configs[|configs| - 1];
      assert configs == init + [last];
      CountryFilterCounts(init, country);
    }
  }

  /** The filter keeps the catalog order: it distributes over concatenation. */
  lemma {:induction false} CountryFilterAppend(a: seq<string>, b: seq<string>, country: string)
    ensures CountryFilter(a + b, country) == CountryFilter(a, country) + CountryFilter(b, country)
    decreases |b|
  {
    if b == [] {
      assert a + b == a;
    } else {
      var b' := b[..|b| - 1];
      var last := b[|b| - 1];
      assert (a + b)[..|a + b| - 1] == a + b';
      assert (a + b)[|a + b| - 1] == last;
      var k := if CountryMatches(last, country) then [last] else [];
      assert CountryFilter(a + b, country) == CountryFilter(a + b', country) + k;
      assert CountryFilter(b, country) == CountryFilter(b', country) + k;
      CountryFilterAppend(a, b', country);
    }
  }

  /** `s[:k]` for a Python `int` `k`: a negative `k` drops `-k` items from the end. */
  function PyPrefix<T>(s: seq<T>, k: int): (r: seq<T>)
    ensures |r| <= |s| && r == s[..|r|]
    ensures k >= 0 ==> |r| == Min(k, |s|)
    ensures k < 0 ==> |r| == Max(0, |s| + k)
  {
    if k >= |s| then s
    else if k >= 0 then s[..k]
    else if |s| + k >= 0 then s[..|s| + k]
    else []
  }

  /** The count part of a download request: `"all"`, something `int()` accepts, or
      something it rejects. */
  datatype CountArg = All | Count(n: int) | NotANumber

  /** Reads the count argument; `toInt` is Python's `int()` on a string. */
  function CountOf(arg: string, toInt: string -> Option<int>): (r: CountArg)
    ensures arg == "all" <==> r.All?
    ensures r.Count? ==> toInt(arg) == Some(r.n)
    ensures arg != "all" && toInt(arg).Some? ==> r == Count(toInt(arg).value)
    ensures r == NotANumber <==> arg != "all" && toInt(arg).None?
  {
    if arg == "all" then All
    else match toInt(arg)
      case Some(n) => Count(n)
      case None => NotANumber
  }

  /** The subset a download sends: the whole list for `all` or an argument `int()`
      rejects, `list[:n]` otherwise. */
  function Selection(list: seq<string>, arg: CountArg): (r: seq<string>)
    ensures |r| <= |list| && r == list[..|r|]
    ensures !arg.Count? ==> r == list
    ensures arg.Count? && arg.n >= 0 ==> |r| == Min(arg.n, |list|)
    ensures arg.Count? && arg.n < 0 ==> |r| == Max(0, |list| + arg.n)
  {
    if arg.Count? then PyPrefix(list, arg.n) else list
  }

  /** The source list of a download mode. */
  datatype DownloadMode = Current | Fastest | Country(code: string) | Session

  /** The country codes offered by the download and main menus. */
  const CountryCodes: seq<string> := ["ru", "de", "us", "pl", "fr", "nl"]

  function ParseDownloadMode(mode: string): (r: DownloadMode)
    ensures r.Current? <==> mode == "current"
    ensures r.Fastest? <==> mode == "fastest"
    ensures r.Country? <==> mode in CountryCodes
    ensures r.Country? ==> r.code == Lower(mode)
  {
    if mode == "current" then Current
    else if mode == "fastest" then Fastest
    else if mode in CountryCodes then Country(Lower(mode))
    else Session
  }

  /** What a main-menu action `get:<action>` asks for. */
  datatype GetRequest = GetRequest(fastest: bool, country: Option<string>)

  function ParseGetAction(action: string): (r: GetRequest)
    ensures r.fastest <==> action == "fastest"
    ensures r.country.None? <==> action in ["all", "fastest", "vless"]
    ensures r.country.Some? ==> r.country.value == action
  {
    GetRequest(action == "fastest", if action in ["all", "fastest", "vless"] then None else Some(action))
  }

  /** The "only VLESS" action loads every descriptor, as "all" does. */
  lemma VlessIsAll()
    ensures ParseGetAction("vless") == ParseGetAction("all") == GetRequest(false, None)
  {
  }

  /** `configs[idx]` after the `idx >= len(configs)` check: a negative index counts from
      the end; `None` where Python would raise `IndexError`. */
  function ConfigAt(configs: seq<string>, idx: int): (r: Option<string>)
    ensures r.Some? <==> -|configs| <= idx < |configs|
    ensures 0 <= idx < |configs| ==> r == Some(configs[idx])
    ensures -|configs| <= idx < 0 ==> r == Some(configs[|configs| + idx])
  {
    if idx >= |configs| then None
    else if idx >= 0 then Some(configs[idx])
    else if |configs| + idx >= 0 then Some(configs[|configs| + idx])
    else None
  }

  /** An item button carries its position in the list on screen, which may be the ranked
      view, while `show_one_config` looks that position up in the catalog order. */
  lemma ItemIndexMismatch(a: string, b: string, now: real)
    requires a != b
    ensures var view := ViewList([a, b], Some(RankedView([b, a], now)), true, now);
            PageSlice(view, 0)[0] == b && ConfigAt([a, b], 0) == Some(a)
  {
  }

  /** `handle_page` checks the page against the catalog length, so with a ranked view of
      the first 8 of 20 descriptors it accepts page 1, which lists nothing. */
  lemma PageCheckIgnoresView(configs: seq<string>, now: real)
    requires |configs| == 20
    ensures var view := ViewList(configs, Some(RankedView(configs[..8], now)), true, now);
            PageAccepted(1, |configs|) && PageSlice(view, 1) == []
  {
  }

  /** What happens after a successful load. */
  datatype AfterLoad = ShowList | AskCount | RankFirst(limit: Option<int>)

  /** The answer to the "how many servers" question: all of them or the first `n`. */
  datatype FastestChoice = Everything | First(n: int)

  /** As written, `handle_fastest_count` turns "all" into no count at all. */
  function PingCountAsWritten(choice: FastestChoice): (r: Option<int>)
    ensures r.None? <==> choice.Everything?
    ensures choice.First? ==> r == Some(choice.n)
  {
    match choice
    case Everything => None
    case First(n) => Some(n)
  }

  /** As written, `load_and_show_configs` asks for a count whenever none was given. */
  function AfterLoadAsWritten(isFastest: bool, pingCount: Option<int>): (r: AfterLoad)
    ensures r.ShowList? <==> !isFastest
    ensures r.AskCount? <==> isFastest && pingCount.None?
    ensures r.RankFirst? ==> r.limit == pingCount
  {
    if !isFastest then ShowList
    else if pingCount.None? then AskCount
    else RankFirst(pingCount)
  }

  /** Choosing "all" on the count question asks the same question again: the whole
      list is never ranked from that button. */
  lemma FastestAllAsksAgain()
    ensures AfterLoadAsWritten(true, PingCountAsWritten(Everything)) == AskCount
  {
  }

  /** The count question's state: not yet asked, or answered. */
  datatype PingRequest = NotChosen | Chosen(choice: FastestChoice)

  /** The intended follow-up: rank everything for "all", the first `n` for a number, and
      ask only when no answer was given. */
  function AfterLoadIntended(isFastest: bool, request: PingRequest): (r: AfterLoad)
    ensures r.ShowList? <==> !isFastest
    ensures r.AskCount? <==> isFastest && request.NotChosen?
    ensures isFastest && request == Chosen(Everything) ==> r == RankFirst(None)
  {
    if !isFastest then ShowList
    else match request
      case NotChosen => AskCount
      case Chosen(Everything) => RankFirst(None)
      case Chosen(First(n)) => RankFirst(Some(n))
  }

  /** The intended follow-up differs from the written one only on the "all" answer. */
  lemma IntendedAgreesOnCounts(isFastest: bool, request: PingRequest)
    requires request != Chosen(Everything) || !isFastest
    ensures AfterLoadIntended(isFastest, request)
            == AfterLoadAsWritten(isFastest, if request.Chosen? then PingCountAsWritten(request.choice) else None)
  {
  }
}
