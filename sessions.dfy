/** The bot's per-user session state and the handlers that change it: the descriptor
    list of each user (`user_configs`), the latency cache (`user_ping_cache`) and the
    ranked view (`sorted_by_ping_cache`), with loading, resetting, the periodic refresh,
    latency lookups, ranking, paging, single-descriptor display and downloads.

    Fetched catalog bodies are the parameter `bodies` (one entry per source, `None` for
    a source that failed); the clock, the base64/JSON decoder and the network are the
    parameters `now`/`stamp`, `decode` and `net`. */
module Sessions {

  import opened Wrappers
  import opened Text
  import opened Parser
  import opened Address
  import opened Ping
  import opened Ranking
  import opened Views

  type UserId = int

  /** `user_ping_cache.get(uid, {})`. */
  function CacheOf(caches: map<UserId, UserCache>, uid: UserId): UserCache {
    if uid in caches then caches[uid] else map[]
  }

  /** `user_configs.get(uid, [])`. */
  function CatalogOf(configs: map<UserId, seq<string>>, uid: UserId): seq<string> {
    if uid in configs then configs[uid] else []
  }

  function RankedOf(views: map<UserId, RankedView>, uid: UserId): Option<RankedView> {
    if uid in views then Some(views[uid]) else None
  }

  /** The list a load stores: the aggregate of all fetched catalogs, restricted to the
      country when a non-empty one is given. */
  function Loadable(bodies: seq<Option<string>>, country: Option<string>): (r: seq<string>)
    ensures country.None? || country.value == [] ==> r == AggregateSpec(bodies)
    ensures country.Some? && country.value != [] ==> r == CountryFilter(AggregateSpec(bodies), country.value)
    ensures forall i :: 0 <= i < |r| ==> country.None? || CountryMatches(r[i], country.value)
  {
    var all := AggregateSpec(bodies);
    if country.Some? && country.value != [] then CountryFilter(all, country.value) else all
  }

  /** Every element of a sub-multiset of a descriptor list is a descriptor. */
  lemma SubDescriptors(xs: seq<string>, ys: seq<string>)
    requires multiset(xs) <= multiset(ys) && AllDescriptors(ys)
    ensures AllDescriptors(xs)
  {
    forall i | 0 <= i < |xs| ensures IsDescriptor(xs[i]) {
      assert xs[i] in multiset(ys);
    }
  }

  /** A filtered list holds only elements of the list it came from. */
  lemma FilterDescriptors(configs: seq<string>, country: string)
    requires AllDescriptors(configs)
    ensures AllDescriptors(CountryFilter(configs, country))
  {
    CountryFilterCounts(configs, country);
    var r := CountryFilter(configs, country);
    assert multiset(r) <= multiset(configs) by {
      forall c ensures multiset(r)[c] <= multiset(configs)[c] {
      }
    }
    SubDescriptors(r, configs);
  }

  lemma LoadableDescriptors(bodies: seq<Option<string>>, country: Option<string>)
    ensures AllDescriptors(Loadable(bodies, country))
  {
    AggregateDescriptors(bodies);
    if country.Some? && country.value != [] {
      FilterDescriptors(AggregateSpec(bodies), country.value);
    }
  }

  lemma {:induction false} AggregateDescriptors(bodies: seq<Option<string>>)
    ensures AllDescriptors(AggregateSpec(bodies))
  {
    if bodies != [] {
      AggregateDescriptors(bodies[..|bodies| - 1]);
      var last := bodies[|bodies| - 1];
      if last.Some? {
        SchemeLinesDescriptors(SplitLines(last.value));
      }
    }
  }

  /** A prefix holds only elements of the list. */
  lemma PrefixSubMultiset(s: seq<string>, k: int)
    ensures multiset(PyPrefix(s, k)) <= multiset(s)
  {
    var r := PyPrefix(s, k);
    assert s == r + s[|r|..];
  }

  /** One more lookup extends a pass by one answer. */
  lemma ProbeAllNext(cache: UserCache, list: seq<string>, i: nat, now: real, decode: Decoder, net: Network)
    requires i < |list|
    ensures var prev := ProbeAll(cache, list[..i], now, decode, net);
            var p := ProbeStep(prev.cache, list[i], now, decode, net);
            var next := ProbeAll(cache, list[..i + 1], now, decode, net);
            next.latencies == prev.latencies + [p.latency] && next.cache == p.cache
  {
    assert list[..i + 1][..i] == list[..i];
  }

  /** Dropping a superset of a map's keys leaves nothing. */
  lemma DropAll<V>(m: map<UserId, V>, users: set<UserId>)
    requires m.Keys <= users
    ensures m - users == map[]
  {
    assert (m - users).Keys == {};
  }

  /** A second update of the same key overrides the first. */
  lemma UpdateTwice<V>(m: map<UserId, V>, u: UserId, a: V, b: V)
    ensures m[u := a][u := b] == m[u := b]
  {
  }

  /** Dropping one more user after a set of users is dropping both at once. */
  lemma DropOneMore<V>(m: map<UserId, V>, done: set<UserId>, u: UserId)
    ensures (m - done) - {u} == m - (done + {u})
  {
  }

  /** Some user of a non-empty set (the iteration order over the session keys plays
      no part in the result). */
  method AnyUser(users: set<UserId>) returns (u: UserId)
    requires users != {}
    ensures u in users
  {
    var none: set<UserId> := {};
    assert (forall v :: v in users <==> v in none) ==> users == none;
    u :| u in users;
  }

  datatype LoadOutcome = FetchFailed | NoneForCountry | Loaded(count: nat)

  /** One line of a keyboard page: the button's position, its descriptor and latency. */
  datatype Item = Item(index: nat, config: string, latency: Option<nat>)

  datatype PageView = PageView(items: seq<Item>, nav: Nav)

  /** The keyboard of `page` of a view list, given the latencies of the descriptors it
      shows: one item per shown position, carrying that position in the view list, and
      the navigation row of the whole view list. */
  function PageOf(list: seq<string>, page: nat, latencies: seq<Option<nat>>): (v: PageView)
    requires |latencies| == |PageSlice(list, page)|
    ensures v.nav == Navigation(page, |list|)
    ensures |v.items| == |PageSlice(list, page)|
    ensures forall k :: 0 <= k < |v.items| ==>
              v.items[k] == Item(PageStart(page) + k, list[PageStart(page) + k], latencies[k])
  {
    var shown := PageSlice(list, page);
    PageView(seq(|shown|, k requires 0 <= k < |shown| => Item(PageStart(page) + k, shown[k], latencies[k])),
             Navigation(page, |list|))
  }

  /** The part of a session `sort_by_ping` ranks: `list[:limit]` when a limit is given. */
  function Subject(list: seq<string>, limit: Option<int>): (r: seq<string>)
    ensures multiset(r) <= multiset(list)
    ensures limit.None? ==> r == list
  {
    if limit.Some? then
      PrefixSubMultiset(list, limit.value);
      PyPrefix(list, limit.value)
    else list
  }

  /** What ranking `subject` and then showing page 0 of the ranking yields, starting from
      the latency cache `cache`: the ranking (its lookups at `now`), the page (its lookups
      at `stamp`, through the cache the ranking left) and the cache after both. */
  datatype RankedPage = RankedPage(ranked: seq<string>, view: PageView, cache: UserCache)

  function RankThenShow(subject: seq<string>, cache: UserCache, now: real, stamp: real,
                        decode: Decoder, net: Network): (o: RankedPage)
    ensures multiset(o.ranked) == multiset(subject)
    ensures o.view.nav == Navigation(0, |subject|)
    ensures |o.view.items| == Min(ItemsPerPage, |subject|)
  {
    var pass := ProbeAll(cache, subject, now, decode, net);
    var ranked := Rank(subject, pass.latencies);
    RankIsPermutation(subject, pass.latencies);
    var shownPass := ProbeAll(pass.cache, PageSlice(ranked, 0), stamp, decode, net);
    RankedPage(ranked, PageOf(ranked, 0, shownPass.latencies), shownPass.cache)
  }

  datatype DownloadOutcome = NoSession | NothingToDownload | Export(selected: seq<string>, file: string)

  /** The list a download mode starts from, given the session, its stored ranked view
      and its latency cache: "current" takes the stored view whatever its age, "fastest"
      takes it too and otherwise ranks the whole session, a country code filters the
      session, and anything else is the session. */
  function DownloadList(mode: DownloadMode, session: seq<string>, view: Option<RankedView>,
                        cache: UserCache, now: real, decode: Decoder, net: Network): (r: seq<string>)
    ensures view.None? ==> multiset(r) <= multiset(session)
    ensures mode.Fastest? && view.None? ==> multiset(r) == multiset(session)
    ensures mode.Current? || mode.Fastest? ==> view.Some? ==> r == view.value.ranked
  {
    match mode
    case Current => if view.Some? then view.value.ranked else session
    case Fastest =>
      if view.Some? then view.value.ranked
      else
        var pass := ProbeAll(cache, session, now, decode, net);
        RankIsPermutation(session, pass.latencies);
        Rank(session, pass.latencies)
    case Country(code) =>
      CountryFilterCounts(session, code);
      var r := CountryFilter(session, code);
      assert multiset(r) <= multiset(session) by {
        forall c ensures multiset(r)[c] <= multiset(session)[c] {
        }
      }
      r
    case Session => session
  }

  /** What the user sees after a load request. */
  datatype Shown = LoadFailed(outcome: LoadOutcome) | Listed(view: PageView) | CountAsked | Ranked(view: PageView)

  class SessionStore {
    /** `user_configs`: the descriptors of each user's session. */
    var configs: map<UserId, seq<string>>
    /** `user_ping_cache`: each user's latency cache. */
    var pingCache: map<UserId, UserCache>
    /** `sorted_by_ping_cache`: each user's ranked view and when it was stored. */
    var rankedCache: map<UserId, RankedView>

    /** Stored lists are non-empty lists of descriptors; a ranked view belongs to a
        session and holds only descriptors of it. */
    ghost predicate Valid()
      reads this
    {
      (forall u :: u in configs ==> configs[u] != [] && AllDescriptors(configs[u]))
      && (forall u :: u in rankedCache ==>
            u in configs && multiset(rankedCache[u].ranked) <= multiset(configs[u]))
    }

    constructor()
      ensures Valid()
      ensures configs == map[] && pingCache == map[] && rankedCache == map[]
    {
      configs := map[];
      pingCache := map[];
      rankedCache := map[];
    }

    /** The fetch-and-store part of `load_and_show_configs`: nothing changes when no
        catalog yields a descriptor or the country leaves none; otherwise the list
        replaces the user's session and both of the user's caches are dropped. */
    method Load(uid: UserId, bodies: seq<Option<string>>, country: Option<string>) returns (outcome: LoadOutcome)
      requires Valid()
      modifies this
      ensures Valid()
      ensures outcome.FetchFailed? <==> AggregateSpec(bodies) == []
      ensures outcome.Loaded? <==> Loadable(bodies, country) != []
      ensures !outcome.Loaded? ==>
                configs == old(configs) && pingCache == old(pingCache) && rankedCache == old(rankedCache)
      ensures outcome.Loaded? ==>
                outcome.count == |Loadable(bodies, country)|
                && configs == old(configs)[uid := Loadable(bodies, country)]
                && pingCache == old(pingCache) - {uid}
                && rankedCache == old(rankedCache) - {uid}
    {
      var all := Aggregate(bodies);
      if all == [] {
        return FetchFailed;
      }
      var kept := all;
      if country.Some? && country.value != [] {
        kept := CountryFilter(all, country.value);
      }
      if kept == [] {
        return NoneForCountry;
      }
      LoadableDescriptors(bodies, country);
      configs := configs[uid := kept];
      pingCache := pingCache - {uid};
      rankedCache := rankedCache - {uid};
      outcome := Loaded(|kept|);
    }

    /** `handle_cancel_inline`: the user's session and both caches are dropped. */
    method Reset(uid: UserId)
      requires Valid()
      modifies this
      ensures Valid()
      ensures configs == old(configs) - {uid}
      ensures pingCache == old(pingCache) - {uid}
      ensures rankedCache == old(rankedCache) - {uid}
    {
      configs := configs - {uid};
      pingCache := pingCache - {uid};
      rankedCache := rankedCache - {uid};
    }

    /** One pass of `auto_update_configs`: when the catalogs yield descriptors, every
        open session gets the whole latest aggregate (country filters are not applied
        again) and loses its caches; otherwise nothing changes. */
    method Refresh(bodies: seq<Option<string>>)
      requires Valid()
      modifies this
      ensures Valid()
      ensures AggregateSpec(bodies) == [] ==>
                configs == old(configs) && pingCache == old(pingCache) && rankedCache == old(rankedCache)
      ensures AggregateSpec(bodies) != [] ==>
                configs.Keys == old(configs).Keys
                && (forall u :: u in configs ==> configs[u] == AggregateSpec(bodies))
                && pingCache == old(pingCache) - old(configs).Keys
                && rankedCache == map[]
    {
      var latest := Aggregate(bodies);
      if latest == [] {
        return;
      }
      assert rankedCache.Keys <= configs.Keys by {
        forall u | u in rankedCache.Keys ensures u in configs.Keys {
          assert u in rankedCache;
        }
      }
      DropAll(rankedCache, configs.Keys);
      var remaining := configs.Keys;
      ghost var done: set<UserId> := {};
      while remaining != {}
        invariant remaining !! done && remaining + done == old(configs).Keys
        invariant configs.Keys == old(configs).Keys
        invariant forall u :: u in done ==> configs[u] == latest
        invariant forall u :: u in remaining ==> configs[u] == old(configs)[u]
        invariant pingCache == old(pingCache) - done
        invariant rankedCache == old(rankedCache) - done
        decreases remaining
      {
        var u := AnyUser(remaining);
        DropOneMore(old(pingCache), done, u);
        DropOneMore(old(rankedCache), done, u);
        configs := configs[u := latest];
        pingCache := pingCache - {u};
        rankedCache := rankedCache - {u};
        remaining := remaining - {u};
        done := done + {u};
      }
    }

    /** `get_ping`: one latency lookup through the user's cache, writing the user's
        cache only when the entry was missing or stale. */
    method GetPing(uid: UserId, config: string, now: real, decode: Decoder, net: Network)
      returns (latency: Option<nat>, attempted: bool)
      modifies this
      ensures var p := ProbeStep(CacheOf(old(pingCache), uid), config, now, decode, net);
              latency == p.latency && attempted == p.attempted
              && pingCache == old(pingCache)[uid := p.cache]
      ensures FreshHit(CacheOf(old(pingCache), uid), config, now) ==> pingCache == old(pingCache)
      ensures configs == old(configs) && rankedCache == old(rankedCache)
    {
      var cache := CacheOf(pingCache, uid);
      var p := ProbeStep(cache, config, now, decode, net);
      if !FreshHit(cache, config, now) {
        pingCache := pingCache[uid := p.cache];
      } else {
        assert uid in pingCache;
        assert pingCache[uid := p.cache] == pingCache;
      }
      latency, attempted := p.latency, p.attempted;
    }

    /** The gathered lookups of one list (the `limited_ping` tasks of
        `build_config_list_keyboard` and `sort_by_ping`), one after another. */
    method ProbeList(uid: UserId, list: seq<string>, now: real, decode: Decoder, net: Network)
      returns (latencies: seq<Option<nat>>)
      modifies this
      ensures var pass := ProbeAll(CacheOf(old(pingCache), uid), list, now, decode, net);
              latencies == pass.latencies
              && pingCache == if list == [] then old(pingCache) else old(pingCache)[uid := pass.cache]
      ensures configs == old(configs) && rankedCache == old(rankedCache)
    {
      ghost var start := CacheOf(pingCache, uid);
      latencies := [];
      var i := 0;
      while i < |list|
        invariant 0 <= i <= |list|
        invariant configs == old(configs) && rankedCache == old(rankedCache)
        invariant latencies == ProbeAll(start, list[..i], now, decode, net).latencies
        invariant CacheOf(pingCache, uid) == ProbeAll(start, list[..i], now, decode, net).cache
        invariant pingCache == if i == 0 then old(pingCache) else old(pingCache)[uid := CacheOf(pingCache, uid)]
      {
        ProbeAllNext(start, list, i, now, decode, net);
        ghost var before := pingCache;
        var latency, _ := GetPing(uid, list[i], now, decode, net);
        UpdateTwice(old(pingCache), uid, CacheOf(before, uid), CacheOf(pingCache, uid));
        latencies := latencies + [latency];
        i := i + 1;
      }
      assert list[..i] == list;
    }

    /** `sort_by_ping`: nothing happens without a session; otherwise the session's list,
        cut to `list[:limit]` when a limit is given, is probed and ranked, and the ranked
        list is stored as the user's view, stamped with the time the ranking ended. */
    method SortByPing(uid: UserId, limit: Option<int>, now: real, stamp: real, decode: Decoder, net: Network)
      returns (ranked: Option<seq<string>>)
      requires Valid()
      modifies this
      ensures Valid()
      ensures ranked.None? <==> uid !in old(configs)
      ensures ranked.None? ==> pingCache == old(pingCache) && rankedCache == old(rankedCache)
      ensures ranked.Some? ==>
                var subject := if limit.Some? then PyPrefix(old(configs)[uid], limit.value) else old(configs)[uid];
                var pass := ProbeAll(CacheOf(old(pingCache), uid), subject, now, decode, net);
                ranked.value == Rank(subject, pass.latencies)
                && multiset(ranked.value) == multiset(subject)
                && rankedCache == old(rankedCache)[uid := RankedView(ranked.value, stamp)]
                && pingCache == if subject == [] then old(pingCache) else old(pingCache)[uid := pass.cache]
      ensures configs == old(configs)
    {
      if uid !in configs {
        return None;
      }
      var subject := configs[uid];
      if limit.Some? {
        subject := PyPrefix(subject, limit.value);
        PrefixSubMultiset(configs[uid], limit.value);
      }
      var latencies := ProbeList(uid, subject, now, decode, net);
      var list := Rank(subject, latencies);
      RankIsPermutation(subject, latencies);
      rankedCache := rankedCache[uid := RankedView(list, stamp)];
      ranked := Some(list);
    }

    /** `sort_by_ping` followed by `build_config_list_keyboard` on page 0 of the ranked
        view, as a load with a chosen count does: the view just stored is shown, and the
        page's lookups go through the cache the ranking left. */
    method RankAndShow(uid: UserId, limit: Option<int>, now: real, stamp: real, decode: Decoder, net: Network)
      returns (view: PageView)
      requires Valid() && uid in configs
      modifies this
      ensures Valid()
      ensures var subject := Subject(old(configs)[uid], limit);
              var o := RankThenShow(subject, CacheOf(old(pingCache), uid), now, stamp, decode, net);
              rankedCache == old(rankedCache)[uid := RankedView(o.ranked, stamp)]
              && view == o.view
              && pingCache == if subject == [] then old(pingCache) else old(pingCache)[uid := o.cache]
      ensures configs == old(configs)
    {
      ghost var subject := Subject(configs[uid], limit);
      ghost var pass := ProbeAll(CacheOf(pingCache, uid), subject, now, decode, net);
      var ranked := SortByPing(uid, limit, now, stamp, decode, net);
      assert ranked.value == Rank(subject, pass.latencies);
      assert CacheOf(pingCache, uid) == pass.cache;
      assert ViewList(CatalogOf(configs, uid), RankedOf(rankedCache, uid), true, stamp) == ranked.value;
      view := ShowPage(uid, 0, true, stamp, decode, net);
      if subject != [] {
        UpdateTwice(old(pingCache), uid, pass.cache, CacheOf(pingCache, uid));
      }
    }

    /** `build_config_list_keyboard`: the view list (the ranked view when asked for and
        not expired, the session's list otherwise) is cut to the page, each shown
        descriptor is looked up, and the navigation row is computed from the view list. */
    method ShowPage(uid: UserId, page: nat, useSorted: bool, now: real, decode: Decoder, net: Network)
      returns (view: PageView)
      modifies this
      ensures var list := ViewList(CatalogOf(old(configs), uid), RankedOf(old(rankedCache), uid), useSorted, now);
              var shown := PageSlice(list, page);
              var pass := ProbeAll(CacheOf(old(pingCache), uid), shown, now, decode, net);
              view == PageOf(list, page, pass.latencies)
              && pingCache == if shown == [] then old(pingCache) else old(pingCache)[uid := pass.cache]
      ensures configs == old(configs) && rankedCache == old(rankedCache)
    {
      var list := ViewList(CatalogOf(configs, uid), RankedOf(rankedCache, uid), useSorted, now);
      var shown := PageSlice(list, page);
      var latencies := ProbeList(uid, shown, now, decode, net);
      view := PageOf(list, page, latencies);
    }

    /** `handle_page`: nothing without a session or for a page outside the session's
        list (measured on the catalog order even when the ranked view is shown);
        otherwise the page, from the ranked view whenever one is stored. */
    method HandlePage(uid: UserId, page: int, now: real, decode: Decoder, net: Network)
      returns (view: Option<PageView>)
      modifies this
      ensures view.None? <==> uid !in old(configs) || !PageAccepted(page, |old(configs)[uid]|)
      ensures view.None? ==> pingCache == old(pingCache)
      ensures view.Some? ==>
                var list := ViewList(old(configs)[uid], RankedOf(old(rankedCache), uid), uid in old(rankedCache), now);
                var pass := ProbeAll(CacheOf(old(pingCache), uid), PageSlice(list, page), now, decode, net);
                view.value == PageOf(list, page, pass.latencies)
                && pingCache == if PageSlice(list, page) == [] then old(pingCache) else old(pingCache)[uid := pass.cache]
      ensures configs == old(configs) && rankedCache == old(rankedCache)
    {
      if uid !in configs || !PageAccepted(page, |configs[uid]|) {
        return None;
      }
      var v := ShowPage(uid, page, uid in rankedCache, now, decode, net);
      view := Some(v);
    }

    /** `show_one_config`: the descriptor at the position the button carries, looked up
        in the session's catalog order (not the view the button was on), with its latency. */
    method ShowConfig(uid: UserId, idx: int, now: real, decode: Decoder, net: Network)
      returns (shown: Option<(string, Option<nat>)>)
      modifies this
      ensures shown.None? <==> uid !in old(configs) || ConfigAt(old(configs)[uid], idx).None?
      ensures shown.None? ==> pingCache == old(pingCache)
      ensures shown.Some? ==>
                var config := ConfigAt(old(configs)[uid], idx).value;
                var p := ProbeStep(CacheOf(old(pingCache), uid), config, now, decode, net);
                shown.value == (config, p.latency) && pingCache == old(pingCache)[uid := p.cache]
      ensures configs == old(configs) && rankedCache == old(rankedCache)
    {
      if uid !in configs {
        return None;
      }
      match ConfigAt(configs[uid], idx)
      case None =>
        return None;
      case Some(config) =>
        var latency, _ := GetPing(uid, config, now, decode, net);
        shown := Some((config, latency));
    }

    /** The list a download mode starts from (`DownloadList`); "fastest" without a stored
        view first ranks the whole session, stores the ranking as the user's view and shows
        its first page, as `sort_by_ping` does. */
    method DownloadSource(uid: UserId, mode: string, now: real, stamp: real, decode: Decoder, net: Network)
      returns (source: seq<string>)
      requires Valid() && uid in configs
      modifies this
      ensures Valid()
      ensures configs == old(configs)
      ensures source == DownloadList(ParseDownloadMode(mode), old(configs)[uid], RankedOf(old(rankedCache), uid),
                                     CacheOf(old(pingCache), uid), now, decode, net)
      ensures multiset(source) <= multiset(configs[uid])
      ensures mode == "current" ==>
                source == if uid in old(rankedCache) then old(rankedCache)[uid].ranked else configs[uid]
      ensures mode == "fastest" ==> uid in rankedCache && source == rankedCache[uid].ranked
      ensures mode == "fastest" && uid !in old(rankedCache) ==>
                multiset(source) == multiset(configs[uid]) && rankedCache[uid].stamp == stamp
      ensures mode == "fastest" && uid !in old(rankedCache) ==>
                var pass := ProbeAll(CacheOf(old(pingCache), uid), old(configs)[uid], now, decode, net);
                source == Rank(old(configs)[uid], pass.latencies)
                && rankedCache == old(rankedCache)[uid := RankedView(source, stamp)]
      // the page `sort_by_ping` shows after ranking measures through the cache the ranking left
      ensures mode == "fastest" && uid !in old(rankedCache) ==>
                pingCache == old(pingCache)[uid := RankThenShow(old(configs)[uid], CacheOf(old(pingCache), uid),
                                                                now, stamp, decode, net).cache]
      ensures mode in CountryCodes ==> source == CountryFilter(configs[uid], Lower(mode))
      ensures mode != "current" && mode != "fastest" && mode !in CountryCodes ==> source == configs[uid]
      ensures !(mode == "fastest" && uid !in old(rankedCache)) ==>
                pingCache == old(pingCache) && rankedCache == old(rankedCache)
    {
      match ParseDownloadMode(mode) {
        case Current =>
          source := if uid in rankedCache then rankedCache[uid].ranked else configs[uid];
        case Fastest =>
          if uid !in rankedCache {
            var _ := RankAndShow(uid, None, now, stamp, decode, net);
          }
          source := rankedCache[uid].ranked;
        case Country(code) =>
          source := CountryFilter(configs[uid], code);
          CountryFilterCounts(configs[uid], code);
          assert multiset(source) <= multiset(configs[uid]) by {
            forall c ensures multiset(source)[c] <= multiset(configs[uid])[c] {
            }
          }
        case Session =>
          source := configs[uid];
      }
    }

    /** `handle_download`: nothing without a session; otherwise the mode's list cut by
        the count, refused when empty, and exported as its lines joined by newlines. */
    method Download(uid: UserId, mode: string, arg: CountArg, now: real, stamp: real, decode: Decoder, net: Network)
      returns (r: DownloadOutcome)
      requires Valid()
      modifies this
      ensures Valid()
      ensures r.NoSession? <==> uid !in old(configs)
      ensures r.Export? ==>
                r.selected != [] && AllDescriptors(r.selected)
                && multiset(r.selected) <= multiset(old(configs)[uid])
                && r.file == JoinLines(r.selected)
      ensures uid in old(configs) ==>
                var source := DownloadList(ParseDownloadMode(mode), old(configs)[uid], RankedOf(old(rankedCache), uid),
                                           CacheOf(old(pingCache), uid), now, decode, net);
                r == (if Selection(source, arg) == [] then NothingToDownload
                      else Export(Selection(source, arg), JoinLines(Selection(source, arg))))
      ensures uid in old(configs) && mode == "current" ==>
                var source := if uid in old(rankedCache) then old(rankedCache)[uid].ranked else old(configs)[uid];
                r == (if Selection(source, arg) == [] then NothingToDownload
                      else Export(Selection(source, arg), JoinLines(Selection(source, arg))))
      ensures mode == "fastest" && uid in old(configs) && uid !in old(rankedCache) ==>
                var pass := ProbeAll(CacheOf(old(pingCache), uid), old(configs)[uid], now, decode, net);
                rankedCache == old(rankedCache)[uid := RankedView(Rank(old(configs)[uid], pass.latencies), stamp)]
                && pingCache == old(pingCache)[uid := RankThenShow(old(configs)[uid], CacheOf(old(pingCache), uid),
                                                                   now, stamp, decode, net).cache]
      ensures !(mode == "fastest" && uid in old(configs) && uid !in old(rankedCache)) ==>
                pingCache == old(pingCache) && rankedCache == old(rankedCache)
      ensures configs == old(configs)
    {
      if uid !in configs {
        return NoSession;
      }
      var source := DownloadSource(uid, mode, now, stamp, decode, net);
      var selected := Selection(source, arg);
      PrefixSubMultiset(source, if arg.Count? then arg.n else |source|);
      if selected == [] {
        return NothingToDownload;
      }
      SubDescriptors(selected, configs[uid]);
      r := Export(selected, JoinLines(selected));
    }

    /** `load_and_show_configs` with the intended follow-up: after a successful load the
        session's list is shown, or the count question is asked, or the chosen part of the
        list is ranked and the first page of the ranking is shown. */
    method LoadAndShow(uid: UserId, bodies: seq<Option<string>>, isFastest: bool, country: Option<string>,
                       request: PingRequest, now: real, stamp: real, decode: Decoder, net: Network)
      returns (r: Shown)
      requires Valid()
      modifies this
      ensures Valid()
      ensures r.LoadFailed? <==> Loadable(bodies, country) == []
      ensures r.LoadFailed? ==> configs == old(configs) && rankedCache == old(rankedCache)
      ensures r.LoadFailed? ==> pingCache == old(pingCache)
      ensures !r.LoadFailed? ==> uid in configs && configs[uid] == Loadable(bodies, country)
      ensures !r.LoadFailed? ==> configs == old(configs)[uid := Loadable(bodies, country)]
      ensures r.CountAsked? <==> !r.LoadFailed? && isFastest && request.NotChosen?
      ensures r.Listed? <==> !r.LoadFailed? && !isFastest
      ensures r.Ranked? <==> !r.LoadFailed? && isFastest && request.Chosen?
      ensures r.Listed? || r.CountAsked? ==> uid !in rankedCache
      ensures r.Ranked? ==>
                uid in rankedCache && rankedCache[uid].stamp == stamp
                && multiset(rankedCache[uid].ranked) <= multiset(Loadable(bodies, country))
      // the list: page 0 of the new session, measured from an empty cache
      ensures r.Listed? ==>
                var list := Loadable(bodies, country);
                var pass := ProbeAll(map[], PageSlice(list, 0), now, decode, net);
                r.view == PageOf(list, 0, pass.latencies)
                && pingCache == (old(pingCache) - {uid})[uid := pass.cache]
                && rankedCache == old(rankedCache) - {uid}
      ensures r.CountAsked? ==> pingCache == old(pingCache) - {uid} && rankedCache == old(rankedCache) - {uid}
      // the ranking: the chosen part of the new session, ranked by latencies measured from an
      // empty cache, stored at `stamp`, and its page 0 measured through the cache that left
      ensures r.Ranked? ==>
                var limit := if request.choice.First? then Some(request.choice.n) else None;
                var subject := Subject(Loadable(bodies, country), limit);
                var o := RankThenShow(subject, map[], now, stamp, decode, net);
                rankedCache == (old(rankedCache) - {uid})[uid := RankedView(o.ranked, stamp)]
                && r.view == o.view
                && pingCache == if subject == [] then old(pingCache) - {uid} else (old(pingCache) - {uid})[uid := o.cache]
    {
      var outcome := Load(uid, bodies, country);
      if !outcome.Loaded? {
        return LoadFailed(outcome);
      }
      assert CacheOf(pingCache, uid) == map[] && RankedOf(rankedCache, uid) == None;
      match AfterLoadIntended(isFastest, request) {
        case ShowList =>
          assert ViewList(CatalogOf(configs, uid), RankedOf(rankedCache, uid), false, now) == configs[uid];
          var view := ShowPage(uid, 0, false, now, decode, net);
          r := Listed(view);
        case AskCount =>
          r := CountAsked;
        case RankFirst(limit) =>
          var view := RankAndShow(uid, limit, now, stamp, decode, net);
          r := Ranked(view);
      }
    }
  }
}
