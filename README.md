# lanpnbot engine, modelled in Dafny

lanpnbot is a Telegram bot that gathers free proxy descriptors (`vmess://`, `vless://`,
`trojan://`, `ss://`, `ssr://` URIs) from public catalogs. It lets each user page through
them, rank them by TCP connection latency, filter them by country tag and download
them as a text file. This project models the engine inside `main.py`, which is
everything left once the network, the sockets and the chat UI are taken out:

- `parser.dfy` covers the descriptor parser (`split_configs`) and the aggregation of all
  fetched catalogs. `text.dfy` holds the Python `str` operations they rely on.
- `address.dfy` covers the address extractor (`parse_server_address`). Its last stage is a
  base64-and-JSON decoder, which the model takes as a parameter.
- `ping.dfy` covers the per-user latency cache of `get_ping`, keyed by the first 100
  characters of a descriptor and valid for 600 s. It also models a pass of lookups over a list.
- `ranking.dfy` covers the ranking of `sort_by_ping`: a stable sort by latency, with an
  unreachable descriptor counting as 99999 ms.
- `views.dfy` covers paging (8 per page), the choice between the catalog order and the
  ranked view (kept for 900 s), the country filter, the download subset and the
  dispatch of menu actions.
- `sessions.dfy` covers the session store: a class holding the three per-user maps
  `user_configs`, `user_ping_cache` and `sorted_by_ping_cache`. Its methods model the
  handlers that change them: load, reset, the periodic refresh, latency lookups,
  ranking, paging, showing one descriptor, downloading, and load-then-show.

Latencies are `Option<nat>` in tenths of a millisecond; `None` is a failed connection.
The clock is a `real` parameter: `now` is when a lookup starts, and `stamp` is when a
ranking ends. The network is a parameter `net` mapping an endpoint to an optional
latency. Fetched catalog bodies are a parameter `bodies`, with `None` for a source that
failed.

Some behaviours of the code are modelled exactly as written:
- `ssr://` lines are kept by the parser but never get an address.
- `get:vless` applies no filter.
- A cache entry is stamped with the time the lookup began.
- Descriptors that share their first 100 characters share a cache entry.
- A ranked view expires only when its age is strictly greater than 900 s.
- Download "current" uses a stored ranked view whatever its age.
- Item buttons carry positions in the view, but the single-descriptor handler looks them
  up in the catalog order.
- `handle_page` checks the page against the catalog length.
- A refresh gives every session the unfiltered aggregate.

## Model

| member | source | states |
|---|---|---|
| `Text.Strip` | main.py:123 | `strip()` leaves no white space at either end, takes only characters of its input, and leaves an already stripped string alone |
| `Text.StripPiece` | main.py:123 | `strip()` keeps one contiguous piece of its input and removes only white space before and after it |
| `Text.StripFrom` | main.py:58 | stripping a string whose last character and some `s[j]` are not white space removes only a prefix, ending at or before `j` |
| `Text.BeforeFirst` | main.py:58 | `split(c)[0]` is the longest prefix without `c`; the next character, if any, is `c` |
| `Text.AfterLast` | main.py:308 | `split(c)[-1]` is the longest suffix without `c`; the character before it, if any, is `c`; without `c` it is the whole string |
| `Text.RSplit` | main.py:64 | `rsplit(c, 1)` gives nothing exactly when `c` is absent; otherwise the string is left + `c` + right, with no `c` in right |
| `Text.DecimalStringDigits` | main.py:74-75 | `str(port).isdigit()` holds exactly for non-negative ints, and then `int(str(port))` is the port |
| `Text.SplitLines` | main.py:122 | no line that `splitlines` gives holds a line boundary |
| `Text.SplitJoinLines` | main.py:497 | `"\n".join` of non-empty one-line strings splits back, by `splitlines`, into the same list |
| `Text.JoinLines` | main.py:497 | `"\n".join`: the pieces in order with a newline between neighbours; its inverse is `Text.SplitJoinLines` |
| `Parser.Kept` | main.py:123-129 | a line contributes nothing or its stripped self, and the stripped self exactly when it begins with one of the five schemes |
| `Parser.NoiseIsNotScheme` | main.py:126-129 | a line under a comment or banner prefix never begins with a proxy scheme, so the skip changes nothing |
| `Parser.SsrKept` | main.py:128-129 | a stripped `ssr://` line is kept by the parser |
| `Parser.SkippedLine` | main.py:124-127 | an empty line or a comment or banner line contributes nothing |
| `Parser.KeptDescriptor` | main.py:123-129 | whatever a line without line boundaries contributes is a descriptor |
| `Parser.ParseLine` | main.py:123-129 | the loop body on one line gives exactly that line's contribution: nothing when it is empty or noise, the stripped line when it begins with a scheme, nothing otherwise |
| `Parser.SplitConfigs` | main.py:120-130 | the loop returns exactly the stripped lines that begin with one of the five schemes, in input order, with repeats; each is a non-empty one-line stripped descriptor |
| `Parser.SchemeLinesDescriptors` | main.py:121-130 | every line kept from `splitlines` output is a descriptor |
| `Parser.SchemeLinesAppend` | main.py:121-130 | parsing distributes over concatenation of lines, so order is kept and nothing is merged |
| `Parser.SchemeLinesOfDescriptors` | main.py:121-130 | the parser keeps a list of descriptors unchanged |
| `Parser.ExportRoundTrip` | main.py:495-497 | re-parsing the `"\n".join` export of any list of descriptors gives back the same list |
| `Parser.Aggregate` | main.py:296-302 | the gather loop concatenates the parsed descriptors of each fetched body in source order, skipping failed sources |
| `Address.HostField` | main.py:71 | the host is `add`, else `address` when `add` is falsy, else `host` |
| `Address.JsonAddress` | main.py:68-75 | the JSON stage answers exactly for a decoded object with a truthy host field (`add`, else `address`, else `host`) and a truthy `int` or `str` port whose `str()` is all digits; the answer is the host's `str()` stripped and `int(port)`, which is the value of those digits for an `int` as for a `str`, so never negative |
| `Address.JsonIntPort` | main.py:71-75 | with `add` falsy the host comes from `address`, and a positive integer port is taken as it is |
| `Address.ZeroPort` | main.py:74 | an integer port 0 is falsy, so the JSON stage refuses it |
| `Address.EndpointText` | main.py:58-61 | the endpoint text holds no `@`, `#` or `?` |
| `Address.DirectAddress` | main.py:58-66 | the first stage never gives a negative port, and an endpoint text without `:` goes straight to the JSON stage; its answers on URIs are `Address.DirectUri` and `Address.DirectPlain` |
| `Address.FallbackAddress` | main.py:80-86 | the fallback answers only when the text after `://` splits at its last `:` into left and a right part whose text before `#`, stripped, is all digits; the answer is (left stripped, that number) |
| `Address.FallbackComplete` | main.py:80-86 | conversely, every such split is answered with (left stripped, that number) |
| `Address.ParseServerAddress` | main.py:54-90 | an address is returned only for the four probe schemes (never `ssr://`), and its port is never negative |
| `Address.SsrNeverAddressed` | main.py:55-56 | an `ssr://` descriptor never has an address |
| `Address.ParseAfterScheme` | main.py:54-90 | for an accepted scheme the result is the first stage on the text after the scheme, falling back to the `://` split when that gives nothing |
| `Address.UriEndpointText` | main.py:58-61 | for `user@host:port` followed by `?query` or `#tag`, the endpoint text is `host:port` |
| `Address.DirectUri` | main.py:58-66 | the first stage on `user@host:port` followed by `?query` or `#tag` gives (host stripped, port) |
| `Address.UriAddress` | main.py:54-66 | any accepted scheme followed by `user@host:port` and an optional query or tag gives (host stripped, port); user-info, query and tag are ignored; the host may itself hold `:` |
| `Address.PlainEndpointText` | main.py:58-61 | for `host:port` without user info, followed by `?query` or `#tag`, the endpoint text is `host:port` |
| `Address.DirectPlain` | main.py:58-66 | the first stage on `host:port` without user info, followed by `?query` or `#tag`, gives (host stripped, port) |
| `Address.PlainUri` | main.py:54-66 | any accepted scheme followed by `host:port` without user info and an optional query or tag gives (host stripped, port); the host may itself hold `:` |
| `Address.PlainExample` | main.py:54-66 | `vless://h:443` gives (`h`, 443) |
| `Address.BracketedHostExample` | main.py:58-66 | `vless://u@[::1]:443` gives (`[::1]`, 443): only the last `:` separates the port, and the brackets are kept |
| `Address.CutBeforeFirst` | main.py:58 | cutting at `#` and then at `?` leaves exactly the part before the query or tag |
| `Address.BeforeFirstPrefix` | main.py:58 | cutting at `c` passes over a prefix without `c` |
| `Address.StripUserPart` | main.py:58-61 | stripping keeps the `@` and the endpoint when the endpoint ends with a digit |
| `Address.RSplitSuffix` | main.py:64 | `rsplit(c, 1)` of `l + c + r`, with no `c` in `r`, gives `(l, r)` |
| `Address.VlessExample` | main.py:54-66 | `vless://user@203.0.113.5:443?x=1#tag` gives (`203.0.113.5`, 443) |
| `Address.DirectBody` | main.py:58-69 | a body with no `#`, `?`, `@` or `:` goes, stripped, to the JSON stage |
| `Address.JsonStringFields` | main.py:71-75 | `{"add": host, "port": "<digits>"}` gives (host stripped, int of the digits) |
| `Address.JsonBodyAddress` | main.py:54-75 | a base64 body decoding to such an object gives that host and port, for any accepted scheme |
| `Address.VmessJsonExample` | main.py:68-75 | a `vmess://` body decoding to `{"add": "198.51.100.9", "port": "8443"}` gives (`198.51.100.9`, 8443) |
| `Ping.Fingerprint` | main.py:103 | the cache key is the first 100 characters of the descriptor, or all of it when it is shorter |
| `Ping.FreshHit` | main.py:106-108 | the cache holds the descriptor's key with an entry younger than 600 s; `Ping.ProbeStep` answers such a hit from the cache |
| `Ping.ProbeStep` | main.py:102-118 | an entry younger than 600 s answers without a connection and changes nothing; otherwise only that key is overwritten, with the start time and the result; a connection is attempted exactly when the entry is not fresh and an address exists; no address stores `None`; afterwards the key holds a fresh entry with the answer |
| `Ping.RepeatWithinTtl` | main.py:104-117 | because the stamp is the start time, asking again within 600 s of a measuring lookup opens no connection and gives the same answer and cache |
| `Ping.SharedFingerprint` | main.py:103 | two descriptors with the same first 100 characters share one answer: the second opens no connection |
| `Ping.StaleEntryRemeasured` | main.py:106-114 | an entry at least 600 s old is measured again when the descriptor has an address |
| `Ping.ProbeAll` | main.py:348-364 | a pass gives one answer per descriptor and attempts at most one connection per descriptor |
| `Ping.ProbeAllRecorded` | main.py:348-364 | after a pass every descriptor has a fresh entry, holding the answer reported for it |
| `Ping.ProbeAllFrame` | main.py:348-364 | a pass adds exactly the keys of its descriptors and leaves every other entry untouched |
| `Ping.PassStep` | main.py:102-118 | one more lookup keeps the earlier answers recorded |
| `Ping.StepFrame` | main.py:115-117 | a lookup adds its key and changes no other entry |
| `Ping.StepKeepsFresh` | main.py:106-109 | a lookup leaves every fresh entry as it is |
| `Ranking.SortKey` | main.py:366-374 | the key is the latency, or 99999 ms when there is none |
| `Ranking.Keys` | main.py:366-374 | one key per descriptor, in order |
| `Ranking.Insert` | main.py:375 | inserting a position adds exactly that position |
| `Ranking.InsertOrdered` | main.py:375 | insertion keeps a list of positions stably ordered |
| `Ranking.SortIndices` | main.py:375 | the sort of the first `n` positions lists `n` positions, all in range |
| `Ranking.SortIndicesSorted` | main.py:375 | the sorted positions are a permutation of `range(n)` in non-decreasing key order, ties in increasing position |
| `Ranking.SortStep` | main.py:375 | inserting the next position keeps the list a stably ordered permutation of the positions seen so far |
| `Ranking.InsertPermutation` | main.py:375 | inserting `n - 1` into a permutation of `range(n - 1)` gives a permutation of `range(n)`, and `n - 1` was not listed before |
| `Ranking.ConsOrdered` | main.py:375 | a position that goes before every listed position can be put in front of a stably ordered list |
| `Ranking.RankOrder` | main.py:375 | `sorted(range(n), key=...)` lists `n` positions, each below `n`; `Ranking.RankOrderSorted` and `Ranking.RankOrderIsStableSort` show it is the stable sort |
| `Ranking.RankOrderSorted` | main.py:375 | the ranking order is a permutation of all positions in stable key order |
| `Ranking.Pick` | main.py:376 | `[configs[i] for i in sorted_indices]`: one entry per index, entry `a` being `configs[idx[a]]` |
| `Ranking.Rank` | main.py:375-376 | the ranked list has one entry per descriptor |
| `Ranking.PermutationMembers` | main.py:375 | a permutation of `range(n)` lists every position below `n` exactly once |
| `Ranking.RankIsPermutation` | main.py:375-376 | the ranked list is a permutation of the probed descriptors |
| `Ranking.PickPermutation` | main.py:376 | picking along a permutation of positions gives a permutation of the items |
| `Ranking.RemoveLast` | main.py:375 | taking the largest position out of a permutation of `range(n)` leaves one of `range(n - 1)` |
| `Ranking.PickRemove` | main.py:376 | dropping one position drops exactly its pick |
| `Ranking.RankOrdered` | main.py:375-376 | entry `a` of the ranking is descriptor `idx[a]`; keys never decrease; equal keys keep catalog order |
| `Ranking.UnreachableLast` | main.py:368-369 | when every measured latency is below the sentinel, unreachable descriptors come after all reachable ones |
| `Ranking.StableOrderUnique` | main.py:375 | there is exactly one stably ordered listing of a set of positions |
| `Ranking.TailsAgree` | main.py:375 | two stably ordered permutations with the same head have stably ordered, equal-content tails |
| `Ranking.FirstBefore` | main.py:375 | the head of a stably ordered list goes before every other element |
| `Ranking.RankOrderIsStableSort` | main.py:375 | any stably ordered permutation of the positions is the model's order, i.e. Python's stable `sorted` |
| `Views.PagesTotal` | main.py:201 | `pages_total` is the least `t` with `8t >= n` |
| `Views.PageEnd` | main.py:182 | `end` is `min(start + 8, n)` |
| `Views.PageSlice` | main.py:181-196 | page `p` lists positions `8p ..` in order, `max(0, min(8, n - 8p))` of them |
| `Views.Navigation` | main.py:198-204 | "prev" appears iff `p > 0`; "next" iff `8p + 8 < n`; the label is `p + 1` of `pages_total` |
| `Views.PageAccepted` | main.py:523-525 | the range check of `handle_page` against the session length; `Views.PageAcceptedIff` states what it accepts |
| `Views.PageAcceptedIff` | main.py:523-526 | a page passes the range check exactly when it is non-negative and shows at least one descriptor |
| `Views.PagesCover` | main.py:181-204 | position `i` is shown on page `i / 8` at offset `i % 8`, and that page passes the range check |
| `Views.ViewList` | main.py:174-179 | the ranked view is paged when asked for, present and at most 900 s old; the catalog order is paged otherwise |
| `Views.CountryMatches` | main.py:308 | the country test on one descriptor; `Views.TagDecides` and `Views.UntaggedNeverMatches` state what it decides |
| `Views.UntaggedNeverMatches` | main.py:308 | a descriptor without `#` never matches a non-empty country |
| `Views.TagDecides` | main.py:308 | only the text after the last `#`, lowered, decides the match |
| `Views.CountryFilter` | main.py:306-309 | the filter keeps only matching descriptors, and never more than it was given |
| `Views.CountryFilterCounts` | main.py:308 | every matching descriptor is kept as often as the catalog lists it, and nothing else is |
| `Views.CountryFilterAppend` | main.py:308 | the filter distributes over concatenation, so it keeps catalog order |
| `Views.PyPrefix` | main.py:489 | `s[:k]` is a prefix of `s` of length `min(k, n)`, or `max(0, n + k)` for negative `k` |
| `Views.CountOf` | main.py:485-491 | `all` is recognised exactly; any other argument `int()` accepts is that count, and one it rejects is not a number |
| `Views.Selection` | main.py:485-491 | the download subset is a prefix: the whole list for `all` or an argument `int()` rejects, otherwise `list[:n]` |
| `Views.ParseDownloadMode` | main.py:472-484 | `current`, `fastest` and the six country codes are recognised exactly; everything else means the session list |
| `Views.ParseGetAction` | main.py:387-395 | `fastest` asks for ranking; `all`, `fastest` and `vless` carry no country; any other action is a country |
| `Views.VlessIsAll` | main.py:392-396 | `get:vless` loads exactly what `get:all` loads |
| `Views.ConfigAt` | main.py:551-554 | `configs[idx]` after the `idx >= len` check: negative indices count from the end; beyond `-len` there is nothing |
| `Views.ItemIndexMismatch` | main.py:192-196 | a button position on a ranked page can name a different descriptor in the catalog order the single-descriptor handler reads |
| `Views.PageCheckIgnoresView` | main.py:523-526 | with a ranked view of 8 of 20 descriptors, page 1 passes the check and lists nothing |
| `Views.PingCountAsWritten` | main.py:402 | the "all" answer becomes no count, and a number `n` becomes the count `n` |
| `Views.AfterLoadAsWritten` | main.py:317-333 | after a load the list is shown unless ranking was asked; ranking asks for a count exactly when none was given |
| `Views.FastestAllAsksAgain` | main.py:399-404 | answering "all" to the count question asks the same question again |
| `Views.AfterLoadIntended` | main.py:317-333 | the count question is asked only before an answer; "all" ranks the whole list |
| `Views.IntendedAgreesOnCounts` | main.py:317-333 | the corrected follow-up differs from the written one only on the "all" answer |
| `Sessions.Loadable` | main.py:296-309 | a load stores the aggregate, and with a given non-empty country exactly the aggregate's descriptors whose tag holds it (`Views.CountryFilter`), every entry matching it |
| `Sessions.SubDescriptors` | main.py:314 | a sub-multiset of a descriptor list holds only descriptors |
| `Sessions.FilterDescriptors` | main.py:308 | the country filter keeps only descriptors |
| `Sessions.LoadableDescriptors` | main.py:296-309 | every stored list is made of descriptors |
| `Sessions.AggregateDescriptors` | main.py:296-302 | the aggregate holds only descriptors |
| `Sessions.PrefixSubMultiset` | main.py:341 | a prefix holds only elements of the list |
| `Sessions.ProbeAllNext` | main.py:348-364 | one more lookup extends a pass by one answer |
| `Sessions.DropAll` | main.py:609-612 | removing every session's key from a map keyed by sessions leaves it empty |
| `Sessions.AnyUser` | main.py:609 | the refresh loop picks a user of the remaining sessions |
| `Sessions.PageOf` | main.py:181-204 | a keyboard page holds one item per shown position, carrying its position in the view list, the descriptor there and its latency, and the navigation row of the whole view list |
| `Sessions.Subject` | main.py:340-341 | the part `sort_by_ping` ranks is `list[:limit]`, or the whole list without a limit, and holds only elements of the list |
| `Sessions.RankThenShow` | main.py:348-384 | ranking a list and showing page 0 of the ranking gives a permutation of the list and a first page of `min(8, n)` items under the navigation row of the whole ranking |
| `Sessions.DownloadList` | main.py:471-482 | the download source is the stored ranked view for "current" and "fastest" when one is stored; otherwise the session, or for "fastest" a permutation of it, or for a country code the session's matching descriptors |
| `Sessions.SessionStore.constructor` | main.py:49-51 | the store starts with three empty maps |
| `Sessions.SessionStore.Load` | main.py:296-316 | no aggregate or nothing left after the filter changes nothing; otherwise the user's list becomes the filtered aggregate and only that user's caches are dropped; stored lists stay non-empty descriptor lists |
| `Sessions.SessionStore.Reset` | main.py:434-440 | the user's entry is removed from all three maps and nothing else changes |
| `Sessions.SessionStore.Refresh` | main.py:600-612 | an empty aggregate changes nothing; otherwise every open session, and no other user, gets the unfiltered aggregate, its latency cache is dropped, and no ranked view is left |
| `Sessions.SessionStore.GetPing` | main.py:102-118 | a lookup is `ProbeStep` on the user's cache; only that user's cache may change, and not at all on a fresh hit |
| `Sessions.SessionStore.ProbeList` | main.py:348-364 | the lookups of a list, one after another, give the pass's answers and leave the pass's cache in the user's slot |
| `Sessions.SessionStore.SortByPing` | main.py:335-377 | without a session nothing happens; otherwise `list[:limit]` (all without a limit) is probed and ranked, the ranking is a permutation of it, and it is stored with the end time |
| `Sessions.SessionStore.ShowPage` | main.py:173-204 | the page is `Sessions.PageOf` the view list, with the latencies of a pass over the shown positions: in order, each with its position and latency, the navigation row from the view's length; that pass's cache becomes the user's, and nothing else changes |
| `Sessions.SessionStore.RankAndShow` | main.py:335-385 | `sort_by_ping` followed by its page 0: the ranking of `list[:limit]` is stored at the end time, the page shows it, and the user's cache is the one both passes leave (`Sessions.RankThenShow`) |
| `Sessions.SessionStore.HandlePage` | main.py:514-533 | nothing happens without a session or for a page outside the catalog length; otherwise the page of the ranked view, when one is stored, is shown, as `Sessions.SessionStore.ShowPage` shows it, with the same cache update |
| `Sessions.SessionStore.ShowConfig` | main.py:538-556 | the descriptor at the button's position in the catalog order is shown with its latency, and the lookup's cache becomes the user's; nothing happens without a session or for an index out of range |
| `Sessions.SessionStore.DownloadSource` | main.py:471-482 | the source is `Sessions.DownloadList` of the mode: "current" takes a stored ranked view whatever its age; "fastest" without a stored view ranks the whole session, stores the ranking and shows its first page; a country code filters the session; anything else is the session; the result holds only session descriptors |
| `Sessions.SessionStore.Download` | main.py:462-497 | without a session nothing happens; otherwise, in every mode, the selection of `Sessions.DownloadList` is refused when empty and exported joined by newlines otherwise; an export is a non-empty sub-multiset of the session's descriptors |
| `Sessions.SessionStore.LoadAndShow` | main.py:285-333 | a failed load changes nothing; otherwise only the user's list is replaced and the user's caches dropped, then page 0 of the new list is shown, or the count is asked exactly before an answer, or the chosen part is ranked from an empty cache, stored with the ranking's time and its page 0 shown (`Sessions.RankThenShow`) |

## Left out

- HTTP fetching of the catalogs (`fetch_url` and the gathers) is network I/O. The model takes the list of fetched bodies as a parameter, with `None` for a failed source.
- `measure_tcp_ping` is socket I/O with floating-point wall-clock timing. It is the parameter `net`, giving an optional latency in tenths of a millisecond. Its 3 s timeout and the rounding to 0.1 ms are not modelled.
- The `"{val:.1f}ms"` / `"❌"` text of a latency and its parsing back with `float()` are float formatting. The sort key is taken from the optional latency directly.
- Exceptions raised by a `get_ping` task (mapped to 99999 by `sort_by_ping`) are not modelled. A lookup always answers.
- Base64 and JSON decoding are library calls. They are the parameter `decode`, a partial map from the endpoint text to a JSON object. Python's `int()` on a download count is the parameter `toInt` of `Views.CountOf`.
- `Text.Lower` lowers ASCII letters only, while Python's `lower()` covers all of Unicode.
- `Text.IsDigits` accepts ASCII digits only, while Python's `isdigit()` and `int()` also accept other Unicode decimal digits. For `vless://u@h:٤٤٣` the source gives (`h`, 443), while the model goes on to the JSON stage and the fallback, and gives `None` when the decoder fails.
- Concurrency is not modelled: the semaphore of 15 concurrent pings, `asyncio.gather`, the progress messages and the cancellation of `cancel_tasks`.
  - `Ping.ProbeAll`, `Sessions.SessionStore.ProbeList` and the pages probe one descriptor after another with a single `now` per pass.
  - Concurrent tasks in the source may each measure two descriptors that share a cache key. In the model the second is answered from the entry written by the first.
- `Sessions.SessionStore.SortByPing` does not include the page it shows after ranking. `Sessions.SessionStore.RankAndShow` adds that page, and both callers (`Sessions.SessionStore.LoadAndShow` and `Sessions.SessionStore.DownloadSource`) use it.
- The model has one `now` for the lookups of a ranking pass and one `stamp` for the page after it. In the source each lookup stamps its own `time.time()`, so the entries of a long pass carry different times, and which of them the page after a pass of more than 600 s finds stale differs from the model.
- `Sessions.SessionStore.Refresh` visits sessions in an unspecified order, not dictionary order. The result does not depend on the order.
- The periodic sleep loop of `auto_update_configs` and the bot's start-up are not modelled: this is timing and bootstrap.
- Everything aiogram is left out as presentation and I/O:
  - keyboards, menus, `safe_edit`/`safe_answer`, `escape_md_v2`, and button text truncation;
  - the splitting of callback data into fields, with its format errors;
  - `back_to_main`, `handle_clients` and `show_download_menu_filtered`;
  - writing, sending and removing the export file.
- `Views.ConfigAt` gives `None` where `configs[idx]` would raise `IndexError` for `idx < -len(configs)`. The handler then does nothing.
- `cmd_start` (main.py:270-283), `show_main_list` (main.py:253-268) and `back_to_list` (main.py:572-587) have no method of their own. Past their session checks each one is `Sessions.SessionStore.ShowPage(uid, 0, useSorted)`, with its lookups and cache writes. `useSorted` is `uid in rankedCache` for `cmd_start` and `back_to_list`, and `false` for `show_main_list`, whose page is the `Listed` branch of `Sessions.SessionStore.LoadAndShow`. Their texts and keyboards are presentation.
- `handle_sort_fastest` (main.py:590-596) has no method of its own. Past its session check it is `Sessions.SessionStore.LoadAndShow` with `isFastest` set, `country := None` and `request := NotChosen`. It reloads the user's list from all catalogs, so any country filter the session had is dropped.
- `handle_fastest_count` (main.py:399-404) has no session check and no method of its own. It calls `Sessions.SessionStore.LoadAndShow` directly, with `isFastest` set and `country := None`. As written, it passes `request := NotChosen` for the answer "all" (see `Views.PingCountAsWritten` and "## Findings") and `Chosen(First(int(arg)))` for a number. The model's `Chosen(Everything)` for "all" is the corrected call.

## Findings

| source | as written | input that shows it | evidently intended | confidence | as-written member | corrected member |
|---|---|---|---|---|---|---|
| main.py:399-404, 317-324 | `handle_fastest_count` turns the "all" answer into `ping_count=None`, which `load_and_show_configs` reads as "no answer yet" | callback `fastest:all` | rank the whole list (`sort_by_ping` with no limit) | high, not executed | `Views.FastestAllAsksAgain` | `Views.AfterLoadIntended` |

The lemma `Views.FastestAllAsksAgain` shows the as-written behaviour: the "all" answer to the count question
(`Views.PingCountAsWritten`) makes the follow-up (`Views.AfterLoadAsWritten`) ask the
same question again, so the whole list can never be ranked from that button. The
corrected follow-up `Views.AfterLoadIntended` ranks everything for "all". It agrees with
the written one on every other input (`Views.IntendedAgreesOnCounts`), and
`Sessions.SessionStore.LoadAndShow` uses it.
