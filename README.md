# SFC search tool — a Dafny model of its decision logic

The SFC search tool is a browser front end for shop-floor manufacturing
records. It has a small Node edge server. This project models five parts of
the tool:

- **The edge server** (`server.js`). Requests whose URL starts with `/SFCAPI`
  are forwarded to a fixed upstream host. The forwarded request keeps the
  same path and method, uses port 80, and drops the inbound `host` header.
  Every other request is served from the public directory. An extensionless
  path with no file behind it falls back to `index.html`. A path with an
  extension and no file gets 404, and a failed read gets 500.
- **The search history** (`useSearchHistory`). This is a move-to-front list
  of serial numbers, at most 20 long, mirrored into local storage.
- **The settings context** (`SettingsContext`). It holds the four request
  parameters, their environment-or-literal defaults, partial updates, a
  reset, and the copy kept in local storage.
- **The configuration view** (`ConfigurationView`, `RouteView`). These decide
  which tiles the configuration screen shows. They consolidate the left and
  right HPM modules, remove E1.S drives that are already listed as OS SSDs,
  and classify the check-route result as pass, fail or repair.
- **The rack view** (`RackView`). It maps positions to rack units and keeps
  only items whose start unit is inside the 48U rack. It orders the front
  groups, labels the power shelves, and sorts the power supplies pair by
  pair. It also computes the drawing offsets and the rear cartridge slots.

Files:

| file | module(s) | what |
|---|---|---|
| `wrappers.dfy` | `Wrappers` | `Option`, `Result` |
| `text.dfy` | `Text` | `trim`, ASCII `toUpperCase`, `includes`, `parseInt` and `String(n)` for integers |
| `seqs.dfy` | `Seqs` | `filter` and `find` on sequences |
| `json.dfy` | `Json` | the values `JSON.parse` produces plus `undefined`, with truthiness, property access and `String(v)` |
| `node_path.dfy` | `NodePath`, `NodePathFacts`, `NodePathSegments`, `NodePathContainment` | POSIX `path.normalize`, `path.join`, `path.extname` |
| `edge_server.dfy` | `EdgeServer` | the request handler |
| `edge_server_facts.dfy` | `EdgeServerFacts`, `EdgeServerContainment` | what the handler guarantees |
| `browser_storage.dfy` | `BrowserStorage` | `localStorage` as a string store |
| `search_history.dfy` | `SearchHistory` | the history hook |
| `settings.dfy` | `Settings` | the settings provider |
| `configuration_view.dfy` | `ConfigurationView` | the configuration tiles |
| `route_view.dfy` | `RouteView` | the check-route banner |
| `rack_view.dfy` | `RackView` | the rack elevation |

Each core file is modelled in its own form:

- Pure decisions are functions, and lemmas state their properties.
- State that the source changes in place is a class whose methods are tied
  to those functions. These classes are the request and response objects,
  the history hook, the settings provider and the `rackItems` array.
- Loops that push sections or rack items are `while` loops with invariants.
- The PSU list is sorted in place in an `array`.

A thrown `TypeError` (for example, reading a property of a null list entry)
becomes an `Err` result.

Two facts about the static branch are easy to misread in the code:

- **Traversal guard.** The code does not check that the file path stays
  inside the public directory. It only normalises the URL and strips a
  leading run of `../` and `..\` pieces. The model keeps that regex as
  written (`EdgeServer.StripParentRefs`). For every URL beginning with `/`,
  the file path stays under the public directory and has no `..` segment
  (`EdgeServerContainment.AbsoluteUrlStaysInside`). An absolute-form target
  such as `h://x/../../..` does not begin with `/`. It normalises to `..`,
  which the strip keeps, so the file path is the parent of the public
  directory (`EdgeServerContainment.AbsoluteFormReachesParent`).
- **Request for `/`.** `/` is rewritten to `/index.html`, which has an
  extension. If that file is missing the answer is 404, not the fallback's
  500, and a failed read is "Server Error" (`EdgeServerFacts.RootRequest`).

The URL is used verbatim, query string included. So `/app.js?v=1` has the
extension `.js?v=1` and is served as `application/octet-stream`
(`EdgeServerFacts.QueryStringStaysInTheName`).

## Model

| member | source | states |
|---|---|---|
| `EdgeServer.ForwardedRequest` | server.js:26-35 | the forwarded request goes to the fixed host on port 80, with the inbound url (query included) and method, and exactly the inbound headers other than `host`, with their values |
| `EdgeServer.ProxyResponse` | server.js:37-46 | an upstream reply is relayed with its status, headers and bytes; an upstream error gives 500 "Proxy Error" |
| `EdgeServer.StripParentRefs` | server.js:53 | the result is a suffix of the input, what was removed is a run of `../`/`..\` pieces only, and the result does not begin with `../` or `..\` |
| `EdgeServer.SafePath` | server.js:53-54 | a stripped path of exactly `/` becomes `/index.html`, every other stripped path is kept, and the result never begins with a parent reference |
| `EdgeServer.ContentTypeTable` | server.js:9-21 | the content type is the table's MIME type for `.js`, `.css`, `.json`, `.png`, `.jpg`, `.svg`, `.html` and `application/octet-stream` for every other extension, the empty one included |
| `EdgeServer.Handle` | server.js:23-86 | the response sent is the handler's decision for the url, method, headers, filesystem and upstream; on the proxy branch `host` is deleted from the request's own headers object, which is the object forwarded; the static branch leaves the request alone |
| `EdgeServer.Forward` | server.js:25-49 | the proxy branch builds the forwarded request from the request, removes `host` in place, and sends the relayed reply or 500 "Proxy Error" |
| `EdgeServer.ServeStatic` | server.js:52-85 | the stat/read callbacks send exactly the static decision for the url |
| `EdgeServerFacts.RoutingSeparation` | server.js:25-50 | a `/SFCAPI` url's answer depends only on the request and the upstream, never on the filesystem; any other url's answer depends neither on method, headers nor upstream |
| `EdgeServerFacts.StaticResponseOrigin` | server.js:58-85 | every static answer is 200, 404 or 500; only a 200 carries bytes, and those are the requested file's or index.html's; 404 exactly when the target is not a regular file and has an extension |
| `EdgeServerFacts.RootIsEntryDocument` | server.js:54 | the url `/` has the safe path `/index.html` |
| `EdgeServerFacts.RootRequest` | server.js:53-83 | a request for `/` serves the public index.html as `text/html`, 500 "Server Error" when it cannot be read, and 404 when it is missing |
| `EdgeServerFacts.NamedRequest` | server.js:56-83 | a safe path `/name` with an extension reads the file of that name in the public directory: 200 with its type, 500 when unreadable, 404 when missing |
| `EdgeServerFacts.NamedFileRequest` | server.js:9-83 | a request for `/stem.tail` is served from that file with the table's type for `.tail` (octet-stream when unlisted), and is 404 when missing, never the fallback |
| `EdgeServerFacts.QueryStringExtension` | server.js:53-60 | the extension of `/app.js?v=1` is `.js?v=1` |
| `EdgeServerFacts.QueryStringStaysInTheName` | server.js:53-83 | `/app.js?v=1` is looked up as the file `app.js?v=1`: octet-stream when present, 404 when missing |
| `EdgeServerFacts.UnlistedNamedRequest` | server.js:75-83 | a file whose extension is not in the table is served as `application/octet-stream`; a missing one is 404 |
| `EdgeServerFacts.ClientRouteRequest` | server.js:59-69 | an extensionless one-segment route with no file behind it is answered with the index fallback |
| `EdgeServerContainment.AbsoluteUrlStaysInside` | server.js:53-56 | for every url beginning with `/`, the file path is the public directory's prefix followed by a non-empty remainder with no `..` segment |
| `EdgeServerContainment.AbsoluteFormReachesParent` | server.js:53-60 | for every target `scheme://host/../../..`, the safe path is `..`, the file path is the public directory with its last segment dropped, and with no regular file there the answer is the index fallback |
| `EdgeServerContainment.TraversalIsClamped` | server.js:53-56 | `/../../a/b` has the safe path `/a/b` and reads `a/b` inside the public directory |
| `Text.ParseIntOfDecimal` | src/components/RackView.tsx:19 | `parseInt` reads back the decimal form of any integer, whatever non-digit text follows it |
| `SearchHistory.Without` | src/hooks/useSearchHistory.ts:20 | the filtered list does not contain `sn`, holds only old entries, and keeps every old entry other than `sn` |
| `SearchHistory.Added` | src/hooks/useSearchHistory.ts:20-21 | the new list has between 1 and 20 entries, starts with `sn`, and holds nothing but `sn` and old entries |
| `SearchHistory.AddedTail` | src/hooks/useSearchHistory.ts:20-21 | the entries after the head are the old list without `sn`, in order, cut to 19 |
| `SearchHistory.AddedOnce` | src/hooks/useSearchHistory.ts:20-21 | `sn` occurs exactly once in the new list |
| `SearchHistory.AddedNoDuplicates` | src/hooks/useSearchHistory.ts:20-21 | a duplicate-free list stays duplicate-free |
| `SearchHistory.ReAddHead` | src/hooks/useSearchHistory.ts:20-21 | re-adding the head of a duplicate-free list of at most 20 entries changes nothing |
| `SearchHistory.AddIdempotent` | src/hooks/useSearchHistory.ts:20-21 | adding the same serial number twice in a row equals adding it once |
| `SearchHistory.DecodeEncode` | src/hooks/useSearchHistory.ts:10-22 | the list read back from its serialisation is the list that was written |
| `SearchHistory.Restored` | src/hooks/useSearchHistory.ts:6-15 | a list is restored only from a present item that parses; an absent or empty item restores nothing |
| `SearchHistory.RestoreAfterSave` | src/hooks/useSearchHistory.ts:6-22 | the item written by an add restores that exact list |
| `SearchHistory.MalformedIsIgnored` | src/hooks/useSearchHistory.ts:9-13 | a stored text that fails to parse restores nothing |
| `SearchHistory.History.Load` | src/hooks/useSearchHistory.ts:6-15 | the mount effect replaces the list by the restored one and otherwise keeps it (so a fresh hook stays `[]` on a parse failure) |
| `SearchHistory.History.Add` | src/hooks/useSearchHistory.ts:17-25 | the list becomes `Added(old, sn)` and the storage item becomes its serialisation; no other key changes |
| `SearchHistory.History.Clear` | src/hooks/useSearchHistory.ts:27-30 | the list becomes `[]` and the storage key is removed; no other key changes |
| `SearchHistory.RemountRestores` | src/hooks/useSearchHistory.ts:6-30 | after an add or a clear, a remount restores the same list |
| `Settings.Merge` | src/context/SettingsContext.tsx:29-31 | each field takes the partial's value when that key is present and keeps the previous value otherwise |
| `Settings.MergeNothing` | src/context/SettingsContext.tsx:30 | the empty partial is the identity |
| `Settings.MergeIdempotent` | src/context/SettingsContext.tsx:30 | applying the same partial twice equals applying it once |
| `Settings.MergeCompose` | src/context/SettingsContext.tsx:29-31 | two updates in a row are one update with the later keys winning |
| `Settings.OrLiteral` | src/context/SettingsContext.tsx:4-9 | a set, non-empty variable is used, otherwise the literal |
| `Settings.DefaultFields` | src/context/SettingsContext.tsx:4-9 | each default is its environment variable when non-empty, else `PRET_05`, `NV_VR200`, `T80969`, `NV_VR200` |
| `Settings.InitialSettings` | src/context/SettingsContext.tsx:20-23 | a missing or empty item gives `DEFAULT_CONFIG`; a saved record gives that record; text that does not parse throws |
| `Settings.ReloadRestores` | src/context/SettingsContext.tsx:20-27 | the item the effect writes restores exactly the settings it was written from |
| `Settings.Provider.Persist` | src/context/SettingsContext.tsx:25-27 | the storage item becomes the serialisation of the current settings; no other key changes |
| `Settings.Provider.Update` | src/context/SettingsContext.tsx:29-31 | the settings become the merge of the old settings with the partial, and storage mirrors them |
| `Settings.Provider.Reset` | src/context/SettingsContext.tsx:33-35 | the settings become `DEFAULT_CONFIG`, and storage mirrors them |
| `Settings.Mount` | src/context/SettingsContext.tsx:19-27 | mounting succeeds exactly when the initial state does; it then holds the initial settings and has stored them; on a throw storage is untouched |
| `Settings.UseSettings` | src/context/SettingsContext.tsx:44-49 | outside a provider the hook throws the fixed message; inside it returns the context |
| `ConfigurationView.IsValidMeans` | src/components/ConfigurationView.tsx:9-13 | a value is valid exactly when it is not null/undefined and its trimmed string form is neither empty nor `N/A`/`NA` in any case |
| `ConfigurationView.KeyValue` | src/components/ConfigurationView.tsx:22-24 | an invalid value renders nothing; an array is joined by `, `; a string is shown as it is; an object cannot be rendered |
| `ConfigurationView.ItemTiles` | src/components/ConfigurationView.tsx:81-95 | the section throws exactly when the list has a null or undefined entry |
| `ConfigurationView.ItemTilesSelection` | src/components/ConfigurationView.tsx:81-95 | one tile per entry whose SN or PN is valid, at its index, in list order, and no other tile |
| `ConfigurationView.ListTilesNotArray` | src/components/ConfigurationView.tsx:81-82 | a field that is not an array gives no tiles |
| `ConfigurationView.FindAt` | src/components/ConfigurationView.tsx:113-114 | a found module is in the list and at the requested position; the only throw is the null access |
| `ConfigurationView.FindAtIsFind` | src/components/ConfigurationView.tsx:113-114 | the scan equals `find` where it does not throw, and throws exactly when a null entry comes before any match |
| `ConfigurationView.HpmConsolidated` | src/components/ConfigurationView.tsx:112-125 | with an L or R module there is one HPM tile, whose PN is the left module's when truthy and else the right module's |
| `ConfigurationView.HpmFallback` | src/components/ConfigurationView.tsx:126-128 | with neither L nor R, HPM falls back to per-entry tiles and does not throw |
| `ConfigurationView.TrimmedSerialsOk` | src/components/ConfigurationView.tsx:153-157 | the OS SSD serial set is built exactly when every entry is non-null with a string or missing SN |
| `ConfigurationView.TrimmedSerialsAre` | src/components/ConfigurationView.tsx:153-157 | the set holds exactly the non-empty trimmed OS SSD serial numbers |
| `ConfigurationView.UniqueDrives` | src/components/ConfigurationView.tsx:159-162 | the E1.S filter throws unless every drive is non-null with a string or missing SN |
| `ConfigurationView.UniqueDrivesSelect` | src/components/ConfigurationView.tsx:159-162 | the drives kept are exactly those whose trimmed SN is valid and not an OS SSD serial, in order |
| `ConfigurationView.E1sSelection` | src/components/ConfigurationView.tsx:150-180 | the E1.S tile holds exactly the unique drives, in order, and is absent when none remain |
| `ConfigurationView.ModulesWithPart` | src/components/ConfigurationView.tsx:189-190 | the ConnectX modules kept are those with a valid SN or PN, in order; the filter throws exactly on a null module |
| `ConfigurationView.ModuleHeading` | src/components/ConfigurationView.tsx:198 | `L` is "Left Module", `R` is "Right Module", anything else is "Module " followed by the position's string form when it is truthy and by nothing otherwise |
| `ConfigurationView.Render` | src/components/ConfigurationView.tsx:57-232 | nothing without a truthy `DATA`; the placeholder exactly when no section qualifies; otherwise the non-empty grid of sections |
| `ConfigurationView.PbrFirst` | src/components/ConfigurationView.tsx:64-72 | with a valid PBR number the PBR tile comes first |
| `ConfigurationView.PushItems` | src/components/ConfigurationView.tsx:81-95 | the `forEach` loop appends exactly the section's tiles, or stops with the throw |
| `ConfigurationView.PushList` | src/components/ConfigurationView.tsx:75-96 | `renderListSection` appends the list's tiles to the sections built so far |
| `ConfigurationView.BuildSections` | src/components/ConfigurationView.tsx:61-222 | the imperative section builder yields exactly the sections, block by block, in source order |
| `RouteView.FindRepair` | src/components/ConfigurationView.tsx:238 | the scan returns the leftmost index where `R_` is followed by a word character, or none when there is no such index |
| `RouteView.WordRun` | src/components/ConfigurationView.tsx:238 | the run is the longest prefix of word characters |
| `RouteView.RepairStationIsFirstMatch` | src/components/ConfigurationView.tsx:238-246 | there is no match exactly when no `R_` is followed by a word character; otherwise the capture is the non-empty maximal run after the first such `R_` |
| `RouteView.Classify` | src/components/ConfigurationView.tsx:237-255 | repair exactly when the pattern matches, shown as "Repair at " plus the capture, else the raw text; pass exactly when PASS or OK occurs case-insensitively; fail exactly when neither |
| `RouteView.BannerStates` | src/components/ConfigurationView.tsx:248-255 | some state always holds, fail excludes pass and repair, and the colour follows repair over fail over pass, so it is never gray |
| `RouteView.RawResult` | src/components/ConfigurationView.tsx:237 | a truthy string RESULT is used; a falsy one gives the serialised data; a truthy non-string throws on `match` |
| `RouteView.Render` | src/components/ConfigurationView.tsx:235-237 | nothing for falsy data; otherwise the banner of the raw result, or its throw |
| `RouteView.RepairWins` | src/components/ConfigurationView.tsx:238-255 | a result naming a repair station is shown as a repair at that station in yellow, even when it also reads as a pass |
| `RackView.MapPositionToRU` | src/components/RackView.tsx:18-27 | the leading integer of the position, plus 10 for compute and switch trays, and 0 when there is no leading integer |
| `RackView.NumericPosition` | src/components/RackView.tsx:18-27 | a position written as an integer followed by non-digits maps to that integer (plus 10 for trays) |
| `RackView.NumberPosition` | src/components/RackView.tsx:18-19 | a numeric position and its decimal string map to the same unit |
| `RackView.Height` | src/components/RackView.tsx:176-200 | power shelves are 3U and every other group 1U |
| `RackView.PowerLabel` | src/components/RackView.tsx:183-187 | units 4, 7, 39/40 and 42/43 give `3U pwrshlf-01` to `-04`; every other unit gives "Power Shelf" |
| `RackView.Entry` | src/components/RackView.tsx:175-200 | an entry's record has its group, its group's height and the entry itself as details |
| `RackView.Placed` | src/components/RackView.tsx:175-201 | a group's `forEach` throws exactly when its list has a null or undefined entry |
| `RackView.PlacedIsFilter` | src/components/RackView.tsx:168-201 | a group is its list's records in list order, minus those whose start unit is outside 1..48 |
| `RackView.PlacedRecords` | src/components/RackView.tsx:168-171 | every record added starts inside the rack |
| `RackView.Group` | src/components/RackView.tsx:174-179 | a falsy list adds nothing, a truthy non-array throws, an array adds its placed records |
| `RackView.FrontLayout` | src/components/RackView.tsx:166-202 | every front record starts in 1..48, has its group's height, and the groups come in the order management, power, switch trays, compute trays |
| `RackView.GroupRecords` | src/components/RackView.tsx:168-202 | each record of a group has that group's kind and height and starts inside the rack |
| `RackView.ShelfAtTopOverhangs` | src/components/RackView.tsx:168-189 | only the start unit is checked: a 3U shelf at unit 47 or 48 is placed and reaches above unit 48 |
| `RackView.Rack.AddItem` | src/components/RackView.tsx:168-171 | the record is pushed exactly when 1 <= u <= 48 |
| `RackView.Rack.AddEntry` | src/components/RackView.tsx:175-200 | one `forEach` body pushes the entry's record when it fits |
| `RackView.Rack.AddListed` | src/components/RackView.tsx:174-179 | one `if (d.key)` block appends the group's records, or reports its throw |
| `RackView.Rack.AddGroup` | src/components/RackView.tsx:175-178 | the `forEach` loop appends exactly the placed records, or stops with the throw |
| `RackView.LabelFor` | src/components/RackView.tsx:176-200 | the label statements give the caption of the entry's group |
| `RackView.BuildFront` | src/components/RackView.tsx:166-202 | the imperative `rackItems` array ends as the four groups' records in order, or the first throw |
| `RackView.FrontView` | src/components/RackView.tsx:163-202 | nothing without a truthy `DATA`; otherwise exactly the front records built from `DATA` (or the error building them raises), all inside the rack |
| `RackView.Pair` | src/components/RackView.tsx:96-97 | the pair is `ceil(pos / 2)` |
| `RackView.CompareMeans` | src/components/RackView.tsx:93-99 | the comparator is non-positive exactly when the first PSU's pair is higher, or the pair is equal and its position is not greater |
| `RackView.PrecedesTotalPreorder` | src/components/RackView.tsx:93-99 | the comparator's order is reflexive, total and transitive |
| `RackView.SortByPairs` | src/components/RackView.tsx:93-99 | the array ends sorted by the pair order, is a permutation of the original, and entries with equal positions keep their original order |
| `RackView.Insert` | src/components/RackView.tsx:93-99 | one insertion step: the array becomes the old one with `a[i]` moved down to slot `j`, nothing else moved; the entry left below slot `j` precedes `a[i]`, and every entry it passed does not |
| `RackView.MovePastOthers` | src/components/RackView.tsx:93-99 | moving an entry past entries with other positions leaves every run of equal positions as it was |
| `RackView.StableOrderUnique` | src/components/RackView.tsx:93-99 | two arrangements that are both in pair order and have the same runs of equal positions are equal, so the sorted result is the one a stable sort gives |
| `RackView.SortPsus` | src/components/RackView.tsx:93-99 | the PSU array is sorted in place into a permutation of itself with descending pair, ascending position within a pair, unparsable positions as 0, and PSUs with equal positions in their original order |
| `RackView.Offsets` | src/components/RackView.tsx:315-327 | a placed record's bottom is `(startU - 1) * 2` rem on a unit boundary inside the rack, its height `uHeight * 2` rem, and its tooltip opens below exactly when `startU > 24` |
| `RackView.RuLabels` | src/components/RackView.tsx:298 | the unit ruler reads 48 down to 1 |
| `RackView.Slot` | src/components/RackView.tsx:214 | `getCartridge` gives the first cartridge at the position, or none; it throws the null-access error exactly when the first entry that is null, undefined or at the position is null or undefined |
| `RackView.SlotsFrom` | src/components/RackView.tsx:238-242 | the map holds `getCartridge`'s answer for each number, in order, and throws the null-access error exactly when some number's lookup throws |
| `RackView.RearSlots` | src/components/RackView.tsx:209-242 | a truthy non-array `Cable_Cartridge` makes `find` a TypeError; for an array the slots are cartridges 4, 3, 2, 1, each the first cartridge whose POSITION is that number as a string, or empty, and the view throws exactly when one of the four lookups reaches a null or undefined entry first |
| `RackView.RearSlotsWithoutNulls` | src/components/RackView.tsx:209-242 | an array of cartridges with no null or undefined entry always renders the four slots |
| `RackView.Manifold` | src/components/RackView.tsx:210-211 | a manifold is the first element of its list, or undefined when the list is missing |

## Left out

- Byte streaming: `req.pipe` and `proxyRes.pipe` are not modelled. The upstream is an oracle from the forwarded request to a whole reply or an error.
- `http.createServer`, `server.listen` and `console.log`/`console.error` are socket and console I/O, and are not modelled.
- The filesystem is a map from path to a regular file (whose read may fail) or a directory. Symbolic links, permissions beyond a failed read, and races between `stat` and `readFile` are only the "read fails" case.
- Concurrency between requests is not modelled. The server keeps no shared state, so each request is one call.
- Header names are a map from name to one value. Node lower-cases inbound header names, so `host` is the key that is deleted. Multi-valued headers are not modelled.
- Only POSIX `path` semantics are modelled, with `/` as the separator. The Windows variant is not.
- React rendering is not modelled: JSX markup, framer-motion, CSS class strings (apart from the integer offsets), icons, tooltips, `renderMACs`, the PSC list and the front/rear toggle state.
- `src/App.tsx`, `src/hooks/useSFCSearch.ts`, `vite.config.ts` and `src/config.ts` are not part of this model. `src/types.ts` is mirrored only as the `SFCConfig` record.
- `JSON.parse` and `JSON.stringify` are modelled only as far as the stored text goes. A stored text is either the serialisation of a value or text that does not parse. `localStorage` is a string map, and `import.meta.env` is a given input.
- Numbers in parsed data are integers. JSON fractions and exponents are not modelled.
- `toUpperCase` is modelled for ASCII letters only. Unicode case mappings such as `ß` to `SS` are not modelled.
- SearchHistory.History.Load: a parsed value that is not an array of strings is ignored (the list is kept). The source would store whatever `JSON.parse` returned.
- Settings.InitialSettings: a parsed value that is not a record of four strings is an error. The source would use that value as the settings.
- RackView.SortPsus: requires that no PSU entry is null or undefined. On a null entry the source's comparator throws, and undefined entries are moved to the end without calling the comparator.
- EdgeServerContainment.AbsoluteUrlStaysInside: covers only URLs that begin with `/`. For other targets the guard gives no containment: `EdgeServerContainment.AbsoluteFormReachesParent` shows the parent directory reached by `scheme://host/../../..`, and other relative forms (`x/..` for the directory itself, `..\..` for its parent) are not characterised in general.
