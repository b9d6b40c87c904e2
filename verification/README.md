# Verified models of the extension's capture and inspection logic

The browser extension observes pages it does not control: it decodes source maps, names components
so that a name leads back to the component, follows shadow trees and popups while the page rebuilds
them, answers tool requests across two script worlds, batches and buffers events, and measures
layout. This project models that logic in Dafny and proves what it promises, for all inputs and over
all runs.

`dafny verify dfyconfig.toml` checks everything.

## How it is organised

Code that changes state is a class or a method with the loops of the source, proved equal to a
function of the old state; the properties are then lemmas about that function and about runs of it.
A run is any sequence of steps of the component and its environment (the page edits its tree, a timer
fires, a fetch completes, a reply arrives twice); what the environment cannot do is written down as
`Possible`, `Enabled` or `Step` in each module.

| file | what it models |
|---|---|
| `Vlq.dfy`, `SourceMap.dfy`, `SourceLookups.dfy`, `MapCache.dfy` | source maps: 32-bit VLQ decoding, the mappings parser against a printer, binary-search lookup, the LRU cache across suspended fetches |
| `StableIds.dfy`, `ReactIds.dfy`, `VueIds.dfy` | component ids: the segment grammar, climbing and descending on React fibers and Vue instances |
| `RawKeys.dfy`, `ReactKeys.dfy`, `VueKeys.dfy` | the same ids in terms of the keys nodes really carry |
| `ReactTree.dfy`, `ReactSearch.dfy` | capped preorder serialization and search on React trees |
| `ComposedTree.dfy`, `ShadowObserver.dfy`, `AttachPatch.dfy` | the composed tree, discovery of shadow roots, the observer protocol, the shared method patch |
| `Popups.dfy`, `PopupRuns.dfy`, `PopupRoles.dfy`, `PopupTraces.dfy` | the popup producer, what its runs keep, who is primary, what each step reports |
| `Envelopes.dfy`, `Dispatcher.dfy`, `Replies.dfy` | the request protocol between content script and page |
| `EventSink.dfy`, `EventFilters.dfy`, `MutationBatches.dfy`, `Serializer.dfy` | ring buffer and batches, mutation coalescing, the value walker |
| `Elements.dfy`, `EdgeContact.dfy`, `EdgeReports.dfy`, `Paint.dfy` | ancestors and memoized reads, attribution of content to boxes, compositing |
| `Prelude.dfy`, `Text.dfy` | options, JSON values, sequences; splitting, joining and decimals |

The alphabet of `Vlq.dfy` is that of section 4 of RFC 4648, and the mappings follow ECMA-426,
sections "Base64 VLQ" and "Mappings structure".

## What turned out not to hold as documented

The models follow the code. Where its documentation or its evident intent says otherwise:

- `sourcemap/parse.ts` says lines are sorted, and does not sort them (`SortedIffForward` says when a line
  is). Search and scan agree at every valid column exactly when the line is navigable: at every midpoint the
  search can turn at, no later segment starts before it at a column the search would miss
  (`LookupAgreesIff`). Sorted lines are navigable, some unsorted ones too; `UnsortedLineIsMissed` is a
  family of lines that are not.
- It also says segments have 1, 4 or 5 fields, and reads a piece of six or more fields as its first four.
  Two and three fields are rejected (`PieceIff`, `ExtraFieldsIgnored`; `SixFieldsRead` is an input).
- A VLQ value of magnitude 2^31 or more does not come back (`WrappedIff`).
- Stable ids lead back to their component only under the exact conditions of `ReactKeys.KeyedRoundTrip` and
  `VueKeys.KeyedRoundTrip`. Numerals may carry leading zeros, so a component has more than one id
  (`ReactKeys.KeyedResolvesIff`, `VueKeys.KeyedResolvesIff`).
- `vue/resolve_stable_id.ts` promises undefined on any mismatch, but compares only the name of the root
  segment: the root component answers to its own printable, slash-free name with every discriminator that
  has no `/`, no `[` and no line break (`RootResolvesIff`). `RootAnswersMismatch` is an input.
- Shadow roots behind a closed root are not discovered (`DiscoverIff`).
- A request issued under the id of a pending one orphans it (`CallAccountsIffFresh`, `SameIdLosesACall`).
- An event buffer size between 0 and 1 is accepted and then keeps nothing (`NothingReturnedIff`).
- Serializing several React roots can leave fibers out without setting `truncated` (`FlagIsSilentIff`,
  `FlagIsSilent`).
- `walkAndFilter` and `findByText` may set `truncated` although every match was returned: exactly when
  the accepted fibers fit the cap and some fiber, or for `findByText` some root element, comes after the
  point where it is reached (`FalseAlarmIff`, `TextFalseAlarmIff`; inputs `FalseAlarm`, `TextFalseAlarm`).

## Model

| member | source | states |
|---|---|---|
| Vlq.DecodeVlqList | packages/extension/src/sourcemap/vlq.ts:28-55 | the decoding loop with its accumulators is the decoding function: 32-bit shift and or, both error cases with their position |
| Vlq.VlqRoundTrip | packages/extension/src/sourcemap/vlq.ts:28-55 | decoding what the printer wrote gives the list back if and only if every member is below 2^31 in magnitude |
| Vlq.WrappedIff | packages/extension/src/sourcemap/vlq.ts:40-47 | one printed integer survives the wrapping accumulator if and only if its magnitude is below 2^31 |
| Vlq.DecodeEncoded | packages/extension/src/sourcemap/vlq.ts:32-54 | anything printed decodes without error, to one (possibly wrapped) value per integer |
| Vlq.AccumulateFits | packages/extension/src/sourcemap/vlq.ts:38-46 | or-ing shifted five-bit groups into an int32 adds them up as long as the sum stays below 2^32 |
| Vlq.DecodeAccepts | packages/extension/src/sourcemap/vlq.ts:32-54 | a text is accepted if and only if it has only alphabet characters and does not stop inside a value |
| Vlq.DecodedFits | packages/extension/src/sourcemap/vlq.ts:38-50 | every value that is ever decoded, from any text, has a magnitude below 2^31 |
| SourceMap.ReadPieceSteps | packages/extension/src/sourcemap/parse.ts:53-77 | one piece: skipped, rejected, or one segment and new carries |
| SourceMap.ParseLineLoop | packages/extension/src/sourcemap/parse.ts:49-80 | the loop over the pieces of one line; the generated column starts at 0, the other four carries run on |
| SourceMap.ParseMappingsLoop | packages/extension/src/sourcemap/parse.ts:40-81 | the loop over all lines, with carries across lines |
| SourceMap.PieceIff | packages/extension/src/sourcemap/parse.ts:53-77 | a piece is rejected if and only if it does not decode or has two or three fields, and the segment read has a field count other than that of the piece if and only if the piece has six or more |
| SourceMap.ExtraFieldsIgnored | packages/extension/src/sourcemap/parse.ts:64-77 | a piece of six or more fields reads exactly like its first four, whatever the carries |
| SourceMap.SixFieldsRead | packages/extension/src/sourcemap/parse.ts:64-77 | the printed fields 1 to 6 are accepted and read as 1, 2, 3, 4 |
| SourceMap.SegmentsRoundTrip | packages/extension/src/sourcemap/parse.ts:50-78 | parsing printed segments returns them and the right carries exactly when every delta fits 31 bits |
| SourceMap.MappingsRoundTrip | packages/extension/src/sourcemap/parse.ts:40-81 | parsing printed mappings returns the lines if and only if there is a line and every delta is below 2^31 |
| SourceMap.SourceMapRoundTrip | packages/extension/src/sourcemap/parse.ts:30-89 | the same for the whole document, sources and names included |
| SourceLookups.ParsesIff | packages/extension/src/sourcemap/parse.ts:27-89 | a document parses to a map if and only if it is an object with version 3, an array of strings for sources, which are those of the map, mappings that parse to its lines, and its names, or none when they are not all strings |
| SourceMap.SortedIffForward | packages/extension/src/sourcemap/parse.ts:48-62 | the parser does not sort: a line is sorted if and only if no first field after the first is negative |
| SourceMap.FindSegment | packages/extension/src/sourcemap/resolve.ts:21-40 | the binary-search loop; on a sorted line its answer is the linear scan |
| SourceMap.FindIsScan | packages/extension/src/sourcemap/resolve.ts:21-40 | binary search equals the scan for the last segment starting at or before the column, ties included |
| SourceMap.ScanIsLast | packages/extension/src/sourcemap/resolve.ts:2-4 | the scan finds the last segment at or before the column, and nothing exactly when all start later |
| SourceMap.ResolveLocation | packages/extension/src/sourcemap/resolve.ts:42-79 | every early exit and the 1-based/0-based shifts of the lookup |
| SourceMap.LookupIsScan | packages/extension/src/sourcemap/resolve.ts:42-79 | for every parsed document, a lookup on a sorted line is what a linear scan of that line gives |
| SourceMap.PrintedLookupIsScan | packages/extension/src/sourcemap/resolve.ts:42-79 | print, parse, look up: a linear scan of the lines that were printed |
| SourceMap.AgreeIff | packages/extension/src/sourcemap/resolve.ts:21-40 | on any range of any line, the search finds the last position starting at or before every column of a window if and only if the line is navigable there: a condition on the segments alone, midpoint by midpoint |
| SourceMap.LookupAgreesIff | packages/extension/src/sourcemap/resolve.ts:21-40 | search and scan find the same position at every column from 0 on if and only if the whole line is navigable at those columns |
| SourceMap.SearchAgreesIff | packages/extension/src/sourcemap/resolve.ts:21-40 | and at every integer column if and only if it is navigable at all columns |
| SourceMap.SortedIsNavigable | packages/extension/src/sourcemap/resolve.ts:21-40 | a sorted line is navigable in every range and window |
| SourceMap.UnsortedYetNavigable | packages/extension/src/sourcemap/resolve.ts:21-40 | a family of unsorted lines that are navigable |
| SourceMap.NavigableLookupIsScan | packages/extension/src/sourcemap/resolve.ts:42-79 | for every parsed document, a lookup on a navigable line is what a linear scan of that line gives |
| SourceLookups.ResolvesIff | packages/extension/src/sourcemap/resolve.ts:42-79 | on a navigable line a lookup answers with a frame if and only if line and column are integers in range, the last segment starting at or before the column is mapped to a source there is, and the frame holds that source, the line counted from 1, the column and the name of that segment |
| SourceLookups.SortedResolvesIff | packages/extension/src/sourcemap/resolve.ts:42-79 | so for every document that parses, on every line whose columns never step back |
| SourceMap.UnsortedLineIsMissed | packages/extension/src/sourcemap/resolve.ts:29-38 | a family of parsed two-segment lines stepping back that are not navigable, and the column at which the search misses what the scan finds |
| MapCache.Cache.constructor | packages/extension/src/sourcemap/cache.ts:28-36 | starts empty |
| MapCache.Cache.Touch | packages/extension/src/sourcemap/cache.ts:38-46 | the entry moves to the end, the oldest leave until the capacity holds; the loop ends for every integer capacity |
| MapCache.Cache.Begin | packages/extension/src/sourcemap/cache.ts:48-54 | a hit is bumped and returned, a miss changes nothing |
| MapCache.Cache.Finish | packages/extension/src/sourcemap/cache.ts:55-66 | a completed fetch stores its value, null on every failure |
| MapCache.Cache.Clear | packages/extension/src/sourcemap/cache.ts:71 | empties the cache |
| MapCache.CacheIsLru | packages/extension/src/sourcemap/cache.ts:36-72 | over every interleaving of hits, suspended misses, completions and clears the cache is exactly the last `capacity` distinct urls touched since the last clear, in order of last touch, each with the value last fetched for it |
| MapCache.HitIsLastFetch | packages/extension/src/sourcemap/cache.ts:48-67 | a hit returns the last completed fetch of that url; hits are exactly the kept urls |
| MapCache.HitIsParsed | packages/extension/src/sourcemap/cache.ts:48-67 | a hit during a run is what the body of the last completed fetch of that url parsed to, and nothing if that fetch failed or its body did not parse |
| MapCache.HitIffFresh | packages/extension/src/sourcemap/cache.ts:36-54 | during a run a url is held if and only if it was touched since the last clear and fewer than `capacity` other urls were touched after it |
| MapCache.KeepThenTouch | packages/extension/src/sourcemap/cache.ts:38-46 | evicting earlier never changes what a later touch keeps |
| MapCache.ByLastTouchDistinct | packages/extension/src/sourcemap/cache.ts:35 | the reference order lists each touched url once |
| MapCache.ByLastTouchOrder | packages/extension/src/sourcemap/cache.ts:35 | and lists them by the position of their last touch |
| StableIds.ParseSegmentIff | packages/extension/src/react/resolve_stable_id.ts:7 | a segment splits into name and discriminator exactly when it is printed that way, the name not empty, no opening bracket in the discriminator, no line break |
| StableIds.ByIndexFinds | packages/extension/src/react/unkeyed_occurrence.ts:5-12 | counting unkeyed siblings up to an unkeyed sibling leads back to that sibling |
| StableIds.StepIff | packages/extension/src/react/resolve_stable_id.ts:53-73 | resolving the segment of a sibling gives that sibling if and only if it is printable and unambiguous |
| StableIds.StepResolvesIff | packages/extension/src/react/resolve_stable_id.ts:53-73 | the texts that lead one step down to a sibling: its name with its own key when it is the first of its kind, or with any numeral of its occurrence number that is no key |
| StableIds.DescendIff | packages/extension/src/react/resolve_stable_id.ts:51-75 | walking down all segments of a node leads back to it if and only if every step of the way does |
| StableIds.DescendResolvesIff | packages/extension/src/react/resolve_stable_id.ts:51-75 | a list of segments leads from the root to a node if and only if every segment leads one step down the path to it |
| StableIds.RootRoundTrip | packages/extension/src/react/resolve_stable_id.ts:39-43 | the root segment parses back to its index |
| Text.NumeralIff | packages/extension/src/react/resolve_stable_id.ts:39-72 | a text counts as the number n if and only if it is the decimal form of n after any number of zeros |
| StableIds.IdIff | packages/extension/src/react/resolve_stable_id.ts:33-76 | splitting at slashes included: back to the node if and only if the path is printable, unambiguous and free of slashes |
| ReactIds.ChildAtIndex | packages/extension/src/react/resolve_stable_id.ts:11-22 | the sibling loop finds the index-th unkeyed sibling of that name |
| ReactIds.ChildByKey | packages/extension/src/react/resolve_stable_id.ts:24-31 | the sibling loop finds the first sibling with that name and key |
| ReactIds.UnkeyedOccurrence | packages/extension/src/react/unkeyed_occurrence.ts:13-28 | the loop counts the earlier unkeyed siblings of the same name; 0 without a parent or when its parent does not list it |
| ReactIds.SegmentFor | packages/extension/src/react/compute_stable_id.ts:8-13 | the segment of any fiber, one without a parent or not listed by it included |
| ReactIds.ComputeStableId | packages/extension/src/react/compute_stable_id.ts:15-26 | climbing return links up to a host root, or to the end of the links, writes the segments from the top down |
| ReactIds.ClimbIsPath | packages/extension/src/react/compute_stable_id.ts:15-26 | in a linked tree the climb gives exactly the segments of the path from the root down |
| ReactIds.NextChild | packages/extension/src/react/resolve_stable_id.ts:53-72 | one segment: keyed child first, then the occurrence index |
| ReactIds.WalkDown | packages/extension/src/react/resolve_stable_id.ts:51-75 | the loop over segments |
| ReactIds.ResolveStableId | packages/extension/src/react/resolve_stable_id.ts:33-76 | root lookup with all its failures, then the descent |
| ReactIds.ReactIdRoundTrip | packages/extension/src/react/resolve_stable_id.ts:33-76 | on a linked fiber tree, resolving a computed id gives the same fiber if and only if every level of its path is printable, slash-free and unambiguous |
| ReactIds.ResolvesIff | packages/extension/src/react/resolve_stable_id.ts:33-76 | a text resolves to a fiber if and only if it is root, a numeral of the index of a mounted root, and slash-free segments each of which leads one step down the path to that fiber |
| ReactIds.ReactIdsAreInjective | packages/extension/src/react/compute_stable_id.ts:15-26 | two such fibers share an id only when they are the same fiber |
| ReactKeys.SegmentWritten | packages/extension/src/react/compute_stable_id.ts:8-13 | a fiber with a raw key that is not empty is written with that key; any other with the number of earlier siblings in the chain that have its name and no key or an empty one, 0 when it is not listed |
| ReactKeys.KeyedRoundTrip | packages/extension/src/react/resolve_stable_id.ts:33-76 | the id written for a fiber leads back to it if and only if on every level, in terms of names and raw keys: no empty name, no slash and no line break, a key without opening bracket that no earlier namesake carries, or no key and no namesake keyed with the number written |
| ReactKeys.KeyedResolvesIff | packages/extension/src/react/resolve_stable_id.ts:33-76 | the texts that resolve to a fiber, in terms of names and raw keys: root, a numeral of the index of a mounted root, and segments with the key of the next fiber, or a numeral of its number among the unkeyed namesakes |
| VueIds.WalkVNode | packages/extension/src/vue/collect_child_instances.ts:13-28 | the recursive walk pushes exactly the components it meets first |
| VueIds.CollectChildInstances | packages/extension/src/vue/collect_child_instances.ts:36-42 | the children of an instance |
| VueIds.CollectYieldsTheFrontier | packages/extension/src/vue/collect_child_instances.ts:13-42 | exactly the component nodes with no component above them, in render order |
| VueIds.FrontierIff | packages/extension/src/vue/collect_child_instances.ts:13-28 | a place is yielded if and only if it holds a component and nothing on the way is one |
| VueIds.ChildByKey | packages/extension/src/vue/resolve_stable_id.ts:22-29 | the first child with that name and key |
| VueIds.ChildAtIndex | packages/extension/src/vue/resolve_stable_id.ts:31-44 | the index-th unkeyed child of that name |
| VueIds.FindChildInstance | packages/extension/src/vue/resolve_stable_id.ts:49-56 | one parsed segment, keyed child first |
| VueIds.UnkeyedOccurrence | packages/extension/src/vue/unkeyed_occurrence.ts:14-28 | the loop counts the earlier unkeyed children of the same name; 0 without a parent or when its parent does not list it |
| VueIds.SegmentFor | packages/extension/src/vue/compute_stable_id.ts:6-11 | the segment of any instance, one its parent does not list included |
| VueIds.ComputeStableId | packages/extension/src/vue/compute_stable_id.ts:20-32 | climbing parent links writes the component without a parent and then the segments down |
| VueIds.ClimbIsPath | packages/extension/src/vue/compute_stable_id.ts:20-32 | in a linked tree the climb gives exactly the segment of the root component and those of the path below it |
| VueIds.WalkDown | packages/extension/src/vue/resolve_stable_id.ts:89-98 | the loop over the segments below the root component |
| VueIds.ResolveStableId | packages/extension/src/vue/resolve_stable_id.ts:65-99 | root lookup, the check of the root name, the descent |
| VueIds.RootAnswersIff | packages/extension/src/vue/resolve_stable_id.ts:82-87 | the root component answers to its own segment exactly when name and key are printable |
| VueIds.RootAnswersTo | packages/extension/src/vue/resolve_stable_id.ts:82-87 | the root segment is accepted with a discriminator if and only if the name is printable and the discriminator has no line break and no opening bracket, whichever key or index the root has |
| VueIds.RootResolvesIff | packages/extension/src/vue/resolve_stable_id.ts:65-99 | resolving root, name and discriminator gives the root component if and only if its name and the discriminator are free of line breaks and slashes and the discriminator of opening brackets |
| VueIds.VueIdRoundTrip | packages/extension/src/vue/resolve_stable_id.ts:65-99 | resolving a computed id gives the same instance if and only if the root answers and every level below is printable, slash-free and unambiguous |
| VueIds.ResolvesIff | packages/extension/src/vue/resolve_stable_id.ts:65-99 | a text resolves to an instance if and only if it is root, a numeral of the index of a mounted root, then nothing or a segment the root component answers to and segments each of which leads one step down the path to that instance |
| VueKeys.SegmentWritten | packages/extension/src/vue/compute_stable_id.ts:6-11 | an instance with a number or a string that is not empty for a key is written with it; one with no key, a symbol or the empty string with the number of earlier such children of its name, 0 when it is not rendered by its parent |
| VueKeys.KeyedRoundTrip | packages/extension/src/vue/resolve_stable_id.ts:65-99 | the id written for a component leads back to it if and only if the root component and every level below are legible, in terms of names and keys as they are |
| VueKeys.KeyedResolvesIff | packages/extension/src/vue/resolve_stable_id.ts:65-99 | the texts that resolve to an instance, in terms of names and keys as they are |
| ComposedTree.FindEnclosingHost | packages/extension/src/captures/walk_shadow.ts:76-93 | the loop up the composed chain; an element on which the predicate throws is passed over |
| ComposedTree.EnclosingIsNearest | packages/extension/src/captures/walk_shadow.ts:76-93 | what it finds is strictly above, satisfies the predicate and is below every other such element; nothing found means there is none |
| ComposedTree.ComposedContains | packages/extension/src/captures/walk_shadow.ts:95-99 | true exactly for a strict composed ancestor |
| ComposedTree.WalkForShadows | packages/extension/src/captures/walk_shadow.ts:101-116 | the recursive walk appends what the specification discovers |
| ComposedTree.DiscoverShadowRoots | packages/extension/src/captures/walk_shadow.ts:48-52 | the same from an empty array |
| ComposedTree.DiscoverIff | packages/extension/src/captures/walk_shadow.ts:48-116 | discovered if and only if open, not the node itself, and with the node on a composed chain that crosses no closed root |
| ComposedTree.DiscoverWithoutClosed | packages/extension/src/captures/walk_shadow.ts:48-116 | without closed roots: exactly the open roots whose composed chain passes through the node |
| ComposedTree.DiscoverDistinct | packages/extension/src/captures/walk_shadow.ts:101-116 | no root is discovered twice |
| ShadowObserver.Observer.constructor | packages/extension/src/captures/walk_shadow.ts:129-131 | nothing seen before the first scan |
| ShadowObserver.Observer.ObserveShadow | packages/extension/src/captures/walk_shadow.ts:163-183 | a root is marked seen once |
| ShadowObserver.Observer.ScanAndObserve | packages/extension/src/captures/walk_shadow.ts:153-161 | every unseen discovered root is announced and observed |
| ShadowObserver.Observer.OnAttach | packages/extension/src/captures/walk_shadow.ts:191-196 | a newly attached open root is announced and observed |
| ShadowObserver.Observer.ScanAdded | packages/extension/src/captures/walk_shadow.ts:224-227 | each added node of a record is scanned |
| ShadowObserver.Observer.OnRecords | packages/extension/src/captures/walk_shadow.ts:166-229 | a delivered batch, for the document observer and for a root observer |
| ShadowObserver.Observer.Dispose | packages/extension/src/captures/walk_shadow.ts:237-245 | no further effect after disposal |
| ShadowObserver.InsertedIsPending | packages/extension/src/captures/walk_shadow.ts:118-246 | an unseen root under an inserted subtree lies below a node added by an undelivered record |
| ShadowObserver.InsertKeeps | packages/extension/src/captures/walk_shadow.ts:118-246 | insertion and moving keep coverage |
| ShadowObserver.RemoveKeeps | packages/extension/src/captures/walk_shadow.ts:118-246 | removal keeps coverage |
| ShadowObserver.AttachKeeps | packages/extension/src/captures/walk_shadow.ts:191-196 | attaching a root, open or closed, keeps coverage |
| ShadowObserver.DeliverKeeps | packages/extension/src/captures/walk_shadow.ts:166-229 | delivering a batch keeps coverage |
| ShadowObserver.RunInvariant | packages/extension/src/captures/walk_shadow.ts:118-246 | the invariant holds along every run |
| ShadowObserver.ShadowCoverage | packages/extension/src/captures/walk_shadow.ts:118-246 | over every run each unseen open root below the document is below an added node of an undelivered record; with nothing undelivered all are seen; each is announced exactly once, and only open roots are |
| ShadowObserver.OnlyOpenRoots | packages/extension/src/captures/walk_shadow.ts:118-246 | along every run only open shadow roots are observed and announced |
| AttachPatch.Registry.constructor | packages/extension/src/captures/walk_shadow.ts:248-254 | the page before any patch |
| AttachPatch.Registry.Install | packages/extension/src/captures/walk_shadow.ts:256-288 | patches once, adds the listener once, does nothing without a native method |
| AttachPatch.Registry.Uninstall | packages/extension/src/captures/walk_shadow.ts:289-299 | the last listener out restores the native method |
| AttachPatch.Registry.Attach | packages/extension/src/captures/walk_shadow.ts:270-285 | listeners hear of open roots only |
| AttachPatch.PatchIsRestored | packages/extension/src/captures/walk_shadow.ts:256-300 | after any installations and disposals exactly the active listeners are registered, and the native method is in place if and only if there are none |
| Popups.PopupCapture.constructor | packages/extension/src/captures/capture_popup.ts:223-229 | hosts of roots present at installation are the baseline |
| Popups.PopupCapture.ScheduleReSnapshot | packages/extension/src/captures/capture_popup.ts:283-287 | arms the timer of a tracked host at most once |
| Popups.PopupCapture.ReparentInto | packages/extension/src/captures/capture_popup.ts:319-329 | each primary inside the new host becomes nested under it, loses observers and timer, and reports it |
| Popups.PopupCapture.RegisterPopup | packages/extension/src/captures/capture_popup.ts:331-377 | role and parent from the nearest tracked host, then the two branches |
| Popups.PopupCapture.OnAttachShadow | packages/extension/src/captures/capture_popup.ts:400-406 | ignored for baseline hosts and after disposal |
| Popups.PopupCapture.SweepRemovals | packages/extension/src/captures/capture_popup.ts:388-397 | disconnected hosts leave and disappear |
| Popups.PopupCapture.OnBodyMutations | packages/extension/src/captures/capture_popup.ts:409-421 | overlays in order, then the sweep |
| Popups.PopupCapture.OnTimer | packages/extension/src/captures/capture_popup.ts:270-281 | a debounced snapshot, with its three early exits |
| Popups.PopupCapture.Dispose | packages/extension/src/captures/capture_popup.ts:432-439 | everything torn down, nothing emitted |
| PopupRuns.RegisterKeeps | packages/extension/src/captures/capture_popup.ts:331-377 | registration, retroactive re-parenting included, keeps the forest and every trace |
| PopupRuns.RegisterAllKeeps | packages/extension/src/captures/capture_popup.ts:409-421 | so does a whole batch of overlays, each with an id of its own |
| PopupRuns.SweepKeeps | packages/extension/src/captures/capture_popup.ts:388-397 | so does the sweep |
| PopupRuns.StayingMembers | packages/extension/src/captures/capture_popup.ts:388-397 | what stays tracked is exactly what is connected |
| PopupRuns.LeavingEffect | packages/extension/src/captures/capture_popup.ts:388-397 | exactly the popups that left are gone from the event stream; links and everyone else are untouched |
| PopupRuns.RunIsGood | packages/extension/src/captures/capture_popup.ts:231-439 | over every run: links reported form an acyclic forest, primary if and only if no parent, nested popups hold no observers and no timer, every trace is appeared, updates, at most one disappeared |
| PopupRuns.RunGrows | packages/extension/src/captures/capture_popup.ts:319-439 | a reported parent link is never lost or changed, so nested never turns primary; nothing is emitted after disposal |
| PopupRuns.TimerReportsNews | packages/extension/src/captures/capture_popup.ts:270-281 | a timer reports the fresh content of its primary popup exactly when there is content and its signature differs from the one last reported |
| PopupTraces.TimerIsSpent | packages/extension/src/captures/capture_popup.ts:270-281 | a timer that fires is armed no longer, the signature kept is the one last reported, and every other popup is as before |
| PopupTraces.WidgetArms | packages/extension/src/captures/capture_popup.ts:283-301 | a change seen by a widget observer arms the timer of its popup, emits nothing and changes nothing else |
| PopupTraces.BodySettles | packages/extension/src/captures/capture_popup.ts:388-421 | after a batch of body mutations exactly the connected ones among the popups tracked before and the newcomers are tracked; each of those that is not connected is gone, with one disappearance added; every other trace is unchanged |
| PopupTraces.BodyReports | packages/extension/src/captures/capture_popup.ts:388-421 | whatever the registrations of a batch emit comes first; then each disconnected popup is told gone, once and in order, with its last known role and parent and without content |
| PopupTraces.NewcomerReports | packages/extension/src/captures/capture_popup.ts:319-377 | a registration ends with the appearance of the newcomer, with its content and its nearest tracked enclosing popup for a parent; without one, each tracked primary inside it was told just before, once and in order, that it is nested |
| PopupTraces.WatchedSinceOrigin | packages/extension/src/captures/capture_popup.ts:289-377 | over every run each tracked popup comes from a step that named its host and id, and a primary one is watched twice if that was an attached shadow root, once if it was an overlay |
| PopupRoles.PrimaryIffOutermost | packages/extension/src/captures/capture_popup.ts:319-397 | while the order of tracked hosts is kept, a tracked popup is primary if and only if no other tracked host encloses it; the parent of a nested one is tracked and encloses it |
| PopupRoles.NestedRefreshesPrimary | packages/extension/src/captures/capture_popup.ts:361-376 | a nested newcomer always lies in a tracked primary and arms its re-snapshot timer |
| Envelopes.EncodeResponse | packages/extension/src/page_bridge/protocol.ts:59-78 | the envelope filled field by field |
| Envelopes.RequestGuardIff | packages/extension/src/page_bridge/protocol.ts:82-95 | the guard accepts a message if and only if it carries every field of some request |
| Envelopes.DispatchPageRequest | packages/extension/src/page_bridge/page_dispatch.ts:1730-1749 | unknown tool, resolved, rejected: the reply under the same id |
| Replies.PageReplies | packages/extension/src/page_bridge/page_dispatch.ts:1730-1749 | over runs, handling a request gives one reply under its id: a payload and no error if and only if the tool is known and its handler resolved with it; otherwise no payload and an error with exactly the message thrown, or naming the unknown tool; nothing only when what a known handler threw cannot be read |
| Replies.RepliesFit | packages/extension/src/page_bridge/page_dispatch.ts:1730-1749 | over every run each reply on the wire answers a request that was handled, and fits how that went |
| Dispatcher.CsDispatcher.constructor | packages/extension/src/page_bridge/cs_dispatcher.ts:66-72 | nothing pending |
| Dispatcher.CsDispatcher.FinishRequest | packages/extension/src/page_bridge/cs_dispatcher.ts:74-84 | a pending request is removed, its timer cleared, its callback called; otherwise nothing |
| Dispatcher.CsDispatcher.HandleSwRequest | packages/extension/src/page_bridge/cs_dispatcher.ts:86-105 | timer armed, entry stored, envelope posted |
| Dispatcher.CsDispatcher.HandlePageMessage | packages/extension/src/page_bridge/cs_dispatcher.ts:107-124 | replies finish, events are forwarded, anything else is dropped |
| Dispatcher.CsDispatcher.OnTimer | packages/extension/src/page_bridge/cs_dispatcher.ts:96-102 | the timeout error of the captured tool |
| Dispatcher.CsDispatcher.Dispose | packages/extension/src/page_bridge/cs_dispatcher.ts:126-131 | every timer of a pending request cleared |
| Dispatcher.FinishKeeps | packages/extension/src/page_bridge/cs_dispatcher.ts:74-84 | answering one request keeps everyone else waiting |
| Dispatcher.RunIsGood | packages/extension/src/page_bridge/cs_dispatcher.ts:72-131 | under any interleaving of requests, late, repeated and foreign messages, timers and disposals: each callback is called at most once, with its own timeout or what the page made of its own request; every request since the last disposal is answered or waits under its own armed timer |
| Replies.SentFits | packages/extension/src/page_bridge/cs_dispatcher.ts:72-131 | over every run a callback is called with the timeout error of its own tool and time limit, or with a response that fits how a handling of its very request went |
| Dispatcher.ReplyAnswers | packages/extension/src/page_bridge/cs_dispatcher.ts:107-118 | a reply to a waiting request reaches its own callback unchanged, a repeated or late one changes nothing |
| Dispatcher.CallAccountsIffFresh | packages/extension/src/page_bridge/cs_dispatcher.ts:90-103 | issuing a request keeps all others accounted for if and only if its id is not pending |
| Batches.BatchAccumulator.constructor | packages/extension/src/sw_event_sink/batch_accumulator.ts:27-31 | empty, timer off |
| Batches.BatchAccumulator.Create | packages/extension/src/sw_event_sink/batch_accumulator.ts:13-31 | which option is rejected, and in which order they are checked |
| Batches.BatchAccumulator.FlushNow | packages/extension/src/sw_event_sink/batch_accumulator.ts:40-46 | timer off, everything pending handed over as one batch |
| Batches.BatchAccumulator.Push | packages/extension/src/sw_event_sink/batch_accumulator.ts:48-57 | flush when full, otherwise timer on |
| Batches.BatchAccumulator.Dispose | packages/extension/src/sw_event_sink/batch_accumulator.ts:59-62 | what is pending is dropped |
| Batches.PushKeeps | packages/extension/src/sw_event_sink/batch_accumulator.ts:48-57 | a push loses and reorders nothing and leaves fewer than maxSize pending, timer armed exactly when something is; a batch leaves exactly when the size is reached |
| Batches.FlushKeeps | packages/extension/src/sw_event_sink/batch_accumulator.ts:40-46 | a flush keeps content and order |
| EventSinks.EventSink.constructor | packages/extension/src/sw_event_sink/sw_event_sink.ts:55-74 | the effective buffer size |
| EventSinks.EventSink.Handle | packages/extension/src/sw_event_sink/sw_event_sink.ts:83-106 | gate, counters, ring write, logger, forwarding |
| EventSinks.EventSink.Store | packages/extension/src/sw_event_sink/sw_event_sink.ts:88-95 | counters and ring write; the ring stays the end of the history |
| EventSinks.EventSink.OrderedEvents | packages/extension/src/sw_event_sink/sw_event_sink.ts:111-120 | unrolling the ring gives the end of the history, oldest first |
| EventSinks.EventSink.SelectEvents | packages/extension/src/sw_event_sink/sw_event_sink.ts:121-133 | kind filter, then time filter, each only when given |
| EventSinks.EventSink.GetRecent | packages/extension/src/sw_event_sink/sw_event_sink.ts:110-145 | the last events of the filtered last bufferSize accepted events |
| EventSinks.RingStep | packages/extension/src/sw_event_sink/sw_event_sink.ts:90-95 | one write keeps the ring the end of the history |
| EventSinks.RecentAfterRun | packages/extension/src/sw_event_sink/sw_event_sink.ts:110-145 | the same after any run, for every size and filter |
| EventFilters.RecentIs | packages/extension/src/sw_event_sink/sw_event_sink.ts:110-145 | for any history the events returned are, in order, those among the last ones held that have a listed kind, if kinds are listed, and a time after the one given; one that qualifies is left out if and only if as many later ones qualify as the limit (50 when none is given) lets through |
| EventFilters.RecentOfRun | packages/extension/src/sw_event_sink/sw_event_sink.ts:55-145 | so after every run of a sink, for every buffer size asked for |
| EventSinks.CountsAfterRun | packages/extension/src/sw_event_sink/sw_event_sink.ts:88-89 | the counters are the numbers of accepted events, kind by kind |
| EventSinks.LoggedAfterRun | packages/extension/src/sw_event_sink/sw_event_sink.ts:83-104 | over every run a configured logger has heard exactly the accepted events, in order |
| EventSinks.SettledAfterRun | packages/extension/src/sw_event_sink/sw_event_sink.ts:67-105 | pending below maxSize and timer exactly when pending, over every run |
| EventSinks.NothingLost | packages/extension/src/sw_event_sink/sw_event_sink.ts:67-105 | flushed batches joined, plus pending, grow by exactly what is accepted until somebody disposes |
| EventSinks.NothingReturnedIff | packages/extension/src/sw_event_sink/sw_event_sink.ts:58-61 | once something was accepted, no event can ever be returned if and only if the requested size is strictly between 0 and 1 |
| MutationBatches.MutationCapture.constructor | packages/extension/src/captures/capture_dom_mutation.ts:86-89 | nothing pending |
| MutationBatches.MutationCapture.OnRecords | packages/extension/src/captures/capture_dom_mutation.ts:126-143 | absorb, drop beyond the cap, then flush or wait |
| MutationBatches.MutationCapture.Flush | packages/extension/src/captures/capture_dom_mutation.ts:99-119 | one event with the pending patches and the overflow count |
| MutationBatches.MutationCapture.ScheduleFlush | packages/extension/src/captures/capture_dom_mutation.ts:121-124 | arms the timer at most once |
| MutationBatches.MutationCapture.OnTimer | packages/extension/src/captures/capture_dom_mutation.ts:123 | the timer flushes |
| MutationBatches.MutationCapture.Dispose | packages/extension/src/captures/capture_dom_mutation.ts:166-178 | pending and count dropped, timer off |
| MutationBatches.NothingLost | packages/extension/src/captures/capture_dom_mutation.ts:85-143 | over every run the emitted entries and what is pending account for every patch in order; between callbacks nothing is counted as dropped, events hold at most max+1 entries, the timer is armed exactly when something is pending; nothing follows disposal |
| MutationBatches.DeliveryIs | packages/extension/src/captures/capture_dom_mutation.ts:126-143 | below the cap a delivery waits with everything; from the cap on one event holds the first patches and the count of the rest |
| MutationBatches.PatchesAddUp | packages/extension/src/captures/capture_dom_mutation.ts:85-143 | patches emitted, plus overflow counts, plus pending, is the number received |
| MutationBatches.AllAbsorbKeeps | packages/extension/src/captures/capture_dom_mutation.ts:128-136 | inside a delivery, patches are dropped only once the event is full |
| Serializer.SerializeValue | packages/extension/src/captures/serialize.ts:42-80 | terminates on every finite graph with the unseen objects as measure, and is the walk |
| Serializer.ExpandedOnce | packages/extension/src/captures/serialize.ts:62-80 | as many objects are expanded as are newly seen |
| Serializer.ExpandsTheReachable | packages/extension/src/captures/serialize.ts:42-80 | one argument expands exactly the objects reachable from it |
| Serializer.CopiedIffTree | packages/extension/src/captures/serialize.ts:62-80 | no Cycle tag if and only if the value unfolds into a tree of distinct objects, mirrored member for member; the output is then that tree |
| Serializer.TreeIsCopied | packages/extension/src/captures/serialize.ts:62-80 | a tree of unseen objects is copied node for node |
| Serializer.DataIsKept | packages/extension/src/captures/serialize.ts:42-80 | JSON data comes out as the very JSON data it is if and only if no Cycle tag comes out |
| Serializer.SerializeArgs | packages/extension/src/captures/serialize.ts:90-110 | each argument on its own; a stub if and only if its text is too long; truncated if and only if there is a stub |
| Paint.EarlyStopIsFull | packages/extension/src/layout_measure/paint.ts:23-37 | with every layer readable, stopping at the first opaque one and skipping transparent ones is full compositing over white |
| Paint.AnswerIsComposite | packages/extension/src/layout_measure/paint.ts:23-37 | any answer is the full composite of the layers up to the first opaque one |
| Paint.NoBackgroundIff | packages/extension/src/layout_measure/paint.ts:24-35 | no answer if and only if an image or an unparsed color comes before any opaque layer |
| Paint.BackgroundIsOpaque | packages/extension/src/layout_measure/paint.ts:36 | the answer is opaque and its channels stay in any range holding white and the colors read |
| Paint.OverOpaque | packages/extension/src/layout_measure/color.ts:44-49 | over an opaque color the result is opaque and between the two |
| Paint.BlendLaw | packages/extension/src/layout_measure/color.ts:44-49 | a blend lets through the product of what both colors let through, and gives off the light of the top plus that of the bottom as far as the top lets it through |
| Paint.BlendAssociative | packages/extension/src/layout_measure/color.ts:44-49 | layers may be merged in any grouping |
| Paint.AnswerIsLight | packages/extension/src/layout_measure/paint.ts:23-37 | any answer is opaque, and each channel is the light of every layer weighted with what the layers before it let through, over white |
| Elements.AncestorsWithinIff | packages/extension/src/layout_measure/geometry.ts:229-233 | exactly the strict ancestors not beyond the stop |
| Elements.Memo.constructor | packages/extension/src/layout_measure/geometry.ts:137-138 | an empty cache |
| Elements.Memo.Get | packages/extension/src/layout_measure/geometry.ts:139-144 | whatever was asked before, the answer is that of the function |
| Elements.Visibility.CheckClosedDetails | packages/extension/src/layout_measure/geometry.ts:183-188 | the predicate that climbs through its own memo |
| Elements.Visibility.CheckVisuallyHidden | packages/extension/src/layout_measure/geometry.ts:190-194 | the same for hidden ancestors |
| Elements.InClosedDetailsIff | packages/extension/src/layout_measure/geometry.ts:182-188 | hidden if and only if the element or an ancestor is a child of a closed details and not its summary |
| Elements.InVisuallyHiddenIff | packages/extension/src/layout_measure/geometry.ts:190-194 | hidden if and only if the element or an ancestor is |
| EdgeContact.OffscreenCovers | packages/extension/src/layout_measure/checks_box.ts:60-72 | each report offends, none lies inside another, every offender is reported or inside a report |
| EdgeReports.ReportedIff | packages/extension/src/layout_measure/checks_box.ts:22-72 | reported are exactly the visible, not exempt elements with a side more than one pixel past the viewport that are not parked outside out of flow, not inside a scroller, and below no other such element |
| EdgeReports.InPoints | packages/extension/src/layout_measure/checks_box.ts:36-40 | past an edge means some point more than a pixel outside, and parked means no point inside, for rects of some width and a viewport |
| EdgeReports.ReportsInOrder | packages/extension/src/layout_measure/checks_box.ts:64-66 | the reports come in the order of the elements |
| EdgeContact.SideLeavesIff | packages/extension/src/layout_measure/checks_box.ts:125-137 | a side leaf is exactly what counts below the box with nothing in between that is skipped, a control, edged on that side or clipping |
| EdgeContact.AttributedIff | packages/extension/src/layout_measure/checks_box.ts:244-293 | a leaf belongs to a side of a box if and only if the box is the nearest strict ancestor with an edge there and nothing shields the leaf |
| EdgeContact.OneBoxPerLeafSide | packages/extension/src/layout_measure/checks_box.ts:244-252 | at most one box per leaf and side |
| EdgeContact.BoxFinding | packages/extension/src/layout_measure/checks_box.ts:270-291 | a finding exists exactly when something violates, and names a least inset |
| EdgeContact.FindingsIff | packages/extension/src/layout_measure/checks_box.ts:253-293 | exactly the boxes with a violation, one finding each |
| EdgeContact.FindingsDoNotOverlap | packages/extension/src/layout_measure/checks_box.ts:253-293 | no two findings judge the same side of the same leaf |
| EdgeReports.FindingTouches | packages/extension/src/layout_measure/checks_box.ts:244-293 | a finding names a checked box and the content facing one of its sides that is nearest among all too close: across the edge by half a pixel, a control with its own edge within half a pixel, or text nearer sideways than the whole pixels asked for |
| EdgeReports.TouchedIsFound | packages/extension/src/layout_measure/checks_box.ts:244-293 | every checked box that something faces too closely has a finding |
| EdgeReports.FindingComesFirst | packages/extension/src/layout_measure/checks_box.ts:270-285 | what a finding names comes first among all that touches its box equally closely: left, right, top, bottom, and on one side in document order |
| EdgeReports.LeavesInOrder | packages/extension/src/layout_measure/checks_box.ts:125-137 | the leaves of a side come in document order |
| EdgeReports.FindingsInOrder | packages/extension/src/layout_measure/checks_box.ts:258-293 | the findings come in the order of the elements |
| ReactTree.SerializeNode | packages/extension/src/react/serialize_tree.ts:54-98 | the recursion with its shared counters; each node records id, stable id, name, key, state and hooks of its fiber |
| ReactTree.SerializeTree | packages/extension/src/react/serialize_tree.ts:100-130 | all roots without an index, the one root with an index in range, no node and no flag otherwise; the loop over roots |
| ReactTree.SerializedIsFaithful | packages/extension/src/react/serialize_tree.ts:54-98 | a subtree: the first fibers of its cut preorder, depths included, flagged exactly when one is missing |
| ReactTree.NodesTell | packages/extension/src/react/serialize_tree.ts:37-47 | every node emitted stands for a fiber of some root, with its ids and name, its key unless empty, a state exactly for class components that have one, and hooks exactly for function, forward-ref and memo components that have a state |
| ReactTree.PreorderFixesShape | packages/extension/src/react/serialize_tree.ts:68-97 | preorder with depths determines parents, children and order |
| ReactTree.OneRoot | packages/extension/src/react/serialize_tree.ts:119-129 | one selected root: the first maxNodes fibers of the preorder cut at depthLimit, truncated if and only if a fiber is left out |
| ReactTree.RootsAreSerialized | packages/extension/src/react/serialize_tree.ts:119-127 | several roots: emitted fibers and flag |
| ReactTree.FlagIsSilentIff | packages/extension/src/react/serialize_tree.ts:119-127 | fibers are left out without a flag if and only if the cap is used up exactly at the end of a root and fibers follow |
| ReactTree.FlagIsSilent | packages/extension/src/react/serialize_tree.ts:119-127 | two roots of one fiber each and a cap of one: the second is missing and nothing says so |
| ReactSearch.Search.constructor | packages/extension/src/react/find.ts:54-56 | no matches |
| ReactSearch.Search.Visitor | packages/extension/src/react/find.ts:59-69 | one fiber: capped, skipped or matched |
| ReactSearch.Search.Visit | packages/extension/src/react/walk_fiber.ts:5-9 | child only when asked to, sibling always |
| ReactSearch.Search.WalkFiber | packages/extension/src/react/walk_fiber.ts:11-15 | one tree without the siblings of its root |
| ReactSearch.WalkAndFilter | packages/extension/src/react/find.ts:49-73 | the loop over roots |
| ReactSearch.VisitIsScan | packages/extension/src/react/walk_fiber.ts:5-15 | pruning loses nothing against scanning the whole preorder |
| ReactSearch.SearchIsCapped | packages/extension/src/react/find.ts:49-73 | the first maxMatches accepted fibers of the concatenated preorders, truncated if and only if a fiber follows the last permitted match |
| ReactSearch.MatchesAre | packages/extension/src/react/find.ts:49-73 | the matches are, in preorder, the fibers that are host components on elements the filter accepts with fewer than maxMatches such fibers before them |
| ReactSearch.TruncatedIff | packages/extension/src/react/find.ts:59-63 | truncated if and only if there is a cap and some fiber follows that many matches |
| ReactSearch.FalseAlarmIff | packages/extension/src/react/find.ts:49-73 | truncated with every match returned if and only if the accepted fibers do not exceed the cap and some fiber comes after the point where it is reached |
| ReactSearch.FalseAlarm | packages/extension/src/react/find.ts:59-69 | a matching fiber with a child that does not match, under a cap of one: truncated, and nothing is missing |
| ReactSearch.FindByText | packages/extension/src/react/find_by_text.ts:42-102 | the same choice of roots; the loop with its shrinking budget; every match carries the text it matched with |
| ReactSearch.TextSearchIsOneSearch | packages/extension/src/react/find_by_text.ts:62-99 | the same matches and flag as one capped search when every root has a fiber |
| ReactSearch.TextMatchesAre | packages/extension/src/react/find_by_text.ts:62-99 | so are the matches of `findByText`, with whatever roots |
| ReactSearch.TextTruncatedIff | packages/extension/src/react/find_by_text.ts:62-99 | truncated if and only if some fiber, or some root element with or without one, follows that many matches |
| ReactSearch.NoMatchDropped | packages/extension/src/react/find_by_text.ts:62-99 | for any roots: the matches are those of one capped search, the flag is raised exactly when that search raises it or a root element comes after the budget is spent; unflagged, nothing was dropped |
| ReactSearch.TextFalseAlarmIff | packages/extension/src/react/find_by_text.ts:62-99 | truncated with every match returned if and only if the accepted fibers do not exceed the budget and some fiber or root element comes after the point where it is spent |
| ReactSearch.TextFalseAlarm | packages/extension/src/react/find_by_text.ts:62-99 | one matching fiber, a cap of one and a further root element without a fiber: truncated, and nothing is missing |

## Left out

- Request routing, payload checks and the individual tool handlers: field checks and forwarding.
- Network, storage, console, wallet and rrweb capture, the host process and its tables: no logic of this depth.
- Regular expressions, CSS parsing, computed styles, DOM layout and JSON text length: names, keys, styles, rects and sizes are given values; the segment pattern is the split at the last opening bracket before a final closing one.
- Real time and promise scheduling: timers and fetches are explicit steps.
- Popup content, library matching and `isPortalOverlay`: a snapshot is an opaque value with a signature, and the overlays of a mutation batch are given.
- Negative zero, and column sums beyond 2^53, where JavaScript numbers stop being integers.
- Vlq.DecodeVlqList: characters are compared as values, so names inherited by a plain object from its prototype do not arise; the table is indexed with single characters only.
- MapCache.Cache.Finish: the response is one of rejected, bad status or a JSON body; the constructor takes an integer capacity.
- ReactIds.ReactIdRoundTrip: stated for fibers below a mounted host root whose tree is consistently linked; for other fibers only what `ComputeStableId` writes is stated.
- ComposedTree.FindEnclosingHost: detached elements whose own `host` property is a string (links) are not modelled.
- ShadowObserver.Observer.ObserveShadow: `observe` on a shadow root always succeeds, so the branch that swallows its failure is absent.
- ShadowObserver.ShadowCoverage: `observe` always succeeds, callbacks do not re-enter, a fragment is inserted node by node, and the transient observers a browser keeps for removed subtrees are absent.
- AttachPatch.PatchIsRestored: no other script replaces `attachShadow` in between.
- Popups.PopupCapture.constructor: observing the body always succeeds, so the early exit that removes the listener again is absent.
- Dispatcher.RunIsGood: a page script that forges a reply to a pending id is excluded; callbacks that throw are not distinguished from those that return.
- Batches.BatchAccumulator.FlushNow: a flush callback that throws is not modelled.
- EventSinks.CountsAfterRun: event kinds that are names of inherited object properties are excluded.
- MutationBatches.NothingLost: the patch cap is an integer, and what a record says of the page is a given value.
- Serializer.SerializeValue: getters that throw, sparse arrays and a key named `__proto__` are not modelled.
- Paint.EarlyStopIsFull: channels and alpha are reals, so rounding is not modelled.
- EdgeContact.FindingsIff: the shape of a leaf and its distance to an edge are given, as is whether it spans the box.
- ReactTree.SerializeNode: the stable id, display name and key of a fiber are given values.
- ReactSearch.FindByText: the text of a fiber is a given value and the pattern a predicate on it, so a pattern that keeps state between matches is not modelled.
