# Content composition core of a headless-CMS front end, in Dafny

This project models the logic of a two-application CMS front end. The
"editor" application assembles a page from reusable components in a
drag-and-drop preview. The "web" application renders published pages from
CMS entries. Only the logic is modelled: the preview list and its editing
rules, the content cache and sync bookkeeping, the join of configuration
entries with data entries, and the dispatch of pages and components to
renderers. Styling, networking and the CMS SDK are not.

Modules, one per source file (plus two shared ones):

- `Wrappers` (`wrappers.dfy`): `Option`.
- `JsValue` (`js_value.dfy`): the JSON documents the CMS returns, as `Value`.
  It also holds the JavaScript rules the code relies on when it reads them:
  - property access `a.b`, which throws a TypeError on `null`/`undefined`;
  - optional chaining `a?.b`;
  - truthiness;
  - `Object.entries`, and destructuring its first entry;
  - object spread.
  A thrown TypeError is the `Throws` case of `Completion`, not a precondition.
- `Dashboard` (`dashboard.dfy`): the preview editor of `ContentfulDashboard.tsx`.
  - Class `Editor` holds the list of `Item`s, the selected template and the modal state.
  - Class `DragSource` is the react-dnd drag item, whose index `hover` rewrites.
  - Class `InlineEditor` is the `isEditing`/`editValue` state of one item.
  - The list operations are specified by the functions `Moved`, `Updated`,
    `Deleted` and `NewComponent`, and the lemmas about them state the
    promised properties.
- `ContentSync` (`content_sync.dfy`): `sync.ts`.
  - `ShouldRefreshContent` is the staleness test.
  - Class `ContentCache` is a map from key to data and timestamp. Its `Get`
    and `Has` are specified by the map functions `Lookup` and `Evict`.
  - Class `SyncManager` keeps the subscribers (in insertion order, as a
    JavaScript `Set` iterates them) and the `isSyncing` re-entry flag. Its
    getter `IsCurrentlySyncing` is a plain function.
  - The clock is an explicit `now` argument in milliseconds.
  - Callbacks are opaque ids. Each has a `Behaviour`: it returns, throws, or
    calls `sync()` again.
- `ContentfulJoin` (`contentful_join.dfy`): the pipeline in `fetchAllEntries`
  and `getPageBySlug`, on already-fetched entry listings. It is:
  projection → `FilterPages` → `PairWithData` → `DropUnmatched`.
  `Join` is a one-pass reference definition, and `PipelineIsJoin` proves the
  pipeline equal to it.
- `ComponentRouter`, `PageRouting`, `GenericPage` (`component_router.dfy`,
  `page_router.dfy`, `generic_page.dfy`): the renderer dispatch of the UI
  package. Each `switch` is checked against an independent registry map.
- `PageRenderer` (`page_renderer.dfy`): one end-to-end lemma. Looking up a
  fetched page and routing it never throws.

Behaviour of the code worth noting:
- The join iterates over configurations, not data entries. Output order is
  configuration order, and the first matching data entry wins.
- Discriminators are compared exactly as stored, with no lower-casing.
- There is no recursive resolution and no depth bound. The Generic template
  maps its blocks once.
- A block with no entries makes the Generic template throw.
- Invalid indices for a move are not handled (see `Dashboard.Editor.MoveItem` below).

## Model

| member | source | states |
|---|---|---|
| `Dashboard.Editor.constructor` | apps/editor/src/components/ContentfulDashboard.tsx:613-616 | The dashboard starts on template "1", with its components as the list and the modal closed in "new" mode |
| `Dashboard.Editor.SelectTemplate` | apps/editor/src/components/ContentfulDashboard.tsx:618-624 | The selected id is always recorded. The list becomes the template's components only when a template has that id, and is unchanged otherwise |
| `Dashboard.FindTemplate` | apps/editor/src/components/ContentfulDashboard.tsx:620 | The lookup finds a template iff one has the id, and then it is the first such template in list order |
| `Dashboard.TemplateIds` | apps/editor/src/components/ContentfulDashboard.tsx:566-611 | The built-in ids "1"-"4" find their templates, and every other id finds none |
| `Dashboard.Editor.MoveItem` | apps/editor/src/components/ContentfulDashboard.tsx:626-631 | The list becomes `Moved(old list, from, to)`. Nothing else changes |
| `Dashboard.MovedIsRelocation` | apps/editor/src/components/ContentfulDashboard.tsx:626-631 | A move keeps the length and is a permutation (same multiset). The moved item is at `to`, and removing it gives the old list without `from`, so the others keep their relative order |
| `Dashboard.MovedAt` | apps/editor/src/components/ContentfulDashboard.tsx:626-631 | Position by position, only items between the two indices shift, each by exactly one place |
| `Dashboard.MoveToSelf` | apps/editor/src/components/ContentfulDashboard.tsx:626-631 | `moveItem(i, i)` is the identity |
| `Dashboard.MoveBackRestores` | apps/editor/src/components/ContentfulDashboard.tsx:626-631 | `moveItem(f, t)` followed by `moveItem(t, f)` restores the list |
| `Dashboard.Editor.Hover` | apps/editor/src/components/ContentfulDashboard.tsx:331-336 | `hover` moves the item only when the dragged index differs from the target, and then sets the dragged index to the target |
| `Dashboard.HoverSteps` | apps/editor/src/components/ContentfulDashboard.tsx:331-336 | A second hover over the same target changes nothing. Hovering back over the starting index restores the list |
| `Dashboard.Editor.UpdateItem` | apps/editor/src/components/ContentfulDashboard.tsx:633-637 | The list becomes `Updated(old list, id, content)`. Nothing else changes |
| `Dashboard.UpdatedAt` | apps/editor/src/components/ContentfulDashboard.tsx:633-637 | Each item with the id gets the new content and keeps all its other fields. Every other item, the length and the order are unchanged |
| `Dashboard.UpdateUnknownId` | apps/editor/src/components/ContentfulDashboard.tsx:633-637 | Updating an id no item carries is a no-op |
| `Dashboard.UpdateLastWins` | apps/editor/src/components/ContentfulDashboard.tsx:633-637 | The later of two updates to an id wins. Updating twice with the same content equals updating once |
| `Dashboard.Editor.DeleteItem` | apps/editor/src/components/ContentfulDashboard.tsx:639-641 | The list becomes `Deleted(old list, id)`. Nothing else changes |
| `Dashboard.DeletedMembers` | apps/editor/src/components/ContentfulDashboard.tsx:639-641 | Exactly the items whose id differs from the deleted one remain |
| `Dashboard.DeletedAppend` | apps/editor/src/components/ContentfulDashboard.tsx:639-641 | Deletion distributes over concatenation, so the survivors keep their original order |
| `Dashboard.DeleteUnknownId` | apps/editor/src/components/ContentfulDashboard.tsx:639-641 | Deleting an id no item carries is a no-op |
| `Dashboard.DeleteIdempotent` | apps/editor/src/components/ContentfulDashboard.tsx:639-641 | Deleting twice equals deleting once |
| `Dashboard.NewComponent` | apps/editor/src/components/ContentfulDashboard.tsx:649-655 | The new item has the fresh id, the given type and `editable = true`. Its content is "Existing <type> entry" for an existing entry and "New <type> component" otherwise |
| `Dashboard.Editor.HandleComponentSelect` | apps/editor/src/components/ContentfulDashboard.tsx:648-657 | Exactly one new item is appended at the end, and all earlier items are unchanged |
| `Dashboard.Editor.OpenModal` | apps/editor/src/components/ContentfulDashboard.tsx:643-646 | Opening the modal records its mode and leaves the list alone |
| `Dashboard.Editor.CloseModal` | apps/editor/src/components/ContentfulDashboard.tsx:836 | Closing the modal leaves the list and mode alone |
| `Dashboard.Editor.SelectInModal` | apps/editor/src/components/ContentfulDashboard.tsx:124-127 | A pick in the modal appends an item as "existing" exactly when the modal is in existing mode, then closes the modal |
| `Dashboard.InlineEditor.constructor` | apps/editor/src/components/ContentfulDashboard.tsx:252-253 | The editor starts out not editing, with the item's content as the edit value |
| `Dashboard.InlineEditor.Click` | apps/editor/src/components/ContentfulDashboard.tsx:296 | A click enters editing iff the item is editable |
| `Dashboard.InlineEditor.Change` | apps/editor/src/components/ContentfulDashboard.tsx:271 | Typing replaces the edit value |
| `Dashboard.InlineEditor.Save` | apps/editor/src/components/ContentfulDashboard.tsx:255-258 | Save reports `(item.id, editValue)` and leaves editing |
| `Dashboard.InlineEditor.Cancel` | apps/editor/src/components/ContentfulDashboard.tsx:260-263 | Cancel resets the edit value to the item's content, reports nothing and leaves editing |
| `Dashboard.InlineEditor.KeyDown` | apps/editor/src/components/ContentfulDashboard.tsx:281-284 | Enter behaves as Save and Escape as Cancel. Any other key changes nothing |
| `Dashboard.PreviewKindOf` | apps/editor/src/components/ContentfulDashboard.tsx:342-377 | The preview switch agrees with the registry of the five exact type strings and defaults to the editable block |
| `Dashboard.PreviewDispatch` | apps/editor/src/components/ContentfulDashboard.tsx:342-377 | Dispatch is case-sensitive: "Card" and "carousel" get the default block. The inline editor is shown iff the type is not image, form or Carousel |
| `Dashboard.ModalTypesHaveRenderers` | apps/editor/src/components/ContentfulDashboard.tsx:108-114 | Every type the "add new" modal offers has its own preview renderer |
| `ContentSync.ShouldRefreshBoundary` | apps/editor/src/lib/sync.ts:80-83 | Refresh is needed when there was no update. Otherwise it is needed exactly when the age strictly exceeds `maxAge` (default 300000 ms), and once needed it stays needed |
| `ContentSync.ExpiredIsStale` | apps/editor/src/lib/sync.ts:105 | The cache's expiry test is the same strict-age rule as `shouldRefreshContent` |
| `ContentSync.ContentCache.constructor` | apps/editor/src/lib/sync.ts:90-92 | A new cache is empty and has the given `maxAge` (default 600000 ms) |
| `ContentSync.ContentCache.Set` | apps/editor/src/lib/sync.ts:94-99 | The key is overwritten with the data and timestamp `now`. Other keys are untouched |
| `ContentSync.ContentCache.Get` | apps/editor/src/lib/sync.ts:101-111 | Returns `None` for an absent key, and the data when the entry's age is ≤ `maxAge`. An expired entry yields `None` and is deleted, and only that key is affected |
| `ContentSync.ContentCache.Clear` | apps/editor/src/lib/sync.ts:113-115 | Clearing leaves the cache empty |
| `ContentSync.ContentCache.Has` | apps/editor/src/lib/sync.ts:117-127 | True exactly when `Get` would return data, with the same eviction |
| `ContentSync.SetThenLookup` | apps/editor/src/lib/sync.ts:94-111 | Stored data reads back until it is more than `maxAge` old, and not after |
| `ContentSync.OtherKeysUnaffected` | apps/editor/src/lib/sync.ts:94-127 | Setting or evicting one key changes no other key's answer |
| `ContentSync.EvictionIsInvisible` | apps/editor/src/lib/sync.ts:101-127 | Eviction changes no later answer and is idempotent. A key that reads as absent is gone afterwards |
| `ContentSync.ClearedCacheIsEmpty` | apps/editor/src/lib/sync.ts:113-115 | After clearing, every key reads as absent at every time |
| `ContentSync.Removed` | apps/editor/src/lib/sync.ts:141 | Deleting a callback from the set keeps exactly the other callbacks |
| `ContentSync.RemoveAbsent` | apps/editor/src/lib/sync.ts:141 | Deleting an absent callback changes nothing |
| `ContentSync.RemovedDistinct` | apps/editor/src/lib/sync.ts:141 | Deletion keeps the subscribers free of duplicates |
| `ContentSync.SubscribeThenUnsubscribe` | apps/editor/src/lib/sync.ts:138-143 | The returned unsubscribe removes only its callback. After a fresh subscribe it restores the previous subscribers |
| `ContentSync.SyncManager.constructor` | apps/editor/src/lib/sync.ts:135-136 | A new manager has no subscribers and is not syncing |
| `ContentSync.SyncManager.Subscribe` | apps/editor/src/lib/sync.ts:138-139 | A new callback is added last, and a known one keeps its place |
| `ContentSync.SyncManager.Unsubscribe` | apps/editor/src/lib/sync.ts:140-142 | Exactly that callback is removed |
| `ContentSync.SyncManager.IsCurrentlySyncing` | apps/editor/src/lib/sync.ts:168-170 | The getter reports the re-entry flag. The constructor and every outermost `Sync` leave it false, and a nested `Sync` sees it true |
| `ContentSync.SyncManager.Sync` | apps/editor/src/lib/sync.ts:145-166 | While a sync runs, a nested call returns at once and notifies no one. Otherwise every subscriber is notified once, in order, even after a throwing callback. Each throwing callback is logged, and the flag ends false |
| `ContentSync.Failures` | apps/editor/src/lib/sync.ts:154-160 | The logged errors are exactly the notified callbacks that throw |
| `ContentfulJoin.ProjectConfigs` | apps/web/src/lib/contentful.ts:25-29 | Same length and order as the listing. Each record takes `id` from `sys.id` and `type`/`data` from `fields` |
| `ContentfulJoin.ProjectData` | apps/web/src/lib/contentful.ts:31-36 | Same length and order as the listing. Each record takes `id` from `sys.id` and `type`/`configId`/`data` from `fields` |
| `ContentfulJoin.FilterPages` | apps/web/src/lib/contentful.ts:38-39 | Keeps exactly the configurations with type "Page" and a truthy `data?.data?.slug` |
| `ContentfulJoin.PairWithData` | apps/web/src/lib/contentful.ts:40-43 | One candidate per configuration, in order. Its data entry, when present, points at that configuration, and it is absent only when no data entry points at it |
| `ContentfulJoin.DropUnmatched` | apps/web/src/lib/contentful.ts:44 | Exactly the candidates that have a data entry become pages, and there are no more pages than candidates |
| `ContentfulJoin.FindData` | apps/web/src/lib/contentful.ts:41 | Finds the first data entry whose `configId` equals the configuration id, or none iff no entry matches |
| `ContentfulJoin.PipelineIsJoin` | apps/web/src/lib/contentful.ts:38-44 | The filter / map / filter chain equals the one-pass join over configurations |
| `ContentfulJoin.JoinAppend` | apps/web/src/lib/contentful.ts:38-44 | The join of concatenated configurations is the concatenation of the joins, so output order follows configuration order |
| `ContentfulJoin.JoinMembers` | apps/web/src/lib/contentful.ts:38-44 | There is at most one page per configuration. A page is exactly a qualifying configuration paired with its first matching data entry |
| `ContentfulJoin.TruthySlugPath` | apps/web/src/lib/contentful.ts:39 | A truthy slug path means `config.data` and `config.data.data` are present and non-null |
| `ContentfulJoin.FetchedPagesQualify` | apps/web/src/lib/contentful.ts:38-44 | Every page has type "Page", a truthy slug and `data.configId == config.id`, and its data entry is the first match. There are at most as many pages as configuration entries |
| `ContentfulJoin.FetchedPagesComplete` | apps/web/src/lib/contentful.ts:40-44 | A qualifying configuration with a match yields its page. Without a match it is dropped silently |
| `ContentfulJoin.FetchFollowsConfigOrder` | apps/web/src/lib/contentful.ts:25-46 | Fetching concatenated configuration listings gives the concatenated results |
| `ContentfulJoin.FetchSingleConfig` | apps/web/src/lib/contentful.ts:38-44 | One configuration entry yields exactly its own page or nothing |
| `ContentfulJoin.FetchAllEntries` | apps/web/src/lib/contentful.ts:8-47 | The pages returned equal the one-pass join of the projected configurations with the projected data entries |
| `ContentfulJoin.GetPageBySlug` | apps/web/src/lib/contentful.ts:49-52 | A page it returns is one of the fetched pages and has exactly the slug asked for |
| `ContentfulJoin.FindBySlug` | apps/web/src/lib/contentful.ts:51 | When no page has a broken slug path, the result is the first page whose slug is `slug`, or `None` iff there is none |
| `ContentfulJoin.GetPageBySlugSpec` | apps/web/src/lib/contentful.ts:49-52 | On fetched pages the lookup never throws and returns the first page with the slug, or `None` iff there is none |
| `ContentfulJoin.EmptySlugNotFound` | apps/web/src/lib/contentful.ts:49-52 | The empty slug is never found, because only truthy slugs survive the filter |
| `PageRenderer.RenderPage` | apps/web/src/components/PageRenderer.tsx:36-51 | "Not found" exactly when the lookup finds no page. Otherwise the page has the slug, the title is its `config.data.title`, and the routed element receives its configuration and data |
| `PageRenderer.RenderPageNeverThrows` | apps/web/src/components/PageRenderer.tsx:36-51 | Rendering a looked-up page never throws. It answers "not found" iff no page has the slug, and otherwise routes the first such page with unchanged props |
| `ComponentRouter.RendererFor` | packages/ui/src/lib/ComponetRouter.tsx:9-20 | "Hero", "Card", "Image" and "Button" select Hero, Card, MyImage and Button, in agreement with the registry. Nothing else is selected |
| `ComponentRouter.ComponentsRouter` | packages/ui/src/lib/ComponetRouter.tsx:4-22 | Throws only when `config` is missing or null. A registered type gets its renderer with `config` and `data` unchanged, and any other type gets the "Unknown component" placeholder carrying that type |
| `ComponentRouter.DispatchIsTotal` | packages/ui/src/lib/ComponetRouter.tsx:21-22 | Every props object with a non-null `config` is dispatched to a renderer or to the placeholder |
| `ComponentRouter.CaseSensitive` | packages/ui/src/lib/ComponetRouter.tsx:9-22 | Lower-case "hero", "card", "image", "button" (and "HERO") are unknown types |
| `PageRouting.TemplateFor` | packages/ui/src/lib/PageRouter.tsx:10-25 | "generic", "home", "insights" and "pressrelease" select their templates, in agreement with the registry. Every other value selects Generic |
| `PageRouting.PageRouter` | packages/ui/src/lib/PageRouter.tsx:7-25 | Throws only when `config` or `config.data` is null or missing. Otherwise the template named by `config.data.template` receives `config` and `data` unchanged |
| `PageRouting.CaseSensitiveFallback` | packages/ui/src/lib/PageRouter.tsx:10-25 | "Home", "INSIGHTS", "PressRelease" and a missing template all select Generic |
| `GenericPage.BlockProps` | packages/ui/src/lib/pageTemplates/Generic.tsx:9-12 | A block's props are the spread value of its first entry. The block fails iff it has no first entry |
| `GenericPage.ElementsSpec` | packages/ui/src/lib/pageTemplates/Generic.tsx:8-12 | The map succeeds iff every block has a first entry. It then yields one element per block, in order, with element `i` keyed by index `i` |
| `GenericPage.Elements` | packages/ui/src/lib/pageTemplates/Generic.tsx:8-12 | When the map succeeds it yields one element per block, and element `i` is keyed `i` |
| `GenericPage.GenericPage` | packages/ui/src/lib/pageTemplates/Generic.tsx:8 | The template succeeds only when `props.data.data.data` is an array |
| `GenericPage.GenericPageSpec` | packages/ui/src/lib/pageTemplates/Generic.tsx:8-12 | For a block array, there is one router element per block, in order, keyed by index and carrying the spread first-entry value. It throws iff some block has no entry |
| `GenericPage.OnlyFirstValueMatters` | packages/ui/src/lib/pageTemplates/Generic.tsx:9 | The output depends only on each block's first-entry value |
| `GenericPage.ExtraEntriesIgnored` | packages/ui/src/lib/pageTemplates/Generic.tsx:9 | The first key is discarded and later entries are ignored |
| `GenericPage.EmptyBlockThrows` | packages/ui/src/lib/pageTemplates/Generic.tsx:9 | A block with no entries makes the template throw |
| `GenericPage.HeroBlockScenario` | packages/ui/src/lib/pageTemplates/Generic.tsx:8-12 | The block `{hero: {config: {type: "Hero"}, data}}` becomes one element that the router sends to Hero |

## Left out

- The HTTP fetches, environment variables, bearer token and the `!ok` error branch of `fetchAllEntries` (network I/O). The join works on the already-fetched listings.
- The SDK wrappers in apps/editor/src/lib/contentful.ts, the location dispatch in apps/editor/src/App.tsx and the bootstrap in apps/editor/src/main.tsx. These are foreign calls.
- `useContentfulSync`: a React hook over window online/offline events and `setInterval` (timers and events).
- React rendering, styles, hover state, the react-dnd `useDrag`/`useDrop` wiring and the modal's layout.
- React batching. Handlers read `items` from the render that created them. Two handler calls before a re-render would both start from the same list; the model applies each operation to the current list.
- apps/web/src/app/components/page.tsx, packages/ui/src/index.ts and packages/ui/src/components/demo.tsx (fetch-and-render glue, re-exports, a demo).
- The Insights template: it calls `map` on its props object, so it has no list behaviour to model.
- The Home and PressRelease templates are not part of this model. The router's choice of them is.
- `Dashboard.Editor.MoveItem`: requires both indices to be in range. Its callers pass indices of rendered items. Out-of-range and negative indices are not modelled.
- `Dashboard.InlineEditor.constructor`: an inline editor is created once per item and keeps its state. React keys the preview items by `id`, and the ids "1"-"4" recur in every template, so after a template switch React reuses the editor of the old item with the same id. Its `editValue` still holds the old item's content, because `useState` reads its initial value only at mount. That reuse across list changes is not modelled: each `InlineEditor` belongs to one fixed item.
- `Dashboard.InlineEditor.Click`, `Change`, `Save`, `Cancel`, `KeyDown`: each requires the editing state in which its control is rendered. The controls do not exist in the other state.
- `Dashboard.Editor.HandleComponentSelect`: the fresh id `Date.now().toString()` is a parameter. Two additions in the same millisecond would share an id; nothing is assumed about uniqueness.
- `ContentSync.SyncManager.Sync`: callbacks that subscribe or unsubscribe while being notified are not modelled. The `console.error` of a failing callback is the `errors` result; only the start and finish `console.log` lines are left out. `sync` is `async` but contains no `await`, so its body runs to completion at once, which is how it is modelled.
- `ContentSync.ContentCache.Get`: data stored as JavaScript `null` is indistinguishable from a miss in the source. The model keeps the two apart.
- JSON numbers are integers; fractions, `NaN` and invalid dates are not modelled.
- Objects are member lists in enumeration order. Duplicate keys and inherited properties (`length`, prototype methods) are not modelled, because the core reads only plain data keys.
- `GenericPage.GenericPage`: a block value with its own `key` member would, through the spread, override the index key in React. The model always keys by index.
