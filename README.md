# MarkMaster new-tab page — Dafny model

MarkMaster replaces the browser's new-tab page with a view of the user's
bookmarks. This project models its core in Dafny and proves properties of
that model. The modelled parts are:

- **Conversion.** Nodes of the browser's bookmark tree become the page's own
  two-variant view model (Bookmark or Folder).
- **Search.** The search bar recursively searches the current folder for
  titles, without regard to case.
- **Shipped page.** The shipped `Newtab` page keeps the shown folder and a
  history stack. It handles back and breadcrumb navigation and
  drag-and-drop reordering with a same-kind guard. It shows either the
  search results or the folder's own children. Its rename handler is
  modelled too, although nothing in that page opens the edit modal that
  would call it (`setEditModalOpen` is only ever given `false`), so the
  handler cannot be reached from the page's own interface.
- **Legacy page.** The older page works directly on store nodes. It pops its
  history in place, patches the parent snapshot on rename, and lists
  sub-folders before links. Its create handler (`handleCreateBookmark`) is
  modelled too, although nothing in the page calls it: the page's only
  create-style button, "New Folder", has an empty click handler. So the page
  itself never creates a bookmark.
- **Favicon cache.** The cache key comes from a hostname: the first `www.` is
  removed, then a scheme, then a path. The favicon service URL is built from
  the key, and the local store decides between a hit and a miss.
- **Tile labels.** A bookmark tile shows a truncated title, a host label and
  an icon source.

Files:

| file | contents |
|---|---|
| `wrappers.dfy` | `Option` |
| `strings.dfy` | first-occurrence search (`indexOf`/`includes`), `replace` with a string pattern, ASCII lower-casing |
| `types.dfy` | store nodes, view items, `convertToBookmark` |
| `search.dfy` | `searchBookmarks` as a loop, proved against a pre-order specification; the search effect |
| `navigation.dfy` | folder/history navigation shared by both pages |
| `newtab_page.dfy` | the shipped page: rename, `arrayMove`, the drag guard, the displayed list, and the `Newtab` class |
| `legacy_newtab.dfy` | the legacy page: listing order, rename, the uncalled create handler, and the `LegacyNewtab` class |
| `favicon.dfy` | cache key, service URLs, the hit/miss rule, and the `FaviconCache` class |
| `link.dfy` | tile labels |

The search walk, the page state and the cache are imperative in the source, so
they are methods and classes here. Each one is proved against the pure
function beside it. Conversion, labels and key derivation are pure functions.

Where the system's specification and its code differ, the model follows the code:

- A rename on the shipped page patches only the current folder: its own title
  and its direct children. History entries keep the old title. The handler
  does not patch the search results either. The search effect reruns because
  the current folder changed, and it recomputes them from the patched folder
  (see "Search effect trigger" below).
- A converted Bookmark keeps the children the store node carried.
- The local reorder happens in the store's move callback.

## Model

| member | source | states |
|---|---|---|
| Strings.IndexOf | src/components/SearchBar.tsx:23 | `includes`: some occurrence exists iff the result is Some; then it is an occurrence and no earlier index is one |
| Strings.ReplaceFirst | src/utils/utils.ts:57 | `replace` with a string pattern: unchanged without an occurrence, otherwise only the first occurrence is replaced |
| Strings.Lower | src/components/SearchBar.tsx:23 | `toLowerCase` keeps the length and lower-cases each ASCII letter |
| Strings.LowerIdempotent | src/components/SearchBar.tsx:23 | lower-casing twice is lower-casing once |
| Types.OrZero | src/types/index.ts:45-47 | an undefined number reads as 0, a defined one is kept |
| Types.Convert | src/types/index.ts:40-62 | copies id, title and parentId; numeric fields default to 0; Bookmark iff the url is truthy, keeping that url; Bookmark children defined iff the node's were; a Folder has as many children as the node (none when undefined) |
| Types.ConvertAll | src/types/index.ts:54-60 | the map keeps the length and converts element i to output element i |
| Types.ConvertChildren | src/types/index.ts:50-61 | output child i is the conversion of input child i, for Folders and for Bookmarks that carried children |
| Types.ConvertPreservesCount | src/types/index.ts:40-62 | conversion neither drops nor adds a node anywhere in the tree |
| Search.Matches | src/components/SearchBar.tsx:23 | an item matches iff the lower-cased query occurs somewhere in its lower-cased title; the empty query matches every item |
| Search.MatchIgnoresQueryCase | src/components/SearchBar.tsx:23 | a query and its lower-cased form match the same items |
| Search.SearchBookmarks | src/components/SearchBar.tsx:16-36 | the loop returns exactly the pre-order search of the folder's children |
| Search.SearchEffect | src/components/SearchBar.tsx:38-47 | an empty term gives no results; any other term searches the current folder |
| Search.SearchInAppend | src/components/SearchBar.tsx:22-33 | the results of earlier siblings come before those of later siblings |
| Search.SearchSplit | src/components/SearchBar.tsx:22-33 | child k's results (itself first, then its subtree) sit between those of its earlier and later siblings |
| Search.MatchingFolderFirst | src/components/SearchBar.tsx:23-31 | a matching Folder is reported just before the matches inside it |
| Search.SearchExact | src/components/SearchBar.tsx:22-33 | x is a result iff x matches and is reachable through Folders only; a Bookmark's own children are never searched |
| Search.FolderNotInOwnResults | src/components/SearchBar.tsx:22-33 | the searched folder is never among its own results, so every result is a strict descendant |
| Search.NoMatchNoResults | src/components/SearchBar.tsx:22-35 | a query that no reachable title contains finds nothing |
| Search.SearchBound | src/components/SearchBar.tsx:20-35 | there are no more results than items visited, and an empty folder gives none |
| Navigation.Open | src/pages/newtab.tsx:122-125 | the clicked folder is shown; the old folder is pushed on the history, and the rest of the history is kept |
| Navigation.Back | src/pages/newtab.tsx:127-133 | with an empty history nothing changes; otherwise the top entry is popped and shown |
| Navigation.Jump | src/pages/newtab.tsx:220-226 | breadcrumb i shows history entry i and cuts the history to the entries before it |
| Navigation.OpenThenBack | src/pages/newtab.tsx:122-133 | opening a folder and going back restores the earlier state |
| Navigation.JumpIsRepeatedBack | src/pages/newtab.tsx:220-226 | breadcrumb i equals pressing back once for each later history entry |
| NewtabPage.RenameChildren | src/pages/newtab.tsx:140-142 | only children with the id take the new title, and a renamed child differs from the original in its title alone; the other children are unchanged and the order is kept |
| NewtabPage.RenameInFolder | src/pages/newtab.tsx:137-143 | the folder's own title changes iff its id is the one renamed; its children are patched; no other field of the folder changes |
| NewtabPage.RenameIdempotent | src/pages/newtab.tsx:135-146 | renaming twice to the same title is renaming once |
| NewtabPage.ArrayMove | src/pages/newtab.tsx:181 | the moved element lands at `to`; removing it gives the list with `from` removed; the result is a permutation |
| NewtabPage.ArrayMoveInverse | src/pages/newtab.tsx:181 | moving back from `to` to `from` restores the list |
| NewtabPage.ArrayMoveExample | src/pages/newtab.tsx:181 | moving the first of [a, b, c] to index 2 gives [b, c, a] |
| NewtabPage.FindIndex | src/pages/newtab.tsx:159-164 | `findIndex`: -1 iff no child has the id, otherwise the first child with it |
| NewtabPage.DragPlan | src/pages/newtab.tsx:148-177 | a drop is ignored when there is no target, the target is the dragged child, an id is not a child, or the kinds differ; otherwise the move is (index of dragged child, index of target) and both are the same kind |
| NewtabPage.Dropped | src/pages/newtab.tsx:177-183 | an ignored drop leaves the children unchanged; any drop keeps them as a permutation |
| NewtabPage.DroppedMoves | src/pages/newtab.tsx:159-181 | an accepted drop puts the dragged child at the target's index and keeps the others in their relative order |
| NewtabPage.Displayed | src/pages/newtab.tsx:257-266 | the search results are shown when there are any, otherwise the folder's children |
| NewtabPage.DisplayedFallsBack | src/pages/newtab.tsx:257-266 | with an empty term, or one nothing matches, the folder's own children are shown |
| NewtabPage.EmptyFolder | src/pages/newtab.tsx:68-75 | the initial folder is an empty Folder with empty id and title |
| NewtabPage.Newtab.constructor | src/pages/newtab.tsx:67-83 | the empty folder, an empty history, no search results and no active drag |
| NewtabPage.Newtab.LoadTree | src/pages/newtab.tsx:112-120 | when the tree has a first top-level node, its conversion is shown; nothing else changes |
| NewtabPage.Newtab.HandleFolderClick | src/pages/newtab.tsx:122-125 | the new state is `Open` of the old one |
| NewtabPage.Newtab.HandleBack | src/pages/newtab.tsx:127-133 | the new state is `Back` of the old one |
| NewtabPage.Newtab.ClickBreadcrumb | src/pages/newtab.tsx:220-226 | the new state is `Jump` of the old one |
| NewtabPage.Newtab.HandleTitleChange | src/pages/newtab.tsx:135-146 | the current folder is patched by `RenameInFolder`; the history and the search results are untouched |
| NewtabPage.Newtab.HandleDragStart | src/pages/newtab.tsx:105-110 | the dragged id becomes active |
| NewtabPage.Newtab.HandleDragEnd | src/pages/newtab.tsx:148-185 | there is no active drag afterwards, and the current folder's children become `Dropped` of the old ones |
| NewtabPage.Newtab.RunSearchEffect | src/components/SearchBar.tsx:38-47 | the page's results become `SearchEffect` of the term and the current folder |
| LegacyNewtab.Listing | src/newtab.tsx:364-390 | the listing holds every child exactly once (undefined children show nothing) |
| LegacyNewtab.Group | src/newtab.tsx:364-390 | each filter keeps only children of its kind, and no more than there were |
| LegacyNewtab.GroupAppend | src/newtab.tsx:364-390 | filtering keeps the original order (it distributes over concatenation) |
| LegacyNewtab.GroupsPartition | src/newtab.tsx:364-390 | the two filters together hold every child exactly once |
| LegacyNewtab.ListingSpec | src/newtab.tsx:364-390 | the listing is a permutation of the children: the url-less ones first, then those with a url |
| LegacyNewtab.ReplaceById | src/newtab.tsx:276-281 | children with the id are replaced by the renamed node, the others kept |
| LegacyNewtab.ReplaceChild | src/newtab.tsx:276-281 | `children?.map`: undefined children stay undefined; defined ones are patched |
| LegacyNewtab.Appended | src/newtab.tsx:294-299 | the created node follows the existing children, or stands alone when there were none |
| LegacyNewtab.Rename | src/newtab.tsx:268-284 | the shown node takes the title and keeps every other field. Only the top history entry changes: its child with the id becomes the renamed node, and none of its other fields change |
| LegacyNewtab.RenameSeenAfterBack | src/newtab.tsx:261-284 | after a rename, going back shows the parent with the renamed child at the same index |
| LegacyNewtab.CreatedListedLast | src/newtab.tsx:293-300 | a created bookmark is listed after every folder and every earlier link |
| LegacyNewtab.NewBookmarkRequest | src/newtab.tsx:287-292 | the create request targets the current node: title "New Bookmark", url https://www.google.com |
| LegacyNewtab.InitialData | src/newtab.tsx:232-240 | the initial node has an empty id and title, no url, and no children |
| LegacyNewtab.LegacyNewtab.constructor | src/newtab.tsx:232-242 | the initial node and an empty history |
| LegacyNewtab.LegacyNewtab.HandleFolderClick | src/newtab.tsx:254-259 | a child with a children array (even an empty one) is opened; any other click changes nothing |
| LegacyNewtab.LegacyNewtab.HandleBackClick | src/newtab.tsx:261-266 | the new state is `Back` of the old one |
| LegacyNewtab.LegacyNewtab.HandleChangeTitle | src/newtab.tsx:268-284 | the new state is `Rename` of the old one |
| LegacyNewtab.LegacyNewtab.HandleCreateBookmark | src/newtab.tsx:286-303 | the handler, which nothing in the page calls: the request is `NewBookmarkRequest`; the created node is appended to the shown node's children; the history is kept |
| Favicon.WordRun | src/utils/utils.ts:58 | the longest leading run of `\w` characters |
| Favicon.StripScheme | src/utils/utils.ts:58 | a leading `word://` is removed, or else a leading `//`; nothing else is removed |
| Favicon.SchemeAtIsWordRun | src/utils/utils.ts:58 | a scheme prefix is exactly the leading word run, so the regular expression matches at most one way |
| Favicon.BeforeSlash | src/utils/utils.ts:59 | `split('/')[0]`: a prefix with no `/`, either the whole string or followed by `/` |
| Favicon.CacheKey | src/utils/utils.ts:55-60 | the key has no `/` and is a prefix of the hostname after `www.` and the scheme are removed |
| Favicon.SlashFreeUnchanged | src/utils/utils.ts:58-59 | a string without `/` passes the scheme and path steps unchanged |
| Favicon.KeyOfSlashFreeHost | src/utils/utils.ts:55-60 | for a hostname without `/`, the key is the hostname with its first `www.` removed |
| Favicon.GetFavicon | src/utils/utils.ts:25-27 | the service URL prefix followed by the domain |
| Favicon.GetFavicon2 | src/utils/utils.ts:28-30 | the same prefix followed by the domain |
| Favicon.FaviconUrl | src/utils/utils.ts:32-38 | whatever the browser language, the fetched URL is the service prefix plus the key |
| Favicon.Decide | src/utils/utils.ts:61-66 | a hit iff the key holds a truthy value, and that value is handed over; otherwise the service URL of the key is fetched |
| Favicon.MissThenHit | src/utils/utils.ts:45-66 | after a miss whose fetch is stored, the same hostname is a hit with that data, and other keys decide as before |
| Favicon.FaviconCache.constructor | src/utils/utils.ts:54-68 | the cache starts from the given store |
| Favicon.FaviconCache.GetFaviconFromCache | src/utils/utils.ts:32-68 | on a hit: the stored value is delivered, nothing is fetched or stored. On a miss: the key's URL is fetched, and a successful fetch is delivered and stored under the key |
| LinkLabels.Truncate | src/components/Link.tsx:75-77 | a title within the limit is kept; a longer one becomes its first `limit` characters plus "..."; characters are Unicode scalar values |
| LinkLabels.TitleLabel | src/components/Link.tsx:75-100 | 7 characters in the grid and 20 in the list, then "..." |
| LinkLabels.TruncateIdempotent | src/components/Link.tsx:75-77 | truncating a truncated title changes nothing |
| LinkLabels.HostLabel | src/components/Link.tsx:80 | the hostname without its first `www.`: unchanged when there is none, otherwise the parts before and after that first occurrence joined, 4 characters shorter |
| LinkLabels.HostLabelIsCacheKey | src/components/Link.tsx:103 | for a hostname without `/`, the tile's host label is the favicon cache key |
| LinkLabels.FallbackIcon | src/components/Link.tsx:69 | the 128-pixel service URL: `https://www.google.com/s2/favicons?domain=`, then the bookmark's full url, then `&sz=128` |
| LinkLabels.IconSrc | src/components/Link.tsx:67-70 | the downloaded data URL when there is one, otherwise the service URL; never empty |

## Left out

- **Bookmark store.** The browser's store is not modelled. `getTree` is the `root` argument of `LoadTree`. On the shipped page, an `update` or `move` call is modelled by its callback, run at once. The legacy page's `update` call (src/newtab.tsx:269) has no callback: its local patch runs synchronously right after the call, and that is what `HandleChangeTitle` models. The legacy `create` call is modelled by its callback. `created` and `fetched` are parameters.
- **Callback timing.** Interleaving is not modelled. A callback that reads stale state, such as a move callback applied to a folder changed since the drag, is not modelled either.
- **Browser and fetch inputs.** URL parsing is not modelled: the hostname is an input. The browser language is an input. Downloading a favicon and turning it into a data URL is the `fetched` parameter. Only its outcome (a value, or none on failure) is modelled.
- **Falsy values.** In the cache, the empty string stands for every falsy stored value.
- **NaN.** A NaN number is not modelled; `|| 0` is modelled for undefined values.
- **Lower-casing.** `toLowerCase` covers ASCII letters only, with no other Unicode case mapping.
- **Shipped page load.** `Newtab.LoadTree` requires the first top-level node to have no url. The source casts it to a folder without checking; in the browser it is the bookmarks bar.
- **Legacy page load.** The legacy `getTree` effect (src/newtab.tsx:244-252) is left out. It can store an undefined node when the tree is empty, and the model has no such state. The `bookmarks` lists it fills are never read by the core.
- **Legacy aliasing.** Rename on the legacy page mutates a history object in place. The model replaces the entry by value, so sharing of that object is not modelled.
- **Search effect trigger.** React reruns the search effect when the term or the current folder changes. The model runs it as an explicit `RunSearchEffect` call.
- **UI-only state.** Modal visibility, view-mode persistence, the drag sensors and overlay, text selection clearing and all rendering are left out.
- **Other components.** The context menu, the options page and the chat component are not part of this model. Neither are Folder and ViewToggle rendering, nor deletion and resynchronisation with store events.
- LinkLabels.Truncate: lengths and cuts count Unicode scalar values, while the source counts UTF-16 code units. A title with characters outside the Basic Multilingual Plane (emoji, for example) is therefore cut at a different point than in the source. A cut through a surrogate pair, which leaves a lone surrogate, cannot be represented and is not modelled.
- LinkLabels.TitleLabel: its 7- and 20-character limits count Unicode scalar values, not UTF-16 code units, for the reason given for `Truncate`.
- **Link.tsx download.** The tile's own favicon download (src/components/Link.tsx:12-27) is the `faviconUrl` argument of `IconSrc`.
