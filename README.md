# Wedding album: listing, paging and gallery state

A Dafny model of the logic of a small photo-album site. Photos are stored as
files in one folder per category (juron, biya, reception).

- **Listing endpoint** (`GET /api/images`). It keeps the file names with an
  image extension (jpg, jpeg, png, gif, webp, in any case). It sorts them,
  cuts out page `page` of size `limit` (defaults 1 and 30) and turns each name
  into its URL `/images/wedding/<folder>/<file>`. It reports `total` and
  `hasMore`. Without a category it returns page 1 of all three categories.
- **Image loader.** A library helper that filters, prefixes and sorts a given
  list of file names.
- **Album page.** For each category it keeps the photos fetched so far, the
  paging statistics and a loading flag. One combined request seeds them on
  mount. "Load More" appends the next page of one category.
- **Slideshow and photo grid.** Two viewers that step through photos with
  wrap-around index arithmetic.

Modules: `Wrappers` (Option), `Strings` (ASCII case folding and the
lexicographic order of JavaScript's default sort), `Sorting` (insertion sort,
prefixing), `FileNames` (the extension allow-list), `Categories` (the three
categories and the `{ juron, biya, reception }` record), `ImageLoader`,
`ImagesRoute`, `Album` (class `WeddingAlbum`), `Carousel` (next/previous
index), `SlideshowView` (class `Slideshow`) and `PhotoGridView` (class
`PhotoGrid`).

How it is modelled:
- The photo folders are a `map<string, Directory>`. A folder that is not a key
  does not exist. `Unreadable` is a folder whose directory read throws.
- The parsed query is a `Request`. `None` stands for an absent or empty
  parameter.
- A network reply reaches the client as a parameter (`Option<…>`, where `None`
  means the fetch or its JSON failed).
- The client's `loadMoreImages` is split into `BeginLoad`, then
  `CompleteSuccess` or `CompleteFailure`. `LoadMore` runs the three in a row.
- `Album.InSync` ties a category's gallery to the server's sorted listing:
  after `k` successful loads the gallery holds the URLs of the first
  `min(k * 30, total)` files. `SeedInSync` and `LoadMoreInSync` show that the
  initial load and every further load keep this true. Together with the exact
  new state that `CompleteSuccess` promises, this gives the "after k loads"
  property.

## Model

| member | source | states |
|---|---|---|
| `FileNames.FilterImages` | app/api/images/route.ts:23 | every name keeps its multiplicity if it passes the extension test and is dropped otherwise |
| `FileNames.FilterImagesMembers` | lib/image-loader.ts:4 | a name survives the filter iff it is in the input and passes the test |
| `FileNames.IsImageFileIgnoresCase` | app/api/images/route.ts:23 | names that agree up to ASCII case are both kept or both dropped (the `i` flag) |
| `FileNames.ExtensionInAnyCaseMatches` | app/api/images/route.ts:23 | `stem.ext` is kept for every allowed extension written in any mix of case |
| `FileNames.ImageFileHasDot` | app/api/images/route.ts:23 | every kept name contains the `.` of the pattern |
| `FileNames.UpperCaseExtensionKept` | lib/image-loader.ts:4 | `B.PNG` is kept |
| `FileNames.OtherExtensionDropped` | lib/image-loader.ts:4 | `a.txt` is dropped |
| `FileNames.BareExtensionDropped` | app/api/images/route.ts:23 | a bare `jpg` is dropped |
| `Sorting.Sort` | app/api/images/route.ts:24 | the result is sorted in lexicographic order and is a permutation of the input |
| `Sorting.InsertSorted` | app/api/images/route.ts:24 | inserting into a sorted list keeps it sorted and adds exactly one element |
| `Sorting.Prefixed` | app/api/images/route.ts:33 | the URL mapping keeps the length, and element i becomes the prefix followed by name i |
| `Sorting.SortPrefixed` | lib/image-loader.ts:5-6 | sorting the prefixed paths equals prefixing the sorted names, because a common prefix does not change the order |
| `ImageLoader.GetImagesFromFolder` | lib/image-loader.ts:2-7 | the output is sorted and is a permutation of the prefixed image names; its length is the number of image names |
| `ImageLoader.ListedIff` | lib/image-loader.ts:4-5 | `folderPath/f` is in the output iff `f` is an input name that passes the extension test |
| `ImageLoader.EveryPathIsAnImage` | lib/image-loader.ts:4-5 | every output path is `folderPath + "/" + f` for an input image name `f` |
| `ImageLoader.EmptyInput` | lib/image-loader.ts:3-6 | empty input gives empty output |
| `ImagesRoute.SortedImages` | app/api/images/route.ts:22-24 | the folder listing is sorted and is a permutation of the filtered names |
| `ImagesRoute.PageEnd` | app/api/images/route.ts:27-28 | `end = start + limit` equals `page * limit` |
| `ImagesRoute.Paginate` | app/api/images/route.ts:26-35 | `total` is the list length; the page has `min(limit, max(0, total - (page-1)*limit))` entries; `hasMore` iff `page*limit < total`; entry i is the URL of file `(page-1)*limit + i` |
| `ImagesRoute.GetImagesFromFolder` | app/api/images/route.ts:14-36 | a missing folder gives `{images: [], total: 0, hasMore: false}` with no `page`; the result is absent (the read throws) iff the folder is unreadable |
| `ImagesRoute.FirstPages` | app/api/images/route.ts:44-51 | without a category, the reply has exactly juron, biya and reception, each at page 1 with the same limit; it is the 500 reply iff one of the folders is unreadable |
| `ImagesRoute.Get` | app/api/images/route.ts:5-59 | a non-empty category gets its page at the defaulted page and limit, and a throwing read gives the 500 reply; otherwise the result is the all-categories reply |
| `ImagesRoute.HasMoreIffNextPageNonEmpty` | app/api/images/route.ts:27-29 | `hasMore` holds iff page `page + 1` would be non-empty |
| `ImagesRoute.PastTheEnd` | app/api/images/route.ts:27-32 | a page starting at or past the end is empty with `hasMore` false, not an error |
| `ImagesRoute.PageIsSlice` | app/api/images/route.ts:27-33 | a page is the prefixed slice `[(page-1)*limit, page*limit)`, clamped to the length |
| `ImagesRoute.PagesStep` | app/api/images/route.ts:27-33 | pages 1..k are pages 1..k-1 followed by the k-th slice |
| `ImagesRoute.PrefixedSplit` | app/api/images/route.ts:31-33 | the prefixed first `lo` names followed by the prefixed slice `[lo, hi)` are the prefixed first `hi` names |
| `ImagesRoute.PagesTile` | app/api/images/route.ts:27-33 | pages 1..k together are exactly the URLs of the first `min(k*limit, total)` files, with no gaps or duplicates |
| `ImagesRoute.CeilingCovers` | app/api/images/route.ts:27-29 | ceil(n/limit) pages of size `limit` reach at least n entries |
| `ImagesRoute.AllPagesCoverListing` | app/api/images/route.ts:27-33 | pages 1..ceil(total/limit) reproduce the whole sorted, prefixed listing |
| `ImagesRoute.FortyFivePhotos` | app/api/images/route.ts:10-33 | with 45 files and limit 30: page 1 has 30 with `hasMore`; page 2 has 15 without; together they are the whole listing |
| `ImagesRoute.PageSorted` | app/api/images/route.ts:24-33 | every page of a sorted listing is in ascending order |
| `ImagesRoute.PageEntriesFromListing` | app/api/images/route.ts:31-33 | every URL on a page is the folder URL followed by a file of the listing |
| `ImagesRoute.ListedFolderPage` | app/api/images/route.ts:22-35 | for an existing folder, `total` counts exactly the image names; the page is ascending; each entry is `/images/wedding/<folder>/<f>` for an image name `f` of the folder |
| `ImagesRoute.AgreesWithImageLoader` | app/api/images/route.ts:22-33 | the endpoint's full prefixed listing equals the library helper's output for the same folder |
| `ImagesRoute.CategoryReply` | app/api/images/route.ts:39-41 | a category query for an existing folder with no `limit` is that folder's page of its sorted image names at limit 30 |
| `ImagesRoute.CategoryDefaults` | app/api/images/route.ts:9-10 | absent `page` and `limit` behave as 1 and 30 |
| `ImagesRoute.AllCategoriesIgnorePage` | app/api/images/route.ts:44-49 | without a category the `page` parameter has no effect |
| `Categories.ByCategory.With` | app/page.tsx:63 | `{...prev, [c]: v}`: `c` gets `v`; every other category keeps its value |
| `Album.SeedImages` | app/page.tsx:40-44 | each category's gallery is the images of its part of the combined reply |
| `Album.SeedStats` | app/page.tsx:46-50 | each category gets the reply's `total` and `hasMore` with `page = 1` |
| `Album.WeddingAlbum.constructor` | app/page.tsx:9-29 | empty galleries; stats `{0, false, 1}`; nothing loading |
| `Album.WeddingAlbum.LoadImages` | app/page.tsx:35-54 | the combined reply seeds every category's images and stats at page 1; any failure leaves everything as it was (empty, `hasMore` false after the constructor) |
| `Album.WeddingAlbum.BeginLoad` | app/page.tsx:60-67 | nothing changes while `c` is loading or exhausted; otherwise `c` alone is marked loading and page `page + 1` is requested |
| `Album.WeddingAlbum.CompleteSuccess` | app/page.tsx:70-82 | `c`'s gallery is the old one followed by the reply's images; its stats are the reply's with the requested page; `c` stops loading; other categories are unchanged |
| `Album.WeddingAlbum.CompleteFailure` | app/page.tsx:79-83 | only `c`'s loading flag is reset; images and stats are unchanged |
| `Album.WeddingAlbum.LoadMore` | app/page.tsx:60-84 | the whole `loadMoreImages`: a no-op behind the guard; otherwise append and advance on success, unchanged data on failure; loading flags end as they began |
| `Album.WeddingAlbum.AllImages` | app/page.tsx:86-90 | juron, biya and reception one after another; the length is the sum, and each category occupies its own segment |
| `Album.SeedInSync` | app/page.tsx:36-50 | the initial load puts a listed category in sync with its sorted listing at page 1 |
| `Album.MissingFolderSeed` | app/page.tsx:41-47 | a missing folder seeds an empty gallery with `hasMore` false |
| `Album.NextPageInSync` | app/page.tsx:70-78 | appending page `page + 1` of the listing to an in-sync gallery keeps it in sync, one page further |
| `Album.LoadMoreInSync` | app/page.tsx:66-78 | loading page `page + 1` of an in-sync category keeps it in sync one page further: the gallery becomes the first `min((page+1)*30, total)` URLs |
| `Carousel.Next` | components/slideshow.tsx:30-32 | `(i+1) % n` lies in `[0, n)`: it is `i+1`, or 0 at `n-1` |
| `Carousel.Prev` | components/slideshow.tsx:34-36 | `(i-1+n) % n` lies in `[0, n)`: it is `i-1`, or `n-1` at 0 |
| `Carousel.PrevUndoesNext` | components/photo-grid.tsx:20-26 | previous after next restores the index |
| `Carousel.NextUndoesPrev` | components/slideshow.tsx:30-36 | next after previous restores the index |
| `Carousel.Advance` | components/slideshow.tsx:23-25 | k timer ticks stay within `[0, n)` |
| `Carousel.AdvanceIsModular` | components/slideshow.tsx:23-25 | k ticks from `i` land on `(i + k) % n` |
| `Carousel.FullCycle` | components/slideshow.tsx:23-25 | n ticks bring the slideshow back to where it started |
| `SlideshowView.Slideshow.constructor` | components/slideshow.tsx:12-18 | starts at index 0, playing unless `autoplay` is false (default true) |
| `SlideshowView.Slideshow.CurrentImage` | components/slideshow.tsx:53 | while anything is rendered, the index names a photo of the list |
| `SlideshowView.Slideshow.HandleNext` | components/slideshow.tsx:30-32 | the index becomes `Next`, and stays valid |
| `SlideshowView.Slideshow.HandlePrev` | components/slideshow.tsx:34-36 | the index becomes `Prev`, and stays valid |
| `SlideshowView.Slideshow.Tick` | components/slideshow.tsx:20-28 | while playing with at least one photo a tick is `HandleNext`; otherwise nothing changes |
| `SlideshowView.Slideshow.GoTo` | components/slideshow.tsx:95 | the dot of photo k sets the index to k |
| `SlideshowView.Slideshow.TogglePlay` | components/slideshow.tsx:70 | flips `isPlaying` and leaves the index unchanged |
| `SlideshowView.Slideshow.UpdateImages` | app/page.tsx:184 | a longer photo list from the page keeps the index valid |
| `PhotoGridView.PhotoGrid.constructor` | components/photo-grid.tsx:12-13 | the lightbox starts closed at index 0 |
| `PhotoGridView.PhotoGrid.HandleImageClick` | components/photo-grid.tsx:15-18 | clicking photo k sets the index to k and opens the lightbox |
| `PhotoGridView.PhotoGrid.HandleNext` | components/photo-grid.tsx:20-22 | the index becomes `Next` and stays in `[0, n)` |
| `PhotoGridView.PhotoGrid.HandlePrev` | components/photo-grid.tsx:24-26 | the index becomes `Prev` and stays in `[0, n)` |
| `PhotoGridView.PhotoGrid.Close` | components/photo-grid.tsx:62 | closes the lightbox and keeps the index |
| `PhotoGridView.PhotoGrid.UpdateImages` | app/page.tsx:191 | a longer photo list from the page keeps the index valid |

## Left out

- File-system access (`existsSync`, `readdirSync`, `path.join`, `process.cwd()`) is replaced by the `FileSystem` map. A category such as `../x` that `path.join` would resolve outside the photo folder is not modelled.
- HTTP and JSON plumbing (`NextResponse.json`, status codes, `console.error`). The 500 reply is the `ServerError` value.
- `ImagesRoute.Get`: requires `page` and `limit` to be at least 1 when present. Only an absent or empty parameter falls back to 1 or 30. A non-numeric value gives `NaN` from `parseInt`, not the default. A page of 0 or below makes `slice` count from the end. Neither case is modelled.
- Sort order: JavaScript compares UTF-16 code units, and the model compares `char` code points. The two differ only between characters above U+FFFF and characters in U+E000–U+FFFF.
- Case-insensitive matching folds ASCII letters only. That is what a pattern of ASCII letters under the `i` flag without `u` matches.
- Asynchrony and React batching: `fetch`, `await`, `useEffect` and the `setX(prev => …)` updaters. Each load is a sequence of `BeginLoad` and a completion. The guard reads render-time state, so two clicks before a re-render can issue two requests for the same page. The model does not cover that interleaving.
- `Album.WeddingAlbum.LoadMore`: its reply is a page or a failure. A 500 reply to a load-more is not modelled. There the source would spread an undefined `images` inside a state updater, which runs outside the `try`.
- `Album.WeddingAlbum.LoadImages`: any reply other than the combined one (a 500 body, a fetch failure) leaves the state unchanged. This is the `catch` path of the source, where reading `data.juron.images` throws.
- Timers: `setInterval`/`clearInterval` and the 4000 ms interval are not modelled. Only the effect of one tick is.
- `Carousel.Next`: requires `0 <= i < n` and `n > 0`. The JavaScript formula also runs on an index outside the range, and gives `NaN` for an empty list. Neither can arise: both components keep the index in range, and neither is rendered with an empty list.
- `Carousel.Prev`: the same preconditions as `Carousel.Next`, for the same reason.
- When the page's `allImages` grows in the middle (more biya photos push the reception photos back), the slideshow keeps its index number. It may then show a different photo. The model keeps the index valid but does not track which photo it names.
- The lightbox dialog and its keyboard listener (they forward to the grid's callbacks), the site layout and fonts, the build configuration, the navigation menu and `scrollToSection` are presentation only.
