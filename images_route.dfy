/** The listing endpoint `GET /api/images`: one page of one category's photos,
    or the first page of every category when no category is asked for. */
module ImagesRoute {
  import opened Wrappers
  import opened Strings
  import opened FileNames
  import opened Sorting
  import opened Categories
  import ImageLoader

  const DefaultPage: nat := 1
  const DefaultLimit: nat := 30

  /** The public URL prefix of a category folder's files. */
  function FolderUrl(folderName: string): string {
    "/images/wedding/" + folderName + "/"
  }

  /** A folder that exists: its directory listing, or a read that throws. */
  datatype Directory = Listing(entries: seq<string>) | Unreadable

  /** The photo folders by name; a name that is not a key is a folder that does not exist. */
  type FileSystem = map<string, Directory>

  /** `{ images, total, hasMore, page }`; the missing-folder reply has no `page`. */
  datatype PageResult = PageResult(images: seq<string>, total: nat, hasMore: bool, page: Option<nat>)

  function Min(a: int, b: int): int { if a <= b then a else b }
  function Max(a: int, b: int): int { if a <= b then b else a }

  /** The folder's image names in ascending order. */
  function SortedImages(entries: seq<string>): (r: seq<string>)
    ensures Sorted(r)
    ensures multiset(r) == multiset(FilterImages(entries))
  {
    Sort(FilterImages(entries))
  }

  /** `files.slice(start, end)` for `0 <= start <= end`: both bounds are clamped
      to the length, so a slice past the end is short or empty. */
  function Slice(files: seq<string>, start: nat, end: nat): seq<string>
    requires start <= end
  {
    files[Min(start, |files|)..Min(end, |files|)]
  }

  /** `start = (page - 1) * limit`, the index of the page's first entry. */
  function PageStart(page: nat, limit: nat): nat
    requires page >= 1
  {
    (page - 1) * limit
  }

  /** `end = start + limit`, which is `page * limit`. */
  function PageEnd(page: nat, limit: nat): (r: nat)
    requires page >= 1
    ensures r == page * limit
  {
    PageStart(page, limit) + limit
  }

  /** Page `page` of size `limit` of a sorted listing, each name turned into its URL. */
  function Paginate(folderName: string, files: seq<string>, page: nat, limit: nat): (r: PageResult)
    requires page >= 1 && limit >= 1
    ensures r.total == |files| && r.page == Some(page)
    ensures |r.images| == Min(limit, Max(0, |files| - PageStart(page, limit)))
    ensures r.hasMore <==> page * limit < |files|
    ensures forall i :: 0 <= i < |r.images| ==>
              r.images[i] == FolderUrl(folderName) + files[PageStart(page, limit) + i]
  {
    var start := PageStart(page, limit);
    var end := PageEnd(page, limit);
    PageResult(Prefixed(FolderUrl(folderName), Slice(files, start, end)), |files|, end < |files|, Some(page))
  }

  predicate CannotRead(fs: FileSystem, folderName: string) {
    folderName in fs && fs[folderName] == Directory.Unreadable
  }

  /** The helper `getImagesFromFolder(folderName, page, limit)` of the handler;
      `None` stands for the directory read throwing. */
  function GetImagesFromFolder(fs: FileSystem, folderName: string, page: nat, limit: nat): (r: Option<PageResult>)
    requires page >= 1 && limit >= 1
    ensures folderName !in fs ==> r == Some(PageResult([], 0, false, None))
    ensures r == None <==> CannotRead(fs, folderName)
  {
    if folderName !in fs then Some(PageResult([], 0, false, None))
    else match fs[folderName]
      case Unreadable => None
      case Listing(entries) => Some(Paginate(folderName, SortedImages(entries), page, limit))
  }

  /** The query string, already parsed: `None` is an absent or empty parameter. */
  datatype Request = Request(category: Option<string>, page: Option<nat>, limit: Option<nat>)

  predicate ValidRequest(req: Request) {
    (req.page.Some? ==> req.page.value >= 1) && (req.limit.Some? ==> req.limit.value >= 1)
  }

  /** `if (category)`: an empty category counts as absent. */
  predicate IsCategoryQuery(req: Request) {
    req.category.Some? && req.category.value != ""
  }

  function PageOf(req: Request): nat { req.page.GetOr(DefaultPage) }
  function LimitOf(req: Request): nat { req.limit.GetOr(DefaultLimit) }

  /** The JSON body of the reply; `ServerError` is `{ error }` with status 500. */
  datatype Response =
    | CategoryPage(result: PageResult)
    | AllCategories(results: ByCategory<PageResult>)
    | ServerError

  /** The reply without a category: page 1 of juron, biya and reception, in
      that order, with the same limit; a throwing read of any of them makes it 500. */
  function FirstPages(fs: FileSystem, limit: nat): (r: Response)
    requires limit >= 1
    ensures r.ServerError? <==> CannotRead(fs, "juron") || CannotRead(fs, "biya") || CannotRead(fs, "reception")
    ensures !r.ServerError? ==>
              r.AllCategories? &&
              forall c :: Some(r.results.Get(c)) == GetImagesFromFolder(fs, Name(c), 1, limit)
  {
    var juron := GetImagesFromFolder(fs, Name(Juron), 1, limit);
    var biya := GetImagesFromFolder(fs, Name(Biya), 1, limit);
    var reception := GetImagesFromFolder(fs, Name(Reception), 1, limit);
    if juron.Some? && biya.Some? && reception.Some? then
      AllCategories(ByCategory(juron.value, biya.value, reception.value))
    else
      ServerError
  }

  /** `GET`: a category query gets its page; otherwise every category gets
      page 1 with the requested limit. A throwing read becomes the 500 reply. */
  function Get(fs: FileSystem, req: Request): (r: Response)
    requires ValidRequest(req)
    ensures IsCategoryQuery(req) ==>
              (r.ServerError? <==> CannotRead(fs, req.category.value)) &&
              (!r.ServerError? ==>
                 r.CategoryPage? &&
                 Some(r.result) == GetImagesFromFolder(fs, req.category.value, PageOf(req), LimitOf(req)))
    ensures !IsCategoryQuery(req) ==>
              (r.ServerError? <==> CannotRead(fs, "juron") || CannotRead(fs, "biya") || CannotRead(fs, "reception")) &&
              (!r.ServerError? ==>
                 r.AllCategories? &&
                 forall c :: Some(r.results.Get(c)) == GetImagesFromFolder(fs, Name(c), 1, LimitOf(req)))
  {
    var limit := LimitOf(req);
    if IsCategoryQuery(req) then
      match GetImagesFromFolder(fs, req.category.value, PageOf(req), limit)
      case Some(result) => CategoryPage(result)
      case None => ServerError
    else
      FirstPages(fs, limit)
  }

  // ---- Properties of a page ----

  /** There is more exactly when the next page would not be empty. */
  lemma HasMoreIffNextPageNonEmpty(folderName: string, files: seq<string>, page: nat, limit: nat)
    requires page >= 1 && limit >= 1
    ensures Paginate(folderName, files, page, limit).hasMore
        <==> Paginate(folderName, files, page + 1, limit).images != []
  {
    var next := Paginate(folderName, files, page + 1, limit);
    assert PageStart(page + 1, limit) == PageEnd(page, limit);
  }

  /** A page past the end is empty and says there is no more; it is not an error. */
  lemma PastTheEnd(folderName: string, files: seq<string>, page: nat, limit: nat)
    requires page >= 1 && limit >= 1
    requires PageStart(page, limit) >= |files|
    ensures Paginate(folderName, files, page, limit).images == []
    ensures !Paginate(folderName, files, page, limit).hasMore
  {
  }

  /** The URLs of pages 1 to `k`, one after the other. */
  function Pages(folderName: string, files: seq<string>, limit: nat, k: nat): seq<string>
    requires limit >= 1
  {
    if k == 0 then [] else Pages(folderName, files, limit, k - 1) + Paginate(folderName, files, k, limit).images
  }

  /** A page is the slice of the listing between `(page - 1) * limit` and
      `page * limit`, both clamped to its length. */
  lemma PageIsSlice(folderName: string, files: seq<string>, page: nat, limit: nat)
    requires page >= 1 && limit >= 1
    ensures Paginate(folderName, files, page, limit).images
         == Prefixed(FolderUrl(folderName), files[Min(PageStart(page, limit), |files|)..Min(PageEnd(page, limit), |files|)])
  {
  }

  /** Page `k` continues where page `k - 1` stopped. */
  lemma PagesStep(folderName: string, files: seq<string>, limit: nat, k: nat)
    requires limit >= 1 && k >= 1
    ensures Pages(folderName, files, limit, k)
         == Pages(folderName, files, limit, k - 1)
            + Prefixed(FolderUrl(folderName), files[Min((k - 1) * limit, |files|)..Min(k * limit, |files|)])
  {
    PageIsSlice(folderName, files, k, limit);
  }

  /** A prefix of a listing is a shorter prefix followed by the slice in between. */
  lemma PrefixedSplit(url: string, files: seq<string>, lo: nat, hi: nat)
    requires lo <= hi <= |files|
    ensures Prefixed(url, files[..lo]) + Prefixed(url, files[lo..hi]) == Prefixed(url, files[..hi])
  {
    assert files[..hi] == files[..lo] + files[lo..hi];
    PrefixedAppend(url, files[..lo], files[lo..hi]);
  }

  /** Pages 1 to `k` together are the first `min(k * limit, total)` entries, with
      no gap and no repetition. */
  lemma {:induction false} PagesTile(folderName: string, files: seq<string>, limit: nat, k: nat)
    requires limit >= 1
    ensures Pages(folderName, files, limit, k) == Prefixed(FolderUrl(folderName), files[..Min(k * limit, |files|)])
  {
    if k > 0 {
      PagesTile(folderName, files, limit, k - 1);
      PagesStep(folderName, files, limit, k);
      assert (k - 1) * limit <= k * limit;
      PrefixedSplit(FolderUrl(folderName), files, Min((k - 1) * limit, |files|), Min(k * limit, |files|));
    }
  }

  /** ceil(n / limit) pages of `limit` entries hold `n` entries. */
  lemma CeilingCovers(n: nat, limit: nat)
    requires limit >= 1
    ensures ((n + limit - 1) / limit) * limit >= n
  {
    var q := (n + limit - 1) / limit;
    var r := (n + limit - 1) % limit;
    assert n + limit - 1 == q * limit + r;
  }

  /** Pages 1 to ceil(total / limit) together are the whole listing. */
  lemma AllPagesCoverListing(folderName: string, files: seq<string>, limit: nat)
    requires limit >= 1
    ensures Pages(folderName, files, limit, (|files| + limit - 1) / limit) == Prefixed(FolderUrl(folderName), files)
  {
    var k := (|files| + limit - 1) / limit;
    PagesTile(folderName, files, limit, k);
    CeilingCovers(|files|, limit);
    assert files[..Min(k * limit, |files|)] == files;
  }

  /** A folder of 45 photos at the default limit: a full first page that says
      there is more, a second page with the other 15 that says there is not,
      and the two together are the whole listing. */
  lemma FortyFivePhotos(folderName: string, files: seq<string>)
    requires |files| == 45
    ensures var first := Paginate(folderName, files, 1, DefaultLimit);
      |first.images| == 30 && first.total == 45 && first.hasMore
    ensures var second := Paginate(folderName, files, 2, DefaultLimit);
      |second.images| == 15 && !second.hasMore
    ensures Pages(folderName, files, DefaultLimit, 2) == Prefixed(FolderUrl(folderName), files)
  {
    assert PageStart(2, DefaultLimit) == 30;
    PagesTile(folderName, files, DefaultLimit, 2);
    assert files[..Min(2 * DefaultLimit, |files|)] == files;
  }

  // ---- Properties of the endpoint ----

  /** Every page of a sorted listing is sorted. */
  lemma PageSorted(folderName: string, files: seq<string>, page: nat, limit: nat)
    requires page >= 1 && limit >= 1
    requires Sorted(files)
    ensures Sorted(Paginate(folderName, files, page, limit).images)
  {
    var url := FolderUrl(folderName);
    var lo := Min(PageStart(page, limit), |files|);
    var hi := Min(PageEnd(page, limit), |files|);
    PageIsSlice(folderName, files, page, limit);
    var slice := files[lo..hi];
    var images := Prefixed(url, slice);
    forall i, j | 0 <= i < j < |images| ensures LexLe(images[i], images[j]) {
      assert slice[i] == files[lo + i] && slice[j] == files[lo + j];
      LexLeCommonPrefix(url, slice[i], slice[j]);
    }
  }

  /** Every URL of a page is the URL of some entry of the listing. */
  lemma PageEntriesFromListing(folderName: string, files: seq<string>, page: nat, limit: nat, y: string)
    requires page >= 1 && limit >= 1
    requires y in Paginate(folderName, files, page, limit).images
    ensures exists f :: f in files && y == FolderUrl(folderName) + f
  {
    var lo := Min(PageStart(page, limit), |files|);
    var hi := Min(PageEnd(page, limit), |files|);
    PageIsSlice(folderName, files, page, limit);
    var slice := files[lo..hi];
    var i :| 0 <= i < |slice| && Prefixed(FolderUrl(folderName), slice)[i] == y;
    assert slice[i] == files[lo + i];
  }

  /** A listed folder's page: `total` counts the image names, and the page
      holds, in ascending order, the URLs of image names of the folder. */
  lemma {:induction false} ListedFolderPage(fs: FileSystem, folderName: string, page: nat, limit: nat)
    requires page >= 1 && limit >= 1
    requires folderName in fs && fs[folderName].Listing?
    ensures var r := GetImagesFromFolder(fs, folderName, page, limit);
      && r.Some?
      && r.value.total == |FilterImages(fs[folderName].entries)|
      && Sorted(r.value.images)
      && forall y :: y in r.value.images ==>
           exists f :: f in fs[folderName].entries && IsImageFile(f) && y == FolderUrl(folderName) + f
  {
    var entries := fs[folderName].entries;
    var files := SortedImages(entries);
    var r := Paginate(folderName, files, page, limit);
    assert |multiset(files)| == |multiset(FilterImages(entries))|;
    PageSorted(folderName, files, page, limit);
    forall y | y in r.images
      ensures exists f :: f in entries && IsImageFile(f) && y == FolderUrl(folderName) + f
    {
      PageEntriesFromListing(folderName, files, page, limit, y);
      var f :| f in files && y == FolderUrl(folderName) + f;
      assert f in multiset(files);
      FilterImagesMembers(entries, f);
    }
  }

  /** The endpoint lists a folder in the same order as the library helper does. */
  lemma AgreesWithImageLoader(folderName: string, entries: seq<string>)
    ensures Prefixed(FolderUrl(folderName), SortedImages(entries))
         == ImageLoader.GetImagesFromFolder("/images/wedding/" + folderName, entries)
  {
    SortPrefixed(FolderUrl(folderName), FilterImages(entries));
    assert FolderUrl(folderName) == "/images/wedding/" + folderName + "/";
  }

  /** A category query for an existing folder at the default limit is that
      folder's page of its sorted image names. */
  lemma CategoryReply(fs: FileSystem, category: string, page: nat)
    requires category != "" && page >= 1
    requires category in fs && fs[category].Listing?
    ensures Get(fs, Request(Some(category), Some(page), None))
         == CategoryPage(Paginate(category, SortedImages(fs[category].entries), page, DefaultLimit))
  {
  }

  /** Absent `page` and `limit` are 1 and 30. */
  lemma CategoryDefaults(fs: FileSystem, category: string)
    requires category != ""
    ensures Get(fs, Request(Some(category), None, None)) == Get(fs, Request(Some(category), Some(1), Some(30)))
  {
  }

  /** Without a category the `page` parameter is ignored. */
  lemma AllCategoriesIgnorePage(fs: FileSystem, limit: Option<nat>, page: nat)
    requires page >= 1 && (limit.Some? ==> limit.value >= 1)
    ensures Get(fs, Request(None, Some(page), limit)) == Get(fs, Request(None, None, limit))
  {
  }
}
