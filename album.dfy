/** The album page's gallery state: per category the photos fetched so far,
    the paging statistics and a loading flag, filled by one combined request on
    mount and grown one page at a time by "Load More". */
module Album {
  import opened Wrappers
  import opened Categories
  import opened Sorting
  import opened ImagesRoute

  /** `{ total, hasMore, page }`: `page` is the last page fetched successfully. */
  datatype Stats = Stats(total: nat, hasMore: bool, page: nat)

  const InitialStats := Stats(0, false, 1)

  /** The images of each category of the combined reply (`data.juron.images` ...). */
  function SeedImages(results: ByCategory<PageResult>): (r: ByCategory<seq<string>>)
    ensures forall c :: r.Get(c) == results.Get(c).images
  {
    ByCategory(results.juron.images, results.biya.images, results.reception.images)
  }

  /** The statistics of each category of the combined reply, all at page 1. */
  function SeedStats(results: ByCategory<PageResult>): (r: ByCategory<Stats>)
    ensures forall c :: r.Get(c) == Stats(results.Get(c).total, results.Get(c).hasMore, 1)
  {
    ByCategory(
      Stats(results.juron.total, results.juron.hasMore, 1),
      Stats(results.biya.total, results.biya.hasMore, 1),
      Stats(results.reception.total, results.reception.hasMore, 1))
  }

  class WeddingAlbum {
    var images: ByCategory<seq<string>>
    var imageStats: ByCategory<Stats>
    var loading: ByCategory<bool>

    /** The page cursor never drops below 1. */
    ghost predicate Valid()
      reads this
    {
      forall c :: imageStats.Get(c).page >= 1
    }

    /** Empty galleries, nothing more to load, nothing loading. */
    constructor()
      ensures Valid()
      ensures images == Uniform([])
      ensures imageStats == Uniform(InitialStats)
      ensures loading == Uniform(false)
    {
      images := Uniform([]);
      imageStats := Uniform(InitialStats);
      loading := Uniform(false);
    }

    /** `loadImages` on mount, with the outcome of `fetch('/api/images')`
        (`None`: the request or its JSON failed). Only the combined reply seeds
        the galleries; any other outcome leaves every category as it was. */
    method LoadImages(reply: Option<Response>)
      requires Valid()
      modifies this
      ensures Valid()
      ensures loading == old(loading)
      ensures reply.Some? && reply.value.AllCategories? ==>
                images == SeedImages(reply.value.results) && imageStats == SeedStats(reply.value.results)
      ensures !(reply.Some? && reply.value.AllCategories?) ==>
                images == old(images) && imageStats == old(imageStats)
    {
      if reply.Some? && reply.value.AllCategories? {
        images := SeedImages(reply.value.results);
        imageStats := SeedStats(reply.value.results);
      }
    }

    /** The start of `loadMoreImages(c)`: nothing happens while `c` is loading
        or has no more; otherwise `c` is marked loading and the page after the
        last one fetched is requested. */
    method BeginLoad(c: Category) returns (nextPage: Option<nat>)
      requires Valid()
      modifies this`loading
      ensures Valid()
      ensures old(loading.Get(c)) || !imageStats.Get(c).hasMore ==>
                nextPage == None && loading == old(loading)
      ensures !old(loading.Get(c)) && imageStats.Get(c).hasMore ==>
                nextPage == Some(imageStats.Get(c).page + 1) && loading == old(loading).With(c, true)
    {
      if loading.Get(c) || !imageStats.Get(c).hasMore {
        return None;
      }
      loading := loading.With(c, true);
      nextPage := Some(imageStats.Get(c).page + 1);
    }

    /** A page arrived: it is appended to what `c` already shows, the statistics
        are the reply's with `page` advanced to the requested one, and `c` stops
        loading. The other categories are untouched. */
    method CompleteSuccess(c: Category, nextPage: nat, data: PageResult)
      requires Valid() && nextPage >= 1
      modifies this
      ensures Valid()
      ensures images == old(images).With(c, old(images.Get(c)) + data.images)
      ensures imageStats == old(imageStats).With(c, Stats(data.total, data.hasMore, nextPage))
      ensures loading == old(loading).With(c, false)
    {
      images := images.With(c, images.Get(c) + data.images);
      imageStats := imageStats.With(c, Stats(data.total, data.hasMore, nextPage));
      loading := loading.With(c, false);
    }

    /** The request failed: only the loading flag of `c` is reset (`finally`). */
    method CompleteFailure(c: Category)
      requires Valid()
      modifies this`loading
      ensures Valid()
      ensures loading == old(loading).With(c, false)
    {
      loading := loading.With(c, false);
    }

    /** `loadMoreImages(c)` run to completion, with the outcome of its fetch
        (`None`: the request or its JSON failed). */
    method LoadMore(c: Category, reply: Option<PageResult>) returns (requested: Option<nat>)
      requires Valid()
      modifies this
      ensures Valid()
      ensures loading == old(loading)
      ensures old(loading.Get(c)) || !old(imageStats.Get(c).hasMore) ==>
                requested == None && images == old(images) && imageStats == old(imageStats)
      ensures !old(loading.Get(c)) && old(imageStats.Get(c).hasMore) ==>
                requested == Some(old(imageStats.Get(c).page) + 1) &&
                (reply.Some? ==>
                   images == old(images).With(c, old(images.Get(c)) + reply.value.images) &&
                   imageStats == old(imageStats).With(c, Stats(reply.value.total, reply.value.hasMore, requested.value))) &&
                (reply.None? ==> images == old(images) && imageStats == old(imageStats))
    {
      requested := BeginLoad(c);
      if requested.Some? {
        if reply.Some? {
          CompleteSuccess(c, requested.value, reply.value);
        } else {
          CompleteFailure(c);
        }
      }
    }

    /** `allImages`: the three galleries one after the other, for the slideshow. */
    function AllImages(): (r: seq<string>)
      reads this
      ensures |r| == |images.juron| + |images.biya| + |images.reception|
      ensures r[..|images.juron|] == images.juron
      ensures r[|images.juron|..|images.juron| + |images.biya|] == images.biya
      ensures r[|images.juron| + |images.biya|..] == images.reception
    {
      images.juron + images.biya + images.reception
    }
  }

  // ---- The galleries against the server's listing ----

  /** A category's gallery after `st.page` successful fetches of `files`: the
      URLs of the first min(page * 30, total) files, with `total` and `hasMore`
      as the server computes them. */
  predicate InSync(acc: seq<string>, st: Stats, folderName: string, files: seq<string>) {
    && st.page >= 1
    && st.total == |files|
    && (st.hasMore <==> st.page * DefaultLimit < |files|)
    && acc == Prefixed(FolderUrl(folderName), files[..Min(st.page * DefaultLimit, |files|)])
  }

  /** The combined reply seeds a listed category in sync with its listing at page 1. */
  lemma SeedInSync(fs: FileSystem, c: Category)
    requires Name(c) in fs && fs[Name(c)].Listing?
    ensures var reply := Get(fs, Request(None, None, None));
      reply.AllCategories? ==>
        InSync(SeedImages(reply.results).Get(c), SeedStats(reply.results).Get(c),
               Name(c), SortedImages(fs[Name(c)].entries))
  {
    var files := SortedImages(fs[Name(c)].entries);
    PageIsSlice(Name(c), files, 1, DefaultLimit);
    assert files[0..Min(DefaultLimit, |files|)] == files[..Min(DefaultLimit, |files|)];
  }

  /** A missing folder seeds an empty gallery with nothing more to load. */
  lemma MissingFolderSeed(fs: FileSystem, c: Category)
    requires Name(c) !in fs
    ensures var reply := Get(fs, Request(None, None, None));
      reply.AllCategories? ==>
        SeedImages(reply.results).Get(c) == [] && !SeedStats(reply.results).Get(c).hasMore
  {
  }

  /** Appending page `page + 1` of the listing to an in-sync gallery keeps it
      in sync, one page further. */
  lemma NextPageInSync(acc: seq<string>, st: Stats, folderName: string, files: seq<string>)
    requires InSync(acc, st, folderName, files)
    ensures var r := Paginate(folderName, files, st.page + 1, DefaultLimit);
      InSync(acc + r.images, Stats(r.total, r.hasMore, st.page + 1), folderName, files)
  {
    var r := Paginate(folderName, files, st.page + 1, DefaultLimit);
    PageIsSlice(folderName, files, st.page + 1, DefaultLimit);
    assert PageStart(st.page + 1, DefaultLimit) == st.page * DefaultLimit;
    var lo := Min(st.page * DefaultLimit, |files|);
    var hi := Min((st.page + 1) * DefaultLimit, |files|);
    PrefixedSplit(FolderUrl(folderName), files, lo, hi);
  }

  /** Loading the next page of an in-sync category keeps it in sync, one page further. */
  lemma LoadMoreInSync(fs: FileSystem, c: Category, acc: seq<string>, st: Stats)
    requires Name(c) in fs && fs[Name(c)].Listing?
    requires InSync(acc, st, Name(c), SortedImages(fs[Name(c)].entries))
    ensures var reply := Get(fs, Request(Some(Name(c)), Some(st.page + 1), None));
      && reply.CategoryPage?
      && InSync(acc + reply.result.images, Stats(reply.result.total, reply.result.hasMore, st.page + 1),
                Name(c), SortedImages(fs[Name(c)].entries))
  {
    assert Name(c) != "";
    CategoryReply(fs, Name(c), st.page + 1);
    NextPageInSync(acc, st, Name(c), SortedImages(fs[Name(c)].entries));
  }
}
