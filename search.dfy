/** The YouTube search handler (`search_videos`): follow result pages until
    the cap or the last page, then fetch statistics in batches of 50 and build
    one normalised record per returned video. */
module Search {
  import opened Wrappers
  import opened Text

  type VideoId = string

  /** One response of the search endpoint: the `{"error": ...}` payload the
      fetch helper returns on failure, or the page's video ids and its
      `nextPageToken` ("" when absent or null). */
  datatype SearchPage = Failed(error: string) | Results(items: seq<VideoId>, nextPageToken: string)

  /** One item of a statistics response; an absent count is `None`. */
  datatype StatsItem = StatsItem(
    id: VideoId, title: string, channelTitle: string, publishedAt: string,
    viewCount: Option<nat>, likeCount: Option<nat>, commentCount: Option<nat>)

  /** The normalised record the handler returns per video. */
  datatype VideoRecord = VideoRecord(
    videoId: VideoId, title: string, channel: string, url: string, published: string,
    views: nat, likes: nat, comments: nat, platform: string, keywords: string)

  /** The response body `{"videos": ..., "total": ...}`. */
  datatype Videos<T> = Videos(videos: seq<T>, total: nat)

  const BatchSize: nat := 50
  const PublishedLength: nat := 10
  const ShortUrlPrefix: string := "https://youtu.be/"
  const PlatformName: string := "YouTube"
  const BadGateway: nat := 502

  /** The query with one leading '#' removed, if it has one. */
  function StripHash(query: string): (q: string)
    ensures |query| > 0 && query[0] == '#' ==> query == "#" + q
    ensures !(|query| > 0 && query[0] == '#') ==> q == query
  {
    if |query| > 0 && query[0] == '#' then query[1..] else query
  }

  /** Exactly one '#' goes: "##tag" becomes "#tag". */
  lemma StripHashOnce(tag: string)
    ensures StripHash("##" + tag) == "#" + tag
    ensures StripHash(StripHash("##" + tag)) == tag
  {
  }

  // ---------------------------------------------------------------------
  // Pagination
  // ---------------------------------------------------------------------

  /** A failure payload aborts the search only when its message is truthy. */
  predicate Aborts(p: SearchPage)
  {
    p.Failed? && p.error != ""
  }

  /** The ids of a page's items; a page without items has none. */
  function PageItems(p: SearchPage): seq<VideoId>
  {
    if p.Results? then p.items else []
  }

  /** The token of the next page; the empty string when there is none. */
  function NextToken(p: SearchPage): string
  {
    if p.Results? then p.nextPageToken else ""
  }

  /** The provider's chain of pages is finite: its last page has no next token. */
  predicate ChainEnds(pages: seq<SearchPage>)
  {
    |pages| > 0 && NextToken(pages[|pages| - 1]) == ""
  }

  /** Index of the first page without a next token. */
  function FirstStop(pages: seq<SearchPage>): (i: nat)
    requires ChainEnds(pages)
    ensures i < |pages| && NextToken(pages[i]) == ""
    ensures forall j :: 0 <= j < i ==> NextToken(pages[j]) != ""
    decreases |pages|
  {
    if NextToken(pages[0]) == "" then 0 else 1 + FirstStop(pages[1..])
  }

  /** All ids of the given pages, in order. */
  function AllIds(pages: seq<SearchPage>): seq<VideoId>
    decreases |pages|
  {
    if pages == [] then [] else PageItems(pages[0]) + AllIds(pages[1..])
  }

  /** The ids on the pages up to and including the first page without a next token. */
  function Reachable(pages: seq<SearchPage>): seq<VideoId>
    requires ChainEnds(pages)
  {
    AllIds(pages[..FirstStop(pages) + 1])
  }

  /** The inner loop over one page: append ids one at a time and stop right
      after the append that brings the count to `maxResults`. */
  function TakeUntilCap(ids: seq<VideoId>, items: seq<VideoId>, maxResults: int): (r: seq<VideoId>)
    ensures ids <= r && r[|ids|..] <= items
    ensures items != [] ==> |r| > |ids|
    ensures |ids| < maxResults ==> |r| <= maxResults
    ensures |r| < maxResults ==> r == ids + items
    decreases |items|
  {
    if items == [] then ids
    else
      var next := ids + [items[0]];
      if |next| >= maxResults then next else TakeUntilCap(next, items[1..], maxResults)
  }

  /** The outer loop, from the page about to be fetched with the ids so far. */
  function Paginate(pages: seq<SearchPage>, maxResults: int, ids: seq<VideoId>): (r: Result<seq<VideoId>>)
    requires ChainEnds(pages)
    ensures r.Err? ==> r.status == BadGateway
    ensures r.Ok? ==> ids <= r.value
    decreases |pages|
  {
    var page := pages[0];
    if Aborts(page) then Err(BadGateway, page.error)
    else
      var got := TakeUntilCap(ids, PageItems(page), maxResults);
      if |got| >= maxResults || NextToken(page) == "" then Ok(got)
      else Paginate(pages[1..], maxResults, got)
  }

  lemma ReachableUnfold(pages: seq<SearchPage>)
    requires ChainEnds(pages)
    ensures NextToken(pages[0]) == "" ==> Reachable(pages) == PageItems(pages[0])
    ensures NextToken(pages[0]) != "" ==>
              ChainEnds(pages[1..]) && Reachable(pages) == PageItems(pages[0]) + Reachable(pages[1..])
  {
    var n := FirstStop(pages);
    if NextToken(pages[0]) == "" {
      assert n == 0;
      assert pages[..1] == [pages[0]];
      assert AllIds([pages[0]]) == PageItems(pages[0]) + AllIds([]);
    } else {
      assert pages[..n + 1][1..] == pages[1..][..n];
    }
  }

  /** Starting below the cap, the collected ids are the reachable ids cut
      at the cap: pagination stops exactly at the cap or at the first page
      without a next token, whichever comes first. */
  lemma {:induction false} PaginateCollects(pages: seq<SearchPage>, maxResults: int, ids: seq<VideoId>, got: seq<VideoId>)
    requires ChainEnds(pages) && |ids| < maxResults
    requires Paginate(pages, maxResults, ids) == Ok(got)
    ensures got == (ids + Reachable(pages))[..Min(maxResults, |ids| + |Reachable(pages)|)]
    decreases |pages|
  {
    var page := pages[0];
    var t := TakeUntilCap(ids, PageItems(page), maxResults);
    if |t| < maxResults && NextToken(page) != "" {
      assert Paginate(pages, maxResults, ids) == Paginate(pages[1..], maxResults, t);
      PaginateCollects(pages[1..], maxResults, t, got);
      NextPageCollects(pages, maxResults, ids);
    } else {
      assert got == t;
      LastPageCollects(pages, maxResults, ids);
    }
  }

  /** A page that does not end the search contributes all its ids. */
  lemma NextPageCollects(pages: seq<SearchPage>, maxResults: int, ids: seq<VideoId>)
    requires ChainEnds(pages) && NextToken(pages[0]) != ""
    requires |TakeUntilCap(ids, PageItems(pages[0]), maxResults)| < maxResults
    ensures ChainEnds(pages[1..])
    ensures ids + Reachable(pages) == TakeUntilCap(ids, PageItems(pages[0]), maxResults) + Reachable(pages[1..])
  {
    ReachableUnfold(pages);
  }

  /** The page that ends the search contributes its ids up to the cap. */
  lemma LastPageCollects(pages: seq<SearchPage>, maxResults: int, ids: seq<VideoId>)
    requires ChainEnds(pages) && |ids| < maxResults
    requires |TakeUntilCap(ids, PageItems(pages[0]), maxResults)| >= maxResults || NextToken(pages[0]) == ""
    ensures TakeUntilCap(ids, PageItems(pages[0]), maxResults)
         == (ids + Reachable(pages))[..Min(maxResults, |ids| + |Reachable(pages)|)]
  {
    var items := PageItems(pages[0]);
    CappedTake(ids, items, maxResults);
    if NextToken(pages[0]) == "" {
      ReachableUnfold(pages);
    } else {
      CappedPageBeforeLast(pages, maxResults, ids);
    }
  }

  lemma CappedPageBeforeLast(pages: seq<SearchPage>, maxResults: int, ids: seq<VideoId>)
    requires ChainEnds(pages) && |ids| < maxResults && NextToken(pages[0]) != ""
    requires |TakeUntilCap(ids, PageItems(pages[0]), maxResults)| >= maxResults
    ensures (ids + PageItems(pages[0]))[..Min(maxResults, |ids| + |PageItems(pages[0])|)]
         == (ids + Reachable(pages))[..Min(maxResults, |ids| + |Reachable(pages)|)]
  {
    var items := PageItems(pages[0]);
    var rest := Reachable(pages[1..]);
    assert ids + Reachable(pages) == (ids + items) + rest by {
      ReachableUnfold(pages);
    }
    PrefixOfLonger(ids + items, rest, maxResults);
  }

  /** What one page adds: everything, or everything up to the cap. */
  lemma CappedTake(ids: seq<VideoId>, items: seq<VideoId>, maxResults: int)
    requires |ids| < maxResults
    ensures TakeUntilCap(ids, items, maxResults) == (ids + items)[..Min(maxResults, |ids| + |items|)]
  {
    var t := TakeUntilCap(ids, items, maxResults);
    assert t == ids + t[|ids|..];
  }

  lemma PrefixOfLonger(a: seq<VideoId>, b: seq<VideoId>, n: int)
    requires 0 <= n <= |a|
    ensures Min(n, |a|) == Min(n, |a| + |b|) && (a + b)[..Min(n, |a| + |b|)] == a[..Min(n, |a|)]
  {
  }

  /** With a cap of at least one, the search keeps the first `maxResults`
      reachable ids (all of them when fewer): never more than the cap, in
      the pages' order. */
  lemma CollectedIds(pages: seq<SearchPage>, maxResults: int, got: seq<VideoId>)
    requires ChainEnds(pages) && maxResults >= 1
    requires Paginate(pages, maxResults, []) == Ok(got)
    ensures got == Reachable(pages)[..Min(maxResults, |Reachable(pages)|)]
    ensures |got| <= maxResults && got <= AllIds(pages)
  {
    var reach := Reachable(pages);
    PaginateCollects(pages, maxResults, [], got);
    assert [] + reach == reach;
    ReachablePrefix(pages);
  }

  /** The reachable ids open the list of all ids. */
  lemma ReachablePrefix(pages: seq<SearchPage>)
    requires ChainEnds(pages)
    ensures Reachable(pages) <= AllIds(pages)
  {
    var n := FirstStop(pages);
    var reach, after := AllIds(pages[..n + 1]), AllIds(pages[n + 1..]);
    AllIdsSplit(pages, n + 1);
    assert Reachable(pages) == reach && AllIds(pages) == reach + after;
  }

  lemma {:induction false} AllIdsSplit(pages: seq<SearchPage>, k: nat)
    requires k <= |pages|
    ensures AllIds(pages) == AllIds(pages[..k]) + AllIds(pages[k..])
    decreases k
  {
    if k > 0 {
      AllIdsSplit(pages[1..], k - 1);
      assert pages[..k][1..] == pages[1..][..k - 1];
      assert pages[k..] == pages[1..][k - 1..];
    } else {
      assert pages[..0] == [] && pages[0..] == pages;
    }
  }

  /** A cap of zero or less still lets through the first id of the first page. */
  lemma NonPositiveCap(pages: seq<SearchPage>, maxResults: int)
    requires ChainEnds(pages) && maxResults <= 0
    ensures Paginate(pages, maxResults, []) ==
              if Aborts(pages[0]) then Err(BadGateway, pages[0].error)
              else Ok(PageItems(pages[0])[..Min(1, |PageItems(pages[0])|)])
  {
    var items := PageItems(pages[0]);
    if items != [] {
      assert TakeUntilCap([], items, maxResults) == [items[0]] == items[..1];
    }
  }

  /** A failure aborts the search with 502 and its message, and only a
      failure on a page that is actually requested does. */
  lemma {:induction false} PaginateFails(pages: seq<SearchPage>, maxResults: int, ids: seq<VideoId>)
    requires ChainEnds(pages)
    requires Paginate(pages, maxResults, ids).Err?
    ensures exists i :: 0 <= i <= FirstStop(pages) && Aborts(pages[i])
              && Paginate(pages, maxResults, ids) == Err(BadGateway, pages[i].error)
    decreases |pages|
  {
    var page, rest := pages[0], pages[1..];
    if !Aborts(page) {
      var t := TakeUntilCap(ids, PageItems(page), maxResults);
      assert |t| < maxResults && NextToken(page) != "";
      assert Paginate(pages, maxResults, ids) == Paginate(rest, maxResults, t);
      assert FirstStop(pages) == 1 + FirstStop(rest);
      PaginateFails(rest, maxResults, t);
      var i :| 0 <= i <= FirstStop(rest) && Aborts(rest[i])
               && Paginate(rest, maxResults, t) == Err(BadGateway, rest[i].error);
      assert pages[i + 1] == rest[i];
      assert 0 <= i + 1 <= FirstStop(pages) && Aborts(pages[i + 1])
             && Paginate(pages, maxResults, ids) == Err(BadGateway, pages[i + 1].error);
    } else {
      assert Paginate(pages, maxResults, ids) == Err(BadGateway, page.error);
      assert 0 <= 0 <= FirstStop(pages) && Aborts(pages[0]);
    }
  }

  /** The first failing page that is requested (the first page, or a later one
      while the cap has not been reached) aborts the search with its message.
      The proof follows the search page by page up to page `i`. */
  lemma PaginateReachesFailure(pages: seq<SearchPage>, maxResults: int, ids: seq<VideoId>, i: nat)
    requires ChainEnds(pages) && i <= FirstStop(pages) && Aborts(pages[i])
    requires forall j :: 0 <= j < i ==> !Aborts(pages[j])
    requires i == 0 || |ids| + |AllIds(pages[..i])| < maxResults
    ensures Paginate(pages, maxResults, ids) == Err(BadGateway, pages[i].error)
  {
    var k, acc := 0, ids;
    assert pages[..0] == [] && pages[0..] == pages;
    while k < i
      invariant k <= i && |acc| == |ids| + |AllIds(pages[..k])|
      invariant Paginate(pages[k..], maxResults, acc) == Paginate(pages, maxResults, ids)
      decreases i - k
    {
      AllIdsSnoc(pages, k, i);
      PassPage(pages, k, maxResults, acc);
      k, acc := k + 1, acc + PageItems(pages[k]);
    }
    FailPage(pages, i, maxResults, acc);
  }

  /** A page below the cap that neither fails nor ends the chain hands all
      its items on to the next page. */
  lemma PassPage(pages: seq<SearchPage>, k: nat, maxResults: int, acc: seq<VideoId>)
    requires ChainEnds(pages) && k < |pages| && !Aborts(pages[k]) && NextToken(pages[k]) != ""
    requires |acc| + |PageItems(pages[k])| < maxResults
    ensures k + 1 < |pages| && ChainEnds(pages[k..])
    ensures Paginate(pages[k..], maxResults, acc) == Paginate(pages[k + 1..], maxResults, acc + PageItems(pages[k]))
  {
    PaginateAt(pages, k, maxResults, acc);
    TakeBelowCap(acc, PageItems(pages[k]), maxResults);
  }

  /** A failing page ends the search with its message. */
  lemma FailPage(pages: seq<SearchPage>, k: nat, maxResults: int, acc: seq<VideoId>)
    requires ChainEnds(pages) && k < |pages| && Aborts(pages[k])
    ensures ChainEnds(pages[k..]) && Paginate(pages[k..], maxResults, acc) == Err(BadGateway, pages[k].error)
  {
    PaginateAt(pages, k, maxResults, acc);
  }

  /** Below the cap a page adds all its items. */
  lemma TakeBelowCap(ids: seq<VideoId>, items: seq<VideoId>, maxResults: int)
    requires |ids| + |items| < maxResults
    ensures TakeUntilCap(ids, items, maxResults) == ids + items
  {
    var r := TakeUntilCap(ids, items, maxResults);
    assert |r| <= |ids| + |items|;
  }

  /** The first `k + 1` pages hold the ids of the first `k` and those of
      page `k`, and no more than the first `i` pages. */
  lemma AllIdsSnoc(pages: seq<SearchPage>, k: nat, i: nat)
    requires k < i <= |pages|
    ensures |AllIds(pages[..k + 1])| == |AllIds(pages[..k])| + |PageItems(pages[k])|
    ensures |AllIds(pages[..k + 1])| <= |AllIds(pages[..i])|
  {
    var upto := pages[..k + 1];
    AllIdsSplit(upto, k);
    assert upto[..k] == pages[..k] && upto[k..] == [pages[k]];
    AllIdsSplit(pages[..i], k + 1);
    assert pages[..i][..k + 1] == upto;
  }

  /** One turn of the outer loop, on the page at index `k`. */
  lemma PaginateAt(pages: seq<SearchPage>, k: nat, maxResults: int, ids: seq<VideoId>)
    requires ChainEnds(pages) && k < |pages|
    ensures ChainEnds(pages[k..])
    ensures var page := pages[k];
            var got := TakeUntilCap(ids, PageItems(page), maxResults);
            Paginate(pages[k..], maxResults, ids) ==
              if Aborts(page) then Err(BadGateway, page.error)
              else if |got| >= maxResults || NextToken(page) == "" then Ok(got)
              else Paginate(pages[k + 1..], maxResults, got)
    ensures !Aborts(pages[k]) && NextToken(pages[k]) != "" ==> k + 1 < |pages|
  {
    assert pages[k..][1..] == pages[k + 1..];
  }

  /** One turn of the inner loop, on the id at index `j`. */
  lemma TakeStep(ids: seq<VideoId>, items: seq<VideoId>, j: nat, maxResults: int)
    requires j < |items|
    ensures TakeUntilCap(ids, items[j..], maxResults) ==
              if |ids| + 1 >= maxResults then ids + [items[j]]
              else TakeUntilCap(ids + [items[j]], items[j + 1..], maxResults)
  {
    assert items[j..][1..] == items[j + 1..];
  }

  /** The loop of `search_videos` over result pages, with the `total` counter. */
  method CollectVideoIds(pages: seq<SearchPage>, maxResults: int) returns (r: Result<seq<VideoId>>)
    requires ChainEnds(pages)
    ensures r == Paginate(pages, maxResults, [])
  {
    var videoIds: seq<VideoId> := [];
    var total := 0;
    var k := 0;
    assert pages[0..] == pages;
    while true
      invariant 0 <= k < |pages|
      invariant total == |videoIds|
      invariant Paginate(pages[k..], maxResults, videoIds) == Paginate(pages, maxResults, [])
      decreases |pages| - k
    {
      var page := pages[k];
      PaginateAt(pages, k, maxResults, videoIds);
      if Aborts(page) {
        return Err(BadGateway, page.error);
      }
      var items := PageItems(page);
      ghost var before := videoIds;
      var j := 0;
      while j < |items|
        invariant 0 <= j <= |items|
        invariant total == |videoIds|
        invariant TakeUntilCap(before, items, maxResults) == TakeUntilCap(videoIds, items[j..], maxResults)
        invariant j > 0 ==> total < maxResults
      {
        TakeStep(videoIds, items, j, maxResults);
        videoIds := videoIds + [items[j]];
        total := total + 1;
        j := j + 1;
        if total >= maxResults {
          break;
        }
      }
      assert videoIds == TakeUntilCap(before, items, maxResults);
      if total >= maxResults || NextToken(page) == "" {
        return Ok(videoIds);
      }
      k := k + 1;
    }
  }

  // ---------------------------------------------------------------------
  // Batching and records
  // ---------------------------------------------------------------------

  function Flatten<T>(parts: seq<seq<T>>): seq<T>
    decreases |parts|
  {
    if parts == [] then [] else parts[0] + Flatten(parts[1..])
  }

  /** The ids cut into consecutive batches of 50, the last one shorter. */
  function Chunks(ids: seq<VideoId>): (batches: seq<seq<VideoId>>)
    ensures batches == [] <==> ids == []
    ensures ids != [] ==> batches[0] == ids[..Min(BatchSize, |ids|)]
    decreases |ids|
  {
    if ids == [] then []
    else if |ids| <= BatchSize then [ids]
    else [ids[..BatchSize]] + Chunks(ids[BatchSize..])
  }

  /** The batches partition the ids: concatenated they give the ids back, and
      each holds between 1 and 50 of them. */
  lemma {:induction false} ChunksPartition(ids: seq<VideoId>)
    ensures Flatten(Chunks(ids)) == ids
    ensures forall i :: 0 <= i < |Chunks(ids)| ==> 0 < |Chunks(ids)[i]| <= BatchSize
    decreases |ids|
  {
    if |ids| > BatchSize {
      ChunksPartition(ids[BatchSize..]);
      assert Chunks(ids)[1..] == Chunks(ids[BatchSize..]);
      assert ids == ids[..BatchSize] + ids[BatchSize..];
    } else if ids != [] {
      assert Flatten(Chunks(ids)) == ids + Flatten([]);
    }
  }

  /** Batch `i` is exactly the Python slice starting at `50 * i`, and there
      are as many batches as `range(0, len(ids), 50)` has steps. */
  lemma {:induction false} ChunksAreSlices(ids: seq<VideoId>)
    ensures |Chunks(ids)| == (|ids| + 49) / 50
    ensures forall i :: 0 <= i < |Chunks(ids)| ==> 50 * i < |ids|
    ensures forall i :: 0 <= i < |Chunks(ids)| ==> Chunks(ids)[i] == ids[50 * i..Min(50 * i + 50, |ids|)]
    decreases |ids|
  {
    if |ids| > BatchSize {
      var rest := ids[50..];
      ChunksAreSlices(rest);
      forall i | 0 <= i < |Chunks(ids)|
        ensures Chunks(ids)[i] == ids[50 * i..Min(50 * i + 50, |ids|)]
      {
        if i > 0 {
          assert 50 * (i - 1) < |rest|;
          assert Chunks(ids)[i] == Chunks(rest)[i - 1];
          assert rest[50 * (i - 1)..Min(50 * (i - 1) + 50, |rest|)] == ids[50 * i..Min(50 * i + 50, |ids|)];
        }
      }
    }
  }

  /** One normalised record: `published` is the first ten characters of
      `publishedAt`, a present count is kept and an absent one becomes 0. */
  function ToRecord(item: StatsItem, keywords: string): (v: VideoRecord)
    ensures v.published <= item.publishedAt
    ensures |v.published| == Min(PublishedLength, |item.publishedAt|)
    ensures v.url == ShortUrlPrefix + v.videoId && v.videoId == item.id
    ensures v.platform == PlatformName && v.keywords == keywords
    ensures v.title == item.title && v.channel == item.channelTitle
    ensures v.views == (if item.viewCount.Some? then item.viewCount.value else 0)
    ensures v.likes == (if item.likeCount.Some? then item.likeCount.value else 0)
    ensures v.comments == (if item.commentCount.Some? then item.commentCount.value else 0)
  {
    VideoRecord(
      item.id, item.title, item.channelTitle, ShortUrlPrefix + item.id,
      if |item.publishedAt| <= PublishedLength then item.publishedAt else item.publishedAt[..PublishedLength],
      item.viewCount.GetOr(0), item.likeCount.GetOr(0), item.commentCount.GetOr(0),
      PlatformName, keywords)
  }

  /** What one batch contributes: nothing when its statistics call failed. */
  function BatchRecords(batch: seq<VideoId>, lookup: seq<VideoId> -> Option<seq<StatsItem>>, keywords: string): (vs: seq<VideoRecord>)
    ensures lookup(batch).None? ==> vs == []
    ensures lookup(batch).Some? ==> |vs| == |lookup(batch).value|
  {
    match lookup(batch)
    case None => []
    case Some(items) => ItemRecords(items, keywords)
  }

  /** The records of all batches, batch after batch. */
  function Enrich(batches: seq<seq<VideoId>>, lookup: seq<VideoId> -> Option<seq<StatsItem>>, keywords: string): (vs: seq<VideoRecord>)
    ensures (forall j :: 0 <= j < |batches| ==> lookup(batches[j]).None?) ==> vs == []
    decreases |batches|
  {
    if batches == [] then [] else BatchRecords(batches[0], lookup, keywords) + Enrich(batches[1..], lookup, keywords)
  }

  lemma {:induction false} EnrichAppend(a: seq<seq<VideoId>>, b: seq<seq<VideoId>>, lookup: seq<VideoId> -> Option<seq<StatsItem>>, keywords: string)
    ensures Enrich(a + b, lookup, keywords) == Enrich(a, lookup, keywords) + Enrich(b, lookup, keywords)
    decreases |a|
  {
    if a == [] {
      assert a + b == b;
    } else {
      var head := BatchRecords(a[0], lookup, keywords);
      assert (a + b)[0] == a[0];
      assert (a + b)[1..] == a[1..] + b;
      EnrichAppend(a[1..], b, lookup, keywords);
      calc {
        Enrich(a + b, lookup, keywords);
        head + Enrich(a[1..] + b, lookup, keywords);
        head + (Enrich(a[1..], lookup, keywords) + Enrich(b, lookup, keywords));
        (head + Enrich(a[1..], lookup, keywords)) + Enrich(b, lookup, keywords);
      }
    }
  }

  /** A failed batch is skipped and the batches around it contribute as if it
      were not there. */
  lemma FailedBatchSkipped(batches: seq<seq<VideoId>>, j: nat, lookup: seq<VideoId> -> Option<seq<StatsItem>>, keywords: string)
    requires j < |batches| && lookup(batches[j]).None?
    ensures Enrich(batches, lookup, keywords) == Enrich(batches[..j], lookup, keywords) + Enrich(batches[j + 1..], lookup, keywords)
  {
    var before, rest, after := batches[..j], batches[j..], batches[j + 1..];
    assert batches == before + rest;
    assert rest[0] == batches[j] && rest[1..] == after;
    EnrichAppend(before, rest, lookup, keywords);
    assert BatchRecords(rest[0], lookup, keywords) == [];
    assert Enrich(rest, lookup, keywords) == Enrich(after, lookup, keywords);
  }

  /** Every record comes from an item of a batch whose statistics call succeeded. */
  lemma {:induction false} EnrichFromItems(batches: seq<seq<VideoId>>, lookup: seq<VideoId> -> Option<seq<StatsItem>>, keywords: string, v: VideoRecord)
    requires v in Enrich(batches, lookup, keywords)
    ensures exists j, k :: 0 <= j < |batches| && lookup(batches[j]).Some?
              && 0 <= k < |lookup(batches[j]).value| && v == ToRecord(lookup(batches[j]).value[k], keywords)
    decreases |batches|
  {
    var here := BatchRecords(batches[0], lookup, keywords);
    if v in here {
      var k :| 0 <= k < |here| && here[k] == v;
      assert v == ToRecord(lookup(batches[0]).value[k], keywords);
      assert 0 < |batches|;
    } else {
      EnrichFromItems(batches[1..], lookup, keywords, v);
      var j, k :| 0 <= j < |batches[1..]| && lookup(batches[1..][j]).Some?
                 && 0 <= k < |lookup(batches[1..][j]).value| && v == ToRecord(lookup(batches[1..][j]).value[k], keywords);
      assert batches[1..][j] == batches[j + 1];
    }
  }

  /** The records of a list of statistics items, one per item, in order. */
  function ItemRecords(items: seq<StatsItem>, keywords: string): (vs: seq<VideoRecord>)
    ensures |vs| == |items|
  {
    seq(|items|, i requires 0 <= i < |items| => ToRecord(items[i], keywords))
  }

  lemma ItemRecordsSnoc(items: seq<StatsItem>, j: nat, keywords: string)
    requires j < |items|
    ensures ItemRecords(items[..j + 1], keywords) == ItemRecords(items[..j], keywords) + [ToRecord(items[j], keywords)]
  {
  }

  /** The batch starting at `i` and the batches after it. */
  lemma ChunksFrom(ids: seq<VideoId>, i: nat)
    requires i < |ids|
    ensures Chunks(ids[i..]) == [ids[i..Min(i + BatchSize, |ids|)]] + Chunks(ids[Min(i + BatchSize, |ids|)..])
  {
    if |ids| - i > BatchSize {
      assert ids[i..][BatchSize..] == ids[i + BatchSize..];
      assert ids[i..][..BatchSize] == ids[i..i + BatchSize];
    } else {
      assert ids[i..|ids|] == ids[i..];
      assert ids[|ids|..] == [];
    }
  }

  lemma EnrichFrom(ids: seq<VideoId>, i: nat, lookup: seq<VideoId> -> Option<seq<StatsItem>>, keywords: string)
    requires i < |ids|
    ensures Enrich(Chunks(ids[i..]), lookup, keywords)
         == BatchRecords(ids[i..Min(i + BatchSize, |ids|)], lookup, keywords)
            + Enrich(Chunks(ids[Min(i + BatchSize, |ids|)..]), lookup, keywords)
  {
    ChunksFrom(ids, i);
  }

  /** The `for` loop over 50-id slices, appending the records of each batch. */
  method FetchStatistics(videoIds: seq<VideoId>, lookup: seq<VideoId> -> Option<seq<StatsItem>>, keywords: string)
    returns (stats: seq<VideoRecord>)
    ensures stats == Enrich(Chunks(videoIds), lookup, keywords)
  {
    stats := [];
    var i := 0;
    assert videoIds[0..] == videoIds;
    while i < |videoIds|
      invariant 0 <= i <= |videoIds|
      invariant Enrich(Chunks(videoIds), lookup, keywords) == stats + Enrich(Chunks(videoIds[i..]), lookup, keywords)
      decreases |videoIds| - i
    {
      var next := Min(i + BatchSize, |videoIds|);
      var batch := videoIds[i..next];
      var info := lookup(batch);
      ghost var start := stats;
      if info.Some? {
        var items := info.value;
        for j := 0 to |items|
          invariant stats == start + ItemRecords(items[..j], keywords)
        {
          ItemRecordsSnoc(items, j, keywords);
          stats := stats + [ToRecord(items[j], keywords)];
        }
        assert items[..|items|] == items;
      }
      BatchStep(videoIds, i, lookup, keywords, start, stats);
      i := next;
    }
    assert videoIds[|videoIds|..] == [];
  }

  lemma BatchStep(ids: seq<VideoId>, i: nat, lookup: seq<VideoId> -> Option<seq<StatsItem>>, keywords: string,
                  start: seq<VideoRecord>, stats: seq<VideoRecord>)
    requires i < |ids|
    requires var batch := ids[i..Min(i + BatchSize, |ids|)];
             stats == start + (if lookup(batch).Some? then ItemRecords(lookup(batch).value, keywords) else [])
    ensures start + Enrich(Chunks(ids[i..]), lookup, keywords)
         == stats + Enrich(Chunks(ids[Min(i + BatchSize, |ids|)..]), lookup, keywords)
  {
    EnrichFrom(ids, i, lookup, keywords);
  }

  // ---------------------------------------------------------------------
  // The handler
  // ---------------------------------------------------------------------

  /** `search_videos` on the given page responses and statistics lookup. */
  function SearchResponse(query: string, maxResults: int, pages: seq<SearchPage>, lookup: seq<VideoId> -> Option<seq<StatsItem>>)
    : (r: Result<Videos<VideoRecord>>)
    requires ChainEnds(pages)
    ensures r.Ok? ==> r.value.total == |r.value.videos|
  {
    match Paginate(pages, maxResults, [])
    case Err(status, detail) => Err(status, detail)
    case Ok(ids) =>
      var stats := Enrich(Chunks(ids), lookup, Lower(StripHash(query)));
      Ok(Videos(stats, |stats|))
  }

  /** Every record of a search names the cleaned, lowercased query as its
      keywords, links to its short URL, and is the record of an item the
      statistics call returned for one of the batches of collected ids. */
  lemma SearchRecords(query: string, maxResults: int, pages: seq<SearchPage>, lookup: seq<VideoId> -> Option<seq<StatsItem>>, v: VideoRecord)
    requires ChainEnds(pages)
    requires SearchResponse(query, maxResults, pages, lookup).Ok?
    requires v in SearchResponse(query, maxResults, pages, lookup).value.videos
    ensures v.keywords == Lower(StripHash(query)) && v.platform == PlatformName
    ensures v.url == ShortUrlPrefix + v.videoId && |v.published| <= PublishedLength
    ensures ItemRecord(Chunks(Paginate(pages, maxResults, []).value), lookup, Lower(StripHash(query)), v)
  {
    var batches := Chunks(Paginate(pages, maxResults, []).value);
    var kw := Lower(StripHash(query));
    assert SearchResponse(query, maxResults, pages, lookup).value.videos == Enrich(batches, lookup, kw);
    EnrichRecord(batches, lookup, kw, v);
  }

  /** `v` is the record of item `k` returned for batch `j`: its `published`
      opens that item's `publishedAt` and its absent counts read 0. */
  predicate ItemRecordAt(batches: seq<seq<VideoId>>, lookup: seq<VideoId> -> Option<seq<StatsItem>>, keywords: string,
                         v: VideoRecord, j: int, k: int)
  {
    && 0 <= j < |batches| && lookup(batches[j]).Some? && 0 <= k < |lookup(batches[j]).value|
    && var item := lookup(batches[j]).value[k];
       && v == ToRecord(item, keywords) && v.published <= item.publishedAt
       && (item.viewCount.None? ==> v.views == 0)
       && (item.likeCount.None? ==> v.likes == 0)
       && (item.commentCount.None? ==> v.comments == 0)
  }

  /** `v` is the record of some item returned for one of the batches. */
  ghost predicate ItemRecord(batches: seq<seq<VideoId>>, lookup: seq<VideoId> -> Option<seq<StatsItem>>, keywords: string, v: VideoRecord)
  {
    exists j, k :: ItemRecordAt(batches, lookup, keywords, v, j, k)
  }

  lemma EnrichRecord(batches: seq<seq<VideoId>>, lookup: seq<VideoId> -> Option<seq<StatsItem>>, keywords: string, v: VideoRecord)
    requires v in Enrich(batches, lookup, keywords)
    ensures v.keywords == keywords && v.platform == PlatformName
    ensures v.url == ShortUrlPrefix + v.videoId && |v.published| <= PublishedLength
    ensures ItemRecord(batches, lookup, keywords, v)
  {
    EnrichFromItems(batches, lookup, keywords, v);
    var j, k :| 0 <= j < |batches| && lookup(batches[j]).Some?
                && 0 <= k < |lookup(batches[j]).value| && v == ToRecord(lookup(batches[j]).value[k], keywords);
    assert ItemRecordAt(batches, lookup, keywords, v, j, k);
  }

  method SearchVideos(query: string, maxResults: int, pages: seq<SearchPage>, lookup: seq<VideoId> -> Option<seq<StatsItem>>)
    returns (r: Result<Videos<VideoRecord>>)
    requires ChainEnds(pages)
    ensures r == SearchResponse(query, maxResults, pages, lookup)
  {
    var q := StripHash(query);
    var ids := CollectVideoIds(pages, maxResults);
    if ids.Err? {
      return Err(ids.status, ids.detail);
    }
    var stats := FetchStatistics(ids.value, lookup, Lower(q));
    r := Ok(Videos(stats, |stats|));
  }
}
