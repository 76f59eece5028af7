/** The combined handler (`combined_videos`): YouTube results and the manual
    records that pass the date window and keyword test, merged and sorted
    by publish date. */
module Combined {
  import opened Wrappers
  import opened Text
  import opened Documents
  import opened Search
  import opened Upload

  /** An element of the combined list: a YouTube record or a stored document. */
  datatype Entry = YouTube(video: VideoRecord) | Manual(doc: Document)

  const InternalError: nat := 500

  // ---------------------------------------------------------------------
  // Manual records: date window, keyword test, channel fill
  // ---------------------------------------------------------------------

  /** The record's publish value, as text, lies between `start` and `end`
      in string order; a record without one counts as `""`, inside the
      window only when `start` is empty. */
  predicate InWindow(doc: Document, start: string, end: string)
    ensures "published" !in doc ==> (InWindow(doc, start, end) <==> start == "")
  {
    var published := Render(GetOrEmpty(doc, "published"));
    LexLe(start, published) && LexLe(published, end)
  }

  /** The record's keywords as text, lowercased and cut at each comma. */
  function KeywordList(doc: Document): seq<string>
  {
    Split(Lower(Render(GetOrEmpty(doc, "keywords"))), ',')
  }

  /** Some keyword, stripped of surrounding white space, contains the query. */
  predicate AnyKeywordContains(keywords: seq<string>, queryLower: string)
  {
    exists i :: 0 <= i < |keywords| && Contains(Strip(keywords[i]), queryLower)
  }

  /** A stored record passes both tests; one without keywords passes the
      keyword test only for an empty query. */
  predicate Kept(doc: Document, queryLower: string, start: string, end: string)
    ensures "keywords" !in doc ==> (Kept(doc, queryLower, start, end) <==> InWindow(doc, start, end) && queryLower == "")
  {
    var keywords := KeywordList(doc);
    assert "keywords" !in doc ==> keywords == [""] && Strip(keywords[0]) == "";
    assert "keywords" !in doc ==> (AnyKeywordContains(keywords, queryLower) <==> Contains("", queryLower));
    InWindow(doc, start, end) && AnyKeywordContains(keywords, queryLower)
  }

  /** An empty channel (missing, "" or 0) takes the record's `id`, or "". */
  function FillChannel(doc: Document): (filled: Document)
    ensures "channel" in filled && filled.Keys == doc.Keys + {"channel"}
    ensures Truthy(doc, "channel") ==> filled == doc
  {
    if Truthy(doc, "channel") then doc else doc["channel" := GetOrEmpty(doc, "id")]
  }

  /** Filling touches the channel only, and only when it is empty. */
  lemma FillChannelSpec(doc: Document)
    ensures "channel" in FillChannel(doc)
    ensures forall k :: k != "channel" ==> (k in FillChannel(doc) <==> k in doc)
    ensures forall k :: k in doc && k != "channel" ==> FillChannel(doc)[k] == doc[k]
    ensures Truthy(doc, "channel") ==> FillChannel(doc) == doc
    ensures !Truthy(doc, "channel") ==> FillChannel(doc)["channel"] == GetOrEmpty(doc, "id")
  {
  }

  /** The records `keep` accepts, each with its channel filled, in stored order. */
  function Filtered(docs: seq<Document>, keep: Document -> bool): (kept: seq<Document>)
    ensures |kept| <= |docs|
    decreases |docs|
  {
    if docs == [] then []
    else
      var last := docs[|docs| - 1];
      Filtered(docs[..|docs| - 1], keep) + (if keep(last) then [FillChannel(last)] else [])
  }

  /** The stored records kept for the combined list, channels filled. */
  function KeptManual(docs: seq<Document>, queryLower: string, start: string, end: string): (kept: seq<Document>)
    ensures |kept| <= |docs|
  {
    Filtered(docs, doc => Kept(doc, queryLower, start, end))
  }

  /** A document is in the filtered list exactly when it is the filled form of
      a record that `keep` accepts. */
  lemma {:induction false} FilteredMembers(docs: seq<Document>, keep: Document -> bool, x: Document)
    ensures x in Filtered(docs, keep) <==> exists i :: 0 <= i < |docs| && keep(docs[i]) && x == FillChannel(docs[i])
    ensures |Filtered(docs, keep)| <= |docs|
    decreases |docs|
  {
    if docs != [] {
      var init := docs[..|docs| - 1];
      FilteredMembers(init, keep, x);
      if exists i :: 0 <= i < |init| && keep(init[i]) && x == FillChannel(init[i]) {
        var i :| 0 <= i < |init| && keep(init[i]) && x == FillChannel(init[i]);
        assert docs[i] == init[i];
      }
      if exists i :: 0 <= i < |docs| && keep(docs[i]) && x == FillChannel(docs[i]) {
        var i :| 0 <= i < |docs| && keep(docs[i]) && x == FillChannel(docs[i]);
        if i < |init| {
          assert init[i] == docs[i];
        }
      }
    }
  }

  /** A document is in `filtered_manual` exactly when it is the filled form of
      a stored record that is inside the window and matches the query. */
  lemma KeptManualMembers(docs: seq<Document>, queryLower: string, start: string, end: string, x: Document)
    ensures x in KeptManual(docs, queryLower, start, end) <==>
              exists i :: 0 <= i < |docs| && Kept(docs[i], queryLower, start, end) && x == FillChannel(docs[i])
  {
    FilteredMembers(docs, doc => Kept(doc, queryLower, start, end), x);
  }

  /** With an empty query the keyword test passes every record: only the
      date window decides. */
  lemma EmptyQueryKeepsWindow(doc: Document, start: string, end: string)
    ensures Kept(doc, Lower(""), start, end) <==> InWindow(doc, start, end)
  {
    var keywords := KeywordList(doc);
    assert Lower("") == "";
    assert Contains(Strip(keywords[0]), "");
  }

  /** The loop over the stored records that builds `filtered_manual`. */
  method FilterManual(manualVideos: seq<Document>, query: string, start: string, end: string)
    returns (filtered: seq<Document>)
    ensures filtered == KeptManual(manualVideos, Lower(query), start, end)
  {
    var queryLower := Lower(query);
    filtered := [];
    for i := 0 to |manualVideos|
      invariant filtered == Filtered(manualVideos[..i], doc => Kept(doc, queryLower, start, end))
    {
      var v := manualVideos[i];
      assert manualVideos[..i + 1][..i] == manualVideos[..i];
      var pubDate := Render(GetOrEmpty(v, "published"));
      if LexLe(start, pubDate) && LexLe(pubDate, end) {
        var keywords := KeywordList(v);
        var matched := AnyKeywordContains(keywords, queryLower);
        // the dictionary appended is the one whose channel is filled just after
        var filled := FillChannel(v);
        if matched {
          filtered := filtered + [filled];
        }
      }
    }
    assert manualVideos[..|manualVideos|] == manualVideos;
  }

  // ---------------------------------------------------------------------
  // The sort by `published`
  // ---------------------------------------------------------------------

  /** The sort key: the publish value, or the empty string when missing. */
  function PublishedKey(e: Entry): Cell
  {
    match e
    case YouTube(v) => Str(v.published)
    case Manual(d) => GetOrEmpty(d, "published")
  }

  /** Python's `<=` between sort keys: numbers by value, strings
      lexicographically. Python cannot compare a number with a string; the
      order given to such a pair here is never used (see `Orderable`). */
  predicate KeyLe(a: Cell, b: Cell)
  {
    match (a, b)
    case (Int(x), Int(y)) => x <= y
    case (Str(x), Str(y)) => LexLe(x, y)
    case (Int(_), Str(_)) => true
    case (Str(_), Int(_)) => false
  }

  lemma KeyLeTotal(a: Cell, b: Cell)
    ensures KeyLe(a, b) || KeyLe(b, a)
  {
    if a.Str? && b.Str? {
      LexLeTotal(a.text, b.text);
    }
  }

  lemma KeyLeReflexive(a: Cell)
    ensures KeyLe(a, a)
  {
    if a.Str? {
      LexLeReflexive(a.text);
    }
  }

  lemma KeyLeTransitive(a: Cell, b: Cell, c: Cell)
    requires KeyLe(a, b) && KeyLe(b, c)
    ensures KeyLe(a, c)
  {
    if a.Str? && b.Str? && c.Str? {
      LexLeTransitive(a.text, b.text, c.text);
    }
  }

  lemma KeyLeAntisymmetric(a: Cell, b: Cell)
    requires KeyLe(a, b) && KeyLe(b, a)
    ensures a == b
  {
    if a.Str? && b.Str? {
      LexLeAntisymmetric(a.text, b.text);
    }
  }

  /** The keys are all strings or all numbers, so Python can sort them. */
  predicate Orderable(entries: seq<Entry>)
  {
    (forall i :: 0 <= i < |entries| ==> PublishedKey(entries[i]).Str?)
    || (forall i :: 0 <= i < |entries| ==> PublishedKey(entries[i]).Int?)
  }

  predicate Sorted(entries: seq<Entry>)
  {
    forall i, j :: 0 <= i < j < |entries| ==> KeyLe(PublishedKey(entries[i]), PublishedKey(entries[j]))
  }

  /** The entries with the given key, in order. */
  function WithKey(entries: seq<Entry>, key: Cell): seq<Entry>
    decreases |entries|
  {
    if entries == [] then []
    else (if PublishedKey(entries[0]) == key then [entries[0]] else []) + WithKey(entries[1..], key)
  }

  /** Put `e` before the first entry whose key is not below its own. */
  function Insert(e: Entry, entries: seq<Entry>): (r: seq<Entry>)
    ensures |r| == |entries| + 1
    decreases |entries|
  {
    if entries == [] || KeyLe(PublishedKey(e), PublishedKey(entries[0])) then [e] + entries
    else [entries[0]] + Insert(e, entries[1..])
  }

  /** The stable ascending sort on the publish value. */
  function SortByPublished(entries: seq<Entry>): (sorted: seq<Entry>)
    ensures |sorted| == |entries|
    decreases |entries|
  {
    if entries == [] then [] else Insert(entries[0], SortByPublished(entries[1..]))
  }

  lemma {:induction false} InsertPermutes(e: Entry, entries: seq<Entry>)
    ensures multiset(Insert(e, entries)) == multiset{e} + multiset(entries)
    decreases |entries|
  {
    if entries != [] && !KeyLe(PublishedKey(e), PublishedKey(entries[0])) {
      InsertPermutes(e, entries[1..]);
      assert entries == [entries[0]] + entries[1..];
    }
  }

  lemma {:induction false} InsertSorted(e: Entry, entries: seq<Entry>)
    requires Sorted(entries)
    ensures Sorted(Insert(e, entries))
    decreases |entries|
  {
    var ke := PublishedKey(e);
    if entries == [] {
    } else if KeyLe(ke, PublishedKey(entries[0])) {
      forall j | 0 < j < |entries| ensures KeyLe(ke, PublishedKey(entries[j])) {
        KeyLeTransitive(ke, PublishedKey(entries[0]), PublishedKey(entries[j]));
      }
    } else {
      var head, rest := entries[0], Insert(e, entries[1..]);
      InsertSorted(e, entries[1..]);
      InsertPermutes(e, entries[1..]);
      KeyLeTotal(ke, PublishedKey(head));
      forall j | 0 <= j < |rest| ensures KeyLe(PublishedKey(head), PublishedKey(rest[j])) {
        assert rest[j] in multiset(rest);
        if rest[j] != e {
          assert rest[j] in multiset(entries[1..]);
          var m :| 0 <= m < |entries[1..]| && entries[1..][m] == rest[j];
          assert entries[m + 1] == rest[j];
        }
      }
    }
  }

  /** Inserting places `e` before every entry with the same key. */
  lemma {:induction false} InsertWithKey(e: Entry, entries: seq<Entry>, key: Cell)
    ensures WithKey(Insert(e, entries), key)
         == (if PublishedKey(e) == key then [e] else []) + WithKey(entries, key)
    decreases |entries|
  {
    if entries == [] || KeyLe(PublishedKey(e), PublishedKey(entries[0])) {
      assert ([e] + entries)[1..] == entries;
    } else {
      var head, tail := entries[0], entries[1..];
      var inserted := Insert(e, tail);
      var mine: seq<Entry> := if PublishedKey(e) == key then [e] else [];
      var its: seq<Entry> := if PublishedKey(head) == key then [head] else [];
      InsertWithKey(e, tail, key);
      KeyLeReflexive(PublishedKey(e));
      assert mine == [] || its == [];
      assert ([head] + inserted)[1..] == inserted;
      assert WithKey([head] + inserted, key) == its + (mine + WithKey(tail, key));
      assert WithKey(entries, key) == its + WithKey(tail, key);
    }
  }

  /** The sort orders by key, loses and adds nothing, and keeps entries with
      equal keys in their original order. */
  lemma {:induction false} SortByPublishedSpec(entries: seq<Entry>)
    ensures Sorted(SortByPublished(entries))
    ensures multiset(SortByPublished(entries)) == multiset(entries)
    ensures forall key :: WithKey(SortByPublished(entries), key) == WithKey(entries, key)
    decreases |entries|
  {
    if entries != [] {
      var rest := SortByPublished(entries[1..]);
      SortByPublishedSpec(entries[1..]);
      InsertSorted(entries[0], rest);
      InsertPermutes(entries[0], rest);
      assert entries == [entries[0]] + entries[1..];
      forall key ensures WithKey(SortByPublished(entries), key) == WithKey(entries, key) {
        InsertWithKey(entries[0], rest, key);
      }
    }
  }

  // ---------------------------------------------------------------------
  // The handler
  // ---------------------------------------------------------------------

  /** The source asks for YouTube results: `all` or `youtube`. */
  predicate SelectsYouTube(source: string)
  {
    source == "all" || source == "youtube"
  }

  /** `yt_videos`: the search result when the source selects YouTube, else none. */
  function YouTubePart(query: string, maxResults: int, source: string, pages: seq<SearchPage>,
                       lookup: seq<VideoId> -> Option<seq<StatsItem>>): Result<Videos<VideoRecord>>
    requires SelectsYouTube(source) ==> ChainEnds(pages)
  {
    if SelectsYouTube(source) then SearchResponse(query, maxResults, pages, lookup) else Ok(Videos([], 0))
  }

  /** The YouTube records followed by the kept stored records. */
  function Merged(videos: seq<VideoRecord>, kept: seq<Document>): (r: seq<Entry>)
    ensures |r| == |videos| + |kept|
  {
    seq(|videos|, i requires 0 <= i < |videos| => YouTube(videos[i]))
    + seq(|kept|, i requires 0 <= i < |kept| => Manual(kept[i]))
  }

  /** `combined_videos` on the page responses, the statistics lookup and the
      stored documents. */
  function Combined(query: string, start: string, end: string, maxResults: int, source: string,
                    pages: seq<SearchPage>, lookup: seq<VideoId> -> Option<seq<StatsItem>>,
                    manual: seq<Document>): (r: Result<Videos<Entry>>)
    requires SelectsYouTube(source) ==> ChainEnds(pages)
    ensures r.Ok? ==> r.value.total == |r.value.videos|
  {
    var yt := YouTubePart(query, maxResults, source, pages, lookup);
    if yt.Err? then Err(yt.status, yt.detail)
    else
      var merged := Merged(yt.value.videos, KeptManual(manual, Lower(query), start, end));
      if !Orderable(merged) then Err(InternalError, "TypeError")
      else
        var sorted := SortByPublished(merged);
        Ok(Videos(sorted, |sorted|))
  }

  /** The combined list is the YouTube results followed by the kept manual
      records, sorted ascending by publish date, stably. */
  lemma CombinedOrder(query: string, start: string, end: string, maxResults: int, source: string,
                      pages: seq<SearchPage>, lookup: seq<VideoId> -> Option<seq<StatsItem>>, manual: seq<Document>)
    requires SelectsYouTube(source) ==> ChainEnds(pages)
    requires Combined(query, start, end, maxResults, source, pages, lookup, manual).Ok?
    ensures var out := Combined(query, start, end, maxResults, source, pages, lookup, manual).value.videos;
            var merged := Merged(YouTubePart(query, maxResults, source, pages, lookup).value.videos,
                                 KeptManual(manual, Lower(query), start, end));
            && Sorted(out)
            && multiset(out) == multiset(merged)
            && (forall key :: WithKey(out, key) == WithKey(merged, key))
  {
    var merged := Merged(YouTubePart(query, maxResults, source, pages, lookup).value.videos,
                         KeptManual(manual, Lower(query), start, end));
    SortByPublishedSpec(merged);
  }

  /** A manual entry of the sorted merge is one of the kept documents. */
  lemma MergedManual(videos: seq<VideoRecord>, kept: seq<Document>, doc: Document)
    requires Manual(doc) in SortByPublished(Merged(videos, kept))
    ensures doc in kept
  {
    var merged := Merged(videos, kept);
    SortedFrom(merged, Manual(doc));
    var m :| 0 <= m < |merged| && merged[m] == Manual(doc);
    assert kept[m - |videos|] == doc;
  }

  /** Every entry of the sorted list comes from the unsorted one. */
  lemma SortedFrom(entries: seq<Entry>, e: Entry)
    requires e in SortByPublished(entries)
    ensures e in entries
  {
    SortByPublishedSpec(entries);
    assert e in multiset(SortByPublished(entries));
  }

  /** A manual entry of the combined list is a stored record inside the
      window whose keywords contain the query, with its channel filled. */
  lemma CombinedManualEntries(query: string, start: string, end: string, maxResults: int, source: string,
                              pages: seq<SearchPage>, lookup: seq<VideoId> -> Option<seq<StatsItem>>,
                              manual: seq<Document>, doc: Document)
    requires SelectsYouTube(source) ==> ChainEnds(pages)
    requires Combined(query, start, end, maxResults, source, pages, lookup, manual).Ok?
    requires Manual(doc) in Combined(query, start, end, maxResults, source, pages, lookup, manual).value.videos
    ensures exists i :: 0 <= i < |manual| && InWindow(manual[i], start, end)
              && AnyKeywordContains(KeywordList(manual[i]), Lower(query)) && doc == FillChannel(manual[i])
  {
    var kept := KeptManual(manual, Lower(query), start, end);
    MergedManual(YouTubePart(query, maxResults, source, pages, lookup).value.videos, kept, doc);
    KeptManualMembers(manual, Lower(query), start, end, doc);
  }

  /** Without "all" or "youtube" as the source the search API is not consulted. */
  lemma ManualSourceIgnoresSearch(query: string, start: string, end: string, maxResults: int, source: string,
                                  pages1: seq<SearchPage>, lookup1: seq<VideoId> -> Option<seq<StatsItem>>,
                                  pages2: seq<SearchPage>, lookup2: seq<VideoId> -> Option<seq<StatsItem>>,
                                  manual: seq<Document>)
    requires !SelectsYouTube(source)
    ensures Combined(query, start, end, maxResults, source, pages1, lookup1, manual)
         == Combined(query, start, end, maxResults, source, pages2, lookup2, manual)
  {
  }

  /** Filling the channel leaves the publish value alone, so kept records
      have string publish values when all stored ones do. */
  lemma KeptPublishedText(manual: seq<Document>, queryLower: string, start: string, end: string)
    requires forall i :: 0 <= i < |manual| ==> GetOrEmpty(manual[i], "published").Str?
    ensures forall doc :: doc in KeptManual(manual, queryLower, start, end) ==> GetOrEmpty(doc, "published").Str?
  {
    forall doc | doc in KeptManual(manual, queryLower, start, end)
      ensures GetOrEmpty(doc, "published").Str?
    {
      KeptManualMembers(manual, queryLower, start, end, doc);
      var j :| 0 <= j < |manual| && Kept(manual[j], queryLower, start, end) && doc == FillChannel(manual[j]);
      FillChannelSpec(manual[j]);
    }
  }

  lemma MergedOrderable(videos: seq<VideoRecord>, kept: seq<Document>)
    requires forall doc :: doc in kept ==> GetOrEmpty(doc, "published").Str?
    ensures Orderable(Merged(videos, kept))
  {
    var merged := Merged(videos, kept);
    forall i | 0 <= i < |merged| ensures PublishedKey(merged[i]).Str? {
      if i >= |videos| {
        assert merged[i] == Manual(kept[i - |videos|]);
      }
    }
  }

  /** When every stored publish value is a string, the combined handler fails
      only if the search does. */
  lemma TextDatesSort(query: string, start: string, end: string, maxResults: int, source: string,
                      pages: seq<SearchPage>, lookup: seq<VideoId> -> Option<seq<StatsItem>>, manual: seq<Document>)
    requires SelectsYouTube(source) ==> ChainEnds(pages)
    requires forall i :: 0 <= i < |manual| ==> GetOrEmpty(manual[i], "published").Str?
    ensures Combined(query, start, end, maxResults, source, pages, lookup, manual).Ok?
        <==> YouTubePart(query, maxResults, source, pages, lookup).Ok?
  {
    var yt := YouTubePart(query, maxResults, source, pages, lookup);
    if yt.Ok? {
      KeptPublishedText(manual, Lower(query), start, end);
      MergedOrderable(yt.value.videos, KeptManual(manual, Lower(query), start, end));
    }
  }

  /** The handler: search when the source asks for it (a failure there is
      returned as is), filter the stored records, merge, sort. */
  method CombinedVideos(store: ManualStore, query: string, start: string, end: string, maxResults: int, source: string,
                        pages: seq<SearchPage>, lookup: seq<VideoId> -> Option<seq<StatsItem>>)
    returns (r: Result<Videos<Entry>>)
    requires SelectsYouTube(source) ==> ChainEnds(pages)
    ensures r == Combined(query, start, end, maxResults, source, pages, lookup, store.documents)
  {
    var ytVideos: seq<VideoRecord> := [];
    if source == "all" || source == "youtube" {
      var found := SearchVideos(query, maxResults, pages, lookup);
      if found.Err? {
        return Err(found.status, found.detail);
      }
      ytVideos := found.value.videos;
    }
    var manualVideos := store.documents;
    var filtered := FilterManual(manualVideos, query, start, end);
    var combined := Merged(ytVideos, filtered);
    if !Orderable(combined) {
      return Err(InternalError, "TypeError");
    }
    var sorted := SortByPublished(combined);
    r := Ok(Videos(sorted, |sorted|));
  }

  /** Every kept stored record is in the combined list. */
  lemma CombinedKeepsStoredRecords(query: string, start: string, end: string, maxResults: int, source: string,
                                   pages: seq<SearchPage>, lookup: seq<VideoId> -> Option<seq<StatsItem>>,
                                   manual: seq<Document>, doc: Document)
    requires SelectsYouTube(source) ==> ChainEnds(pages)
    requires Combined(query, start, end, maxResults, source, pages, lookup, manual).Ok?
    requires doc in KeptManual(manual, Lower(query), start, end)
    ensures Manual(doc) in Combined(query, start, end, maxResults, source, pages, lookup, manual).value.videos
  {
    var videos := YouTubePart(query, maxResults, source, pages, lookup).value.videos;
    var kept := KeptManual(manual, Lower(query), start, end);
    var merged := Merged(videos, kept);
    var j :| 0 <= j < |kept| && kept[j] == doc;
    assert merged[|videos| + j] == Manual(doc);
    SortByPublishedSpec(merged);
    assert Manual(doc) in multiset(SortByPublished(merged));
  }

  // ---------------------------------------------------------------------
  // The reply as written
  // ---------------------------------------------------------------------

  /** The reply as the code builds it. Documents read back from the
      collection also carry the `_id` object the database adds, and the JSON
      encoder of the response cannot write that object, so once the sort
      succeeds any stored record in the list turns the reply into a server
      error. */
  function CombinedAsWritten(query: string, start: string, end: string, maxResults: int, source: string,
                             pages: seq<SearchPage>, lookup: seq<VideoId> -> Option<seq<StatsItem>>,
                             manual: seq<Document>): (r: Result<Videos<Entry>>)
    requires SelectsYouTube(source) ==> ChainEnds(pages)
    ensures Combined(query, start, end, maxResults, source, pages, lookup, manual).Err? ==>
              r == Combined(query, start, end, maxResults, source, pages, lookup, manual)
  {
    var r := Combined(query, start, end, maxResults, source, pages, lookup, manual);
    if r.Ok? && KeptManual(manual, Lower(query), start, end) != [] then Err(InternalError, "TypeError") else r
  }

  /** As written, a successful reply never holds a stored record. */
  lemma AsWrittenNoStoredRecords(query: string, start: string, end: string, maxResults: int, source: string,
                                 pages: seq<SearchPage>, lookup: seq<VideoId> -> Option<seq<StatsItem>>,
                                 manual: seq<Document>, doc: Document)
    requires SelectsYouTube(source) ==> ChainEnds(pages)
    requires CombinedAsWritten(query, start, end, maxResults, source, pages, lookup, manual).Ok?
    ensures Manual(doc) !in CombinedAsWritten(query, start, end, maxResults, source, pages, lookup, manual).value.videos
  {
    if Manual(doc) in Combined(query, start, end, maxResults, source, pages, lookup, manual).value.videos {
      var videos := YouTubePart(query, maxResults, source, pages, lookup).value.videos;
      MergedManual(videos, KeptManual(manual, Lower(query), start, end), doc);
    }
  }

  /** A request for stored records only, where the one stored record passes
      the tests: the intended reply lists that record, the reply as written
      is a server error. */
  lemma StoredRecordBreaksReply(query: string, start: string, end: string, maxResults: int, source: string,
                                pages: seq<SearchPage>, lookup: seq<VideoId> -> Option<seq<StatsItem>>, doc: Document)
    requires !SelectsYouTube(source) && Kept(doc, Lower(query), start, end)
    requires GetOrEmpty(doc, "published").Str?
    ensures Combined(query, start, end, maxResults, source, pages, lookup, [doc]) == Ok(Videos([Manual(FillChannel(doc))], 1))
    ensures CombinedAsWritten(query, start, end, maxResults, source, pages, lookup, [doc]) == Err(InternalError, "TypeError")
  {
    var filled := FillChannel(doc);
    KeptSingle(doc, Lower(query), start, end);
    FillChannelSpec(doc);
    SingleSorted(filled);
    assert YouTubePart(query, maxResults, source, pages, lookup) == Ok(Videos([], 0));
  }

  /** Such a record exists: one published on `b`, in the window from `a` to
      `c`, with the empty query. */
  lemma StoredRecordExample()
    ensures Kept(map["published" := Str("b")], Lower(""), "a", "c")
    ensures GetOrEmpty(map["published" := Str("b")], "published").Str?
  {
    KeptExample(map["published" := Str("b")]);
  }

  /** A single stored record with a text publish value sorts to itself. */
  lemma SingleSorted(doc: Document)
    requires GetOrEmpty(doc, "published").Str?
    ensures Merged([], [doc]) == [Manual(doc)]
    ensures Orderable(Merged([], [doc])) && SortByPublished(Merged([], [doc])) == [Manual(doc)]
  {
    assert Merged([], [doc]) == [Manual(doc)];
  }

  /** A single stored record that passes the tests is kept, channel filled. */
  lemma KeptSingle(doc: Document, queryLower: string, start: string, end: string)
    requires Kept(doc, queryLower, start, end)
    ensures KeptManual([doc], queryLower, start, end) == [FillChannel(doc)]
  {
    assert [doc][..0] == [];
  }

  lemma KeptExample(doc: Document)
    requires doc == map["published" := Str("b")]
    ensures Lower("") == "" && Kept(doc, "", "a", "c")
    ensures GetOrEmpty(FillChannel(doc), "published").Str?
  {
    assert Render(GetOrEmpty(doc, "published")) == "b";
    assert LexLe("a", "b") && LexLe("b", "c");
  }
}
