/** The owner-scoped entry operations of the relational path (`knowledge-actions`):
    create (row first, then best-effort indexing), cursor paging, update, delete
    (ownership check, best-effort vector removal, row removal), lookup and search. */
module KnowledgeActions {
  import opened Base
  import opened Chroma
  import opened EntryStore
  import opened ContentExtraction
  import opened VectorSearchService
  import Sorting

  /** `createKnowledgeEntry`'s argument; optional fields are `None` when omitted. */
  datatype EntryData = EntryData(
    title: string,
    textForEmbedding: string,
    originalSource: Option<string>,
    contentType: ContentType,
    tags: Option<seq<Tag>>,
    userId: string)

  /** Extraction is attempted for a truthy source naming a YouTube or X host. */
  predicate ShouldExtract(originalSource: Option<string>) {
    Truthy(originalSource) &&
    (Contains(originalSource.value, "youtube.com") || Contains(originalSource.value, "youtu.be") ||
     Contains(originalSource.value, "x.com") || Contains(originalSource.value, "twitter.com"))
  }

  /** The sources extraction is attempted for are exactly those it classifies as
      YouTube or X, so an attempted extraction never yields a plain-text entry. */
  lemma ExtractionNeverPlain(data: EntryData, f: Fetched)
    requires ShouldExtract(data.originalSource)
    ensures IsYouTube(data.originalSource.value) || IsX(data.originalSource.value)
    ensures ExtractContent(data.originalSource.value, f).contentType != Text
  {
  }

  /** `finalData`: title, text and type replaced by the extraction when it is
      attempted; everything else as supplied. */
  function Finalize(data: EntryData, f: Fetched): (fin: EntryData)
    ensures fin.originalSource == data.originalSource && fin.tags == data.tags && fin.userId == data.userId
    ensures !ShouldExtract(data.originalSource) ==> fin == data
    ensures ShouldExtract(data.originalSource) ==>
      var x := ExtractContent(data.originalSource.value, f);
      fin.title == x.title && fin.textForEmbedding == x.textForEmbedding && fin.contentType == x.contentType
  {
    if ShouldExtract(data.originalSource) then
      var x := ExtractContent(data.originalSource.value, f);
      data.(title := x.title, textForEmbedding := x.textForEmbedding, contentType := x.contentType)
    else data
  }

  /** The metadata stored with an entry's vector. */
  function MetadataOf(fin: EntryData): Metadata {
    Metadata(fin.title, fin.contentType, fin.originalSource.GetOr(""), fin.tags.GetOr([]), fin.userId)
  }

  /** `createKnowledgeEntry(data)`. `f` is what extraction meets on the network,
      `now` the clock, `init` and `outcome` what the vector store does, `link`
      whether the store's write of the vector id succeeds. The row is written first;
      neither the vector store nor a failed vector-id write makes the call fail; when
      that write succeeds the row's vector id is the row id, which `addEntry` answers
      on every path, and otherwise it stays unset. The entry returned is the row as
      created, tags parsed back from their JSON. */
  method CreateKnowledgeEntry(data: EntryData, f: Fetched, now: int,
                              db: EntryTable, chroma: ChromaDBService, init: Outcome, outcome: Outcome,
                              link: Outcome)
    returns (e: Entry)
    requires db.Valid()
    modifies db, chroma
    ensures db.Valid()
    ensures var fin := Finalize(data, f);
            && e.id !in old(db.issued) && db.issued == old(db.issued) + {e.id}
            && e == Entry(e.id, fin.title, fin.textForEmbedding, data.originalSource.GetOr(""), fin.contentType,
                          data.tags.GetOr([]), None, data.userId, now, now)
            && db.rows == old(db.rows)[e.id := if link == Succeeds then e.(chromaId := Some(e.id)) else e]
            && chroma.State() == Step(old(chroma.State()),
                                      AddCall(e.id, VectorDoc(fin.textForEmbedding, MetadataOf(fin)), init, outcome))
  {
    var fin := Finalize(data, f);
    e := InsertAndIndex(fin, now, db, chroma, init, outcome, link);
  }

  /** The rest of `createKnowledgeEntry` once `finalData` is known: the row is
      created with its tags as JSON, the vector store is asked to add it, the row's
      vector id is set to what `addEntry` answers (a failure of that write is
      caught and leaves the id unset), and the created row is returned with its tags
      parsed back. */
  method InsertAndIndex(fin: EntryData, now: int,
                        db: EntryTable, chroma: ChromaDBService, init: Outcome, outcome: Outcome,
                        link: Outcome)
    returns (e: Entry)
    requires db.Valid()
    modifies db, chroma
    ensures db.Valid()
    ensures e.id !in old(db.issued) && db.issued == old(db.issued) + {e.id}
    ensures e == Entry(e.id, fin.title, fin.textForEmbedding, fin.originalSource.GetOr(""), fin.contentType,
                       fin.tags.GetOr([]), None, fin.userId, now, now)
    ensures db.rows == old(db.rows)[e.id := if link == Succeeds then e.(chromaId := Some(e.id)) else e]
    ensures chroma.State() == Step(old(chroma.State()),
                                   AddCall(e.id, VectorDoc(fin.textForEmbedding, MetadataOf(fin)), init, outcome))
  {
    var tags := fin.tags.GetOr([]);
    var row := NewRow(fin.title, fin.textForEmbedding, fin.originalSource.GetOr(""), fin.contentType, tags, fin.userId);
    var created := db.Create(row, now);
    var chromaId := chroma.AddEntry(created.id, fin.textForEmbedding, MetadataOf(fin), init, outcome);
    if link == Succeeds {
      var patched := db.Update(created.id, None, Patch(None, None, None, None, None, Some(chromaId)), now);
    }
    TagsRoundTrip(created.tags);
    var parsed := ParseTags(TagsJson(created.tags));
    e := created.(tags := parsed.value);
  }

  // ---------------------------------------------------------------------------
  // Cursor paging over the owner's rows as the store lists them, newest first.

  /** A page and the cursor for the next one. */
  datatype Page = Page(entries: seq<Entry>, nextCursor: Option<string>)

  /** Index of the first row of `listing` with id `id`. */
  function PositionOf(listing: seq<Entry>, id: string): (i: Option<nat>)
    ensures i.Some? ==> i.value < |listing| && listing[i.value].id == id
    decreases |listing|
  {
    if listing == [] then None
    else if listing[0].id == id then Some(0)
    else match PositionOf(listing[1..], id)
      case None => None
      case Some(k) => Some(k + 1)
  }

  /** No row before the one `PositionOf` finds has the id, and when it finds none,
      no row at all has it. */
  lemma {:induction false} PositionOfFirst(listing: seq<Entry>, id: string)
    ensures var i := PositionOf(listing, id);
            && (i.Some? ==> forall k :: 0 <= k < i.value ==> listing[k].id != id)
            && (i.None? ==> forall k :: 0 <= k < |listing| ==> listing[k].id != id)
    decreases |listing|
  {
    if listing != [] && listing[0].id != id {
      PositionOfFirst(listing[1..], id);
      forall k | 1 <= k < |listing|
        ensures listing[k] == listing[1..][k - 1]
      {
      }
    }
  }

  /** Where a page starts: at the top without a (truthy) cursor, just after the
      cursor row with one (`skip: 1`), past the end when the cursor names no row. */
  function PageStart(listing: seq<Entry>, cursor: Option<string>): (start: nat)
    ensures start <= |listing|
    ensures !Truthy(cursor) ==> start == 0
    ensures 0 < start < |listing| ==> Truthy(cursor) && listing[start - 1].id == cursor.value
  {
    if !Truthy(cursor) then 0
    else match PositionOf(listing, cursor.value)
      case None => |listing|
      case Some(i) => i + 1
  }

  /** The next `take` rows of the listing from `start`, as many as there are. */
  function FetchFrom(listing: seq<Entry>, take: nat, start: nat): (rows: seq<Entry>)
    requires start <= |listing|
    ensures |rows| == (if take <= |listing| - start then take else |listing| - start)
    ensures rows == listing[start..start + |rows|]
  {
    if take <= |listing| - start then listing[start..start + take] else listing[start..]
  }

  /** `findMany({ take, cursor, skip: 1, orderBy: { createdAt: 'desc' } })`. */
  function FetchRows(listing: seq<Entry>, take: nat, cursor: Option<string>): seq<Entry> {
    FetchFrom(listing, take, PageStart(listing, cursor))
  }

  /** The page drawn from `limit + 1` fetched rows, as written: the extra row, if
      any, is dropped and its id becomes the next cursor. */
  function Paginate(fetched: seq<Entry>, limit: nat): (p: Page)
    requires |fetched| <= limit + 1
    ensures p.nextCursor.Some? <==> |fetched| > limit
    ensures |fetched| > limit ==> p.entries == fetched[..limit] && p.nextCursor == Some(fetched[limit].id)
    ensures |fetched| <= limit ==> p.entries == fetched
  {
    var hasMore := |fetched| > limit;
    var results := if hasMore then fetched[..|fetched| - 1] else fetched;
    var nextCursor := if hasMore then Some(fetched[|fetched| - 1].id) else None;
    Page(results, nextCursor)
  }

  /** The page as written that starts at row `start`, stated directly: `limit`
      consecutive rows and the id of the row after them when more remain, or the
      rest of the listing and no cursor. */
  function PageAt(listing: seq<Entry>, limit: nat, start: nat): Page
    requires start <= |listing|
  {
    if |listing| - start > limit then Page(listing[start..start + limit], Some(listing[start + limit].id))
    else Page(listing[start..], None)
  }

  /** `getKnowledgeEntries(limit, cursor)` over the rows of the owner (or of every
      owner for a falsy user id) as the store lists them: the page that starts
      where the cursor says. */
  function GetKnowledgeEntries(listing: seq<Entry>, limit: nat, cursor: Option<string>): (p: Page)
    ensures p.entries == PageAt(listing, limit, PageStart(listing, cursor)).entries
    ensures p.nextCursor == PageAt(listing, limit, PageStart(listing, cursor)).nextCursor
  {
    Paginate(FetchRows(listing, limit + 1, cursor), limit)
  }

  /** The page as evidently intended: the next cursor is the last row returned, so
      `skip: 1` resumes right after it. */
  function PaginateFixed(fetched: seq<Entry>, limit: nat): (p: Page)
    requires |fetched| <= limit + 1
    ensures |fetched| > limit ==> p.entries == fetched[..limit]
    ensures |fetched| <= limit ==> p.entries == fetched
    ensures p.nextCursor.Some? <==> |fetched| > limit && limit > 0
    ensures p.nextCursor.Some? ==> p.nextCursor == Some(fetched[limit - 1].id)
  {
    var hasMore := |fetched| > limit;
    var results := if hasMore then fetched[..|fetched| - 1] else fetched;
    var nextCursor := if hasMore && results != [] then Some(results[|results| - 1].id) else None;
    Page(results, nextCursor)
  }

  /** The intended page that starts at row `start`, stated directly: the cursor
      names its last row. */
  function PageAtFixed(listing: seq<Entry>, limit: nat, start: nat): Page
    requires start <= |listing|
  {
    if |listing| - start > limit && limit > 0 then Page(listing[start..start + limit], Some(listing[start + limit - 1].id))
    else if |listing| - start > limit then Page([], None)
    else Page(listing[start..], None)
  }

  function GetKnowledgeEntriesFixed(listing: seq<Entry>, limit: nat, cursor: Option<string>): (p: Page)
    ensures p.entries == PageAtFixed(listing, limit, PageStart(listing, cursor)).entries
    ensures p.nextCursor == PageAtFixed(listing, limit, PageStart(listing, cursor)).nextCursor
  {
    PaginateFixed(FetchRows(listing, limit + 1, cursor), limit)
  }

  /** The id of row `i`; the distinctness below is stated over it, so that it is
      only unfolded for the rows a proof names. */
  function Key(listing: seq<Entry>, i: nat): string
    requires i < |listing|
  {
    listing[i].id
  }

  /** Row ids are truthy and distinct, as the store's generated ids are. */
  predicate WellKeyed(listing: seq<Entry>) {
    && (forall i :: 0 <= i < |listing| ==> Key(listing, i) != "")
    && (forall i, j :: 0 <= i < |listing| && 0 <= j < |listing| && i != j ==> Key(listing, i) != Key(listing, j))
  }

  lemma KeyedAt(listing: seq<Entry>, i: nat, j: nat)
    requires WellKeyed(listing) && i < |listing| && j < |listing|
    ensures listing[i].id != ""
    ensures i != j ==> listing[i].id != listing[j].id
  {
    assert Key(listing, i) != "";
    if i != j {
      assert Key(listing, i) != Key(listing, j);
    }
  }

  /** In a well-keyed listing, row `i` is the first row with its id. */
  lemma PositionOfKeyed(listing: seq<Entry>, i: nat)
    requires WellKeyed(listing) && i < |listing|
    ensures PositionOf(listing, listing[i].id) == Some(i)
  {
    PositionOfFirst(listing, listing[i].id);
    match PositionOf(listing, listing[i].id)
    case None =>
    case Some(p) =>
      KeyedAt(listing, p, i);
  }

  /** A cursor naming row `i` makes the next page start at `i + 1`. */
  lemma CursorResumesAfter(listing: seq<Entry>, i: nat)
    requires WellKeyed(listing) && i < |listing|
    ensures PageStart(listing, Some(listing[i].id)) == i + 1
  {
    KeyedAt(listing, i, i);
    PositionOfKeyed(listing, i);
  }

  /** As written, the page after the one at `start` starts one row past its cursor. */
  lemma NextPage(listing: seq<Entry>, limit: nat, start: nat)
    requires WellKeyed(listing) && start <= |listing|
    requires PageAt(listing, limit, start).nextCursor.Some?
    ensures start + limit < |listing| && PageAt(listing, limit, start).nextCursor == Some(listing[start + limit].id)
    ensures PageStart(listing, PageAt(listing, limit, start).nextCursor) == start + limit + 1
  {
    assert |listing| - start > limit;
    assert PageAt(listing, limit, start).nextCursor == Some(listing[start + limit].id);
    CursorResumesAfter(listing, start + limit);
  }

  /** As intended, the page after the one at `start` starts right after it. */
  lemma NextPageFixed(listing: seq<Entry>, limit: nat, start: nat)
    requires WellKeyed(listing) && start <= |listing|
    requires PageAtFixed(listing, limit, start).nextCursor.Some?
    ensures 0 < limit && start + limit < |listing|
    ensures PageAtFixed(listing, limit, start).nextCursor == Some(listing[start + limit - 1].id)
    ensures PageStart(listing, PageAtFixed(listing, limit, start).nextCursor) == start + limit
  {
    assert |listing| - start > limit && limit > 0;
    assert PageAtFixed(listing, limit, start).nextCursor == Some(listing[start + limit - 1].id);
    CursorResumesAfter(listing, start + limit - 1);
  }

  /** As written, a full page's cursor names the first row it did not return, and
      the page fetched with that cursor is the page one row further on. */
  lemma SecondPage(listing: seq<Entry>, limit: nat, cursor: Option<string>)
    requires WellKeyed(listing)
    requires GetKnowledgeEntries(listing, limit, cursor).nextCursor.Some?
    ensures PageStart(listing, cursor) + limit < |listing|
    ensures GetKnowledgeEntries(listing, limit, cursor).nextCursor == Some(listing[PageStart(listing, cursor) + limit].id)
    ensures GetKnowledgeEntries(listing, limit, GetKnowledgeEntries(listing, limit, cursor).nextCursor).entries ==
            PageAt(listing, limit, PageStart(listing, cursor) + limit + 1).entries
  {
    NextPage(listing, limit, PageStart(listing, cursor));
  }

  /** As written, following `nextCursor` skips a row: the row at `start + limit`
      is on neither the page at `start` nor the page after it, which starts one row
      later. */
  lemma {:induction false} PagingSkipsARow(listing: seq<Entry>, limit: nat, start: nat)
    requires WellKeyed(listing) && start + limit < |listing|
    ensures listing[start + limit] !in PageAt(listing, limit, start).entries
    ensures var second := PageAt(listing, limit, start + limit + 1);
            && listing[start + limit] !in second.entries
            && start + limit + 1 + |second.entries| <= |listing|
            && second.entries == listing[start + limit + 1..start + limit + 1 + |second.entries|]
  {
    var skipped := start + limit;
    var m := |PageAt(listing, limit, skipped + 1).entries|;
    RowOutsideSlice(listing, skipped, start, skipped);
    RowOutsideSlice(listing, skipped, skipped + 1, skipped + 1 + m);
  }

  /** With distinct ids, a row is not found in a slice that does not span it. */
  lemma {:induction false} RowOutsideSlice(listing: seq<Entry>, i: nat, a: nat, b: nat)
    requires WellKeyed(listing)
    requires i < |listing| && a <= b <= |listing| && (i < a || b <= i)
    ensures listing[i] !in listing[a..b]
  {
    forall k | a <= k < b
      ensures listing[k] != listing[i]
    {
      KeyedAt(listing, k, i);
    }
  }

  /** Three rows, pages of one: the pages are `[a]` then `[c]`, and `b` is never
      shown. */
  lemma PagingSkipsExample(a: Entry, b: Entry, c: Entry)
    requires WellKeyed([a, b, c])
    ensures GetKnowledgeEntries([a, b, c], 1, None) == Page([a], Some(b.id))
    ensures GetKnowledgeEntries([a, b, c], 1, Some(b.id)).entries == [c]
  {
    var listing := [a, b, c];
    assert PageAt(listing, 1, 0).entries == [a];
    CursorResumesAfter(listing, 1);
    assert PageAt(listing, 1, 2).entries == [c];
  }

  /** As intended, a full page's cursor names its own last row, and the page
      fetched with that cursor is the page that starts right after it. */
  lemma SecondPageFixed(listing: seq<Entry>, limit: nat, cursor: Option<string>)
    requires WellKeyed(listing)
    requires GetKnowledgeEntriesFixed(listing, limit, cursor).nextCursor.Some?
    ensures 0 < limit && PageStart(listing, cursor) + limit < |listing|
    ensures GetKnowledgeEntriesFixed(listing, limit, cursor).nextCursor ==
            Some(listing[PageStart(listing, cursor) + limit - 1].id)
    ensures GetKnowledgeEntriesFixed(listing, limit, GetKnowledgeEntriesFixed(listing, limit, cursor).nextCursor).entries ==
            PageAtFixed(listing, limit, PageStart(listing, cursor) + limit).entries
  {
    NextPageFixed(listing, limit, PageStart(listing, cursor));
  }

  /** With the intended cursor, consecutive pages cover the listing without a gap:
      a full page at `start` is the `limit` rows there, and the page after it is
      the run of rows that starts where it ends. */
  lemma FixedPagingContiguous(listing: seq<Entry>, limit: nat, start: nat)
    requires 0 < limit && start + limit < |listing|
    ensures var first := PageAtFixed(listing, limit, start);
            && |first.entries| == limit
            && first.entries == listing[start..start + limit]
    ensures var second := PageAtFixed(listing, limit, start + limit);
            && start + limit + |second.entries| <= |listing|
            && second.entries == listing[start + limit..start + limit + |second.entries|]
  {
  }

  // ---------------------------------------------------------------------------
  // Update, delete, lookup, search.

  /** `updateKnowledgeEntry(id, data, userId)`: the row must have this id and
      exactly this owner; the supplied fields are written. The vector index is not
      touched. */
  method UpdateKnowledgeEntry(id: string, data: Patch, userId: string, now: int, db: EntryTable)
    returns (r: Result<Entry, StoreError>)
    requires db.Valid()
    modifies db
    ensures db.Valid() && db.issued == old(db.issued)
    ensures r.Err? <==> !(id in old(db.rows) && old(db.rows)[id].userId == userId)
    ensures r.Err? ==> db.rows == old(db.rows)
    ensures r.Ok? ==> r.value == Patched(old(db.rows)[id], data, now) && db.rows == old(db.rows)[id := r.value]
  {
    r := db.Update(id, Some(userId), data, now);
  }

  /** "Knowledge entry not found or access denied" */
  datatype DeleteError = NotFoundOrAccessDenied

  /** `deleteKnowledgeEntry(id, userId)`: a missing or foreign row is refused;
      otherwise the vector is removed first when the row has a truthy vector id
      (the vector store never makes this fail), then the row. */
  method DeleteKnowledgeEntry(id: string, userId: string, db: EntryTable,
                              chroma: ChromaDBService, init: Outcome, outcome: Outcome)
    returns (r: Result<(), DeleteError>)
    requires db.Valid()
    modifies db, chroma
    ensures db.Valid() && db.issued == old(db.issued)
    ensures r.Err? <==> !(id in old(db.rows) && old(db.rows)[id].userId == userId)
    ensures r.Err? ==> db.rows == old(db.rows) && chroma.State() == old(chroma.State())
    ensures r.Ok? ==> db.rows == old(db.rows) - {id} && id in db.issued
    ensures r.Ok? ==>
      var vid := old(db.rows)[id].chromaId;
      chroma.State() == if Truthy(vid) then Step(old(chroma.State()), DeleteCall(vid.value, init, outcome))
                        else old(chroma.State())
  {
    var entry := db.FindUnique(id, Some(userId));
    if entry.None? {
      return Err(NotFoundOrAccessDenied);
    }
    if Truthy(entry.value.chromaId) {
      chroma.DeleteEntry(entry.value.chromaId.value, init, outcome);
    }
    var deleted := db.Delete(id, Some(userId));
    return Ok(());
  }

  /** `getKnowledgeEntry(id, userId)`: the row with this id and exactly this owner,
      `null` otherwise. */
  function GetKnowledgeEntry(id: string, userId: string, db: EntryTable): (r: Option<Entry>)
    reads db
    ensures r.Some? <==> id in db.rows && db.rows[id].userId == userId
    ensures r.Some? ==> r.value == db.rows[id]
  {
    db.FindUnique(id, Some(userId))
  }

  /** `searchResults.map(result => result.entry)`. */
  function EntriesOf(results: seq<SearchResult>): (entries: seq<Entry>)
    ensures |entries| == |results| && forall i :: 0 <= i < |results| ==> entries[i] == results[i].entry
  {
    seq(|results|, i requires 0 <= i < |results| => results[i].entry)
  }

  /** Each entry the hybrid search returns is a stored row of the user (of any
      user when the id is empty). */
  lemma SearchOwned(s: ServiceState, init: Outcome, response: Option<QueryResponse>, lookupFault: Option<nat>,
                    rows: map<string, Entry>, userId: string, query: string, limit: int,
                    textTier: seq<Entry>, results: seq<SearchResult>)
    requires forall k :: k in rows ==> rows[k].id == k
    requires var vector := VectorTier(Attempted(SimilarHits(s, init, response), lookupFault), rows, ScopeOf(Some(userId)));
             && multiset(results) == multiset(vector + TextResults(textTier))
             && (limit - |vector| > 0 ==>
                   TextAnswer(rows, ScopeOf(Some(userId)), query, ResultIds(vector), limit - |vector|, textTier))
             && (limit - |vector| <= 0 ==> textTier == [])
    ensures var entries := EntriesOf(results);
            forall i :: 0 <= i < |entries| ==>
              entries[i].id in rows && rows[entries[i].id] == entries[i] && (userId != "" ==> entries[i].userId == userId)
  {
    var owner := ScopeOf(Some(userId));
    var hits := Attempted(SimilarHits(s, init, response), lookupFault);
    var vector := VectorTier(hits, rows, owner);
    ResultsOwned(hits, rows, owner, query, ResultIds(vector), limit - |vector|, textTier, results);
  }

  /** A backend that honours `nResults` keeps the hybrid search's answer within
      the limit. */
  lemma SearchBounded(s: ServiceState, init: Outcome, response: Option<QueryResponse>, lookupFault: Option<nat>,
                      rows: map<string, Entry>, owner: Option<string>, query: string, limit: nat,
                      textTier: seq<Entry>, results: seq<SearchResult>)
    requires response.Some? ==> HonoursLimit(response.value, (limit + 1) / 2)
    requires var vector := VectorTier(Attempted(SimilarHits(s, init, response), lookupFault), rows, owner);
             && multiset(results) == multiset(vector + TextResults(textTier))
             && (limit - |vector| > 0 ==> TextAnswer(rows, owner, query, ResultIds(vector), limit - |vector|, textTier))
             && (limit - |vector| <= 0 ==> textTier == [])
    ensures |EntriesOf(results)| <= limit
  {
    var vector := VectorTier(Attempted(SimilarHits(s, init, response), lookupFault), rows, owner);
    ResultCount(s, init, response, lookupFault, rows, owner, query, limit, textTier);
    assert |results| == |multiset(results)| == |vector| + |textTier|;
  }

  /** `searchKnowledgeEntries(query, userId)`: the hybrid search for 20 results,
      projected to entries. `results` and `textTier` are the hybrid search's answer
      and text tier, named only to state what the entries are. */
  method SearchKnowledgeEntries(query: string, userId: string, db: EntryTable, chroma: ChromaDBService,
                                init: Outcome, response: Option<QueryResponse>, lookupFault: Option<nat>)
    returns (entries: seq<Entry>, ghost results: seq<SearchResult>, ghost textTier: seq<Entry>)
    requires db.Valid()
    modifies chroma
    ensures chroma.State() == Step(old(chroma.State()), SearchCall(init, response))
    ensures entries == EntriesOf(results)
    ensures var vector := VectorTier(Attempted(SimilarHits(old(chroma.State()), init, response), lookupFault),
                                     db.rows, ScopeOf(Some(userId)));
            && multiset(results) == multiset(vector + TextResults(textTier))
            && (20 - |vector| > 0 ==>
                  TextAnswer(db.rows, ScopeOf(Some(userId)), query, ResultIds(vector), 20 - |vector|, textTier))
            && (20 - |vector| <= 0 ==> textTier == [])
    ensures Sorting.AdjacentSorted(results, Precedes)
    ensures !old(chroma.isAvailable) ==> results == TextResults(textTier)
    ensures forall i :: 0 <= i < |entries| ==>
      entries[i].id in db.rows && db.rows[entries[i].id] == entries[i] && (userId != "" ==> entries[i].userId == userId)
    ensures (response.Some? ==> HonoursLimit(response.value, 10)) ==> |entries| <= 20
  {
    ghost var before := chroma.State();
    var hybrid;
    hybrid, textTier := HybridSearch(query, 20, Some(userId), db, chroma, init, response, lookupFault);
    results := hybrid;
    SearchOwned(before, init, response, lookupFault, db.rows, userId, query, 20, textTier, results);
    if response.Some? ==> HonoursLimit(response.value, 10) {
      SearchBounded(before, init, response, lookupFault, db.rows, ScopeOf(Some(userId)), query, 20, textTier, results);
    }
    entries := EntriesOf(hybrid);
  }
}
