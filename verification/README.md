# KnowledgeVerse retrieval and synchronisation core in Dafny

This project models the core of a personal knowledge base in Dafny. Users store
entries (free text, YouTube links, X/Twitter posts) and find them again by meaning
and by text. The model covers:

- **The embedding-store client** (`ChromaDBService`, module `Chroma`). It is a class
  over a connection handle, an availability flag and the backend collection. Every
  call is total. A backend failure turns the flag off for good, and from then on
  no call reaches the backend. The transitions are a state machine (`Step`, `Run`),
  and the class's methods are proved against it.
- **The hybrid search** (`VectorSearchService`, module `VectorSearchService`).
  - Vector hits are asked for with a budget of `ceil(limit / 2)` and resolved
    against the entry store within the owner's scope.
  - A newest-first text query (`EntryStore.EntryTable.FindByText`) then fills the
    remaining slots and excludes the rows already found.
  - Finally an in-place sort (`Sorting.Sort`) ranks every vector result above every
    text result.
- **The owner-scoped entry actions of the relational path** (module
  `KnowledgeActions`):
  - create: the row first, then best-effort indexing;
  - cursor paging;
  - update, delete, lookup and search.
- **The older document-store path** (module `FirestoreActions`):
  - the `title + "\n\n" + text` composition;
  - the create and update protocol with re-ingestion;
  - deletion;
  - the search that reorders documents by their position in the vector hit list.
- **Both `extractContent` variants:**
  - the library one (module `ContentExtraction`), with its YouTube, X and plain-text
    branches;
  - the flow one (module `ExtractionFlow`), whose X branch is a fixed placeholder.

Backend behaviour is always an input of the model:

- whether the collection connects, and whether each request throws (`Chroma.Outcome`);
- the query answer (`Chroma.QueryResponse`, `None` when the query throws);
- which entry lookup throws (`lookupFault`);
- the transcript and oEmbed answers (`ContentExtraction.Fetched`);
- the clock (`now`).

The stores are maps from id to record. `createdAt` is an integer. Prisma's
`contains` is a case-sensitive substring test (`Base.Contains`). Tags are the fixed
vocabulary of `src/lib/types.ts`. The relational store keeps them as
`JSON.stringify(tags)`, and `Base.TagsRoundTrip` proves that this text parses back
to the same list.

Some behaviours of the code are worth stating on their own:

- **Paging cursor.** `nextCursor` is the id of the first row not returned, and the
  next page starts after that row, so one row is skipped at each page boundary
  (see Findings).
- **Updating an entry.** `updateKnowledgeEntry` never re-indexes the entry in the
  embedding store.
- **Vector id on create.** `addEntry` answers its input id on every path, including
  when the store is unavailable or the add fails. When the row update that records
  it succeeds, the row's vector id is therefore its own id, so a row can name a
  vector that was never stored. When that update throws, the error is caught and
  the vector id stays unset.

## Model

| member | source | states |
|---|---|---|
| Base.Ellipsize | src/lib/content-extraction.ts:132 | at most `n` characters are kept, and `...` is appended exactly when the string is longer than `n` |
| Base.TagsJson | src/lib/knowledge-actions.ts:45 | the stored tag text is a JSON array, bracketed |
| Base.ItemsRoundTrip | src/lib/knowledge-actions.ts:45 | a non-empty comma-separated list of quoted tags parses back to the same tags, in the same order and with repeats |
| Base.TagsRoundTrip | src/lib/knowledge-actions.ts:74-77 | `JSON.parse(JSON.stringify(tags))` gives back exactly `tags`; the omitted list comes back as `[]` |
| Sorting.Sort | src/lib/vector-search.ts:79-84 | in-place sort: the result is a permutation in which every neighbouring pair is in the comparator's order, and an input already in order is left as it is |
| Sorting.AdjacentSortedIsSorted | src/lib/firestore-actions.ts:161-167 | for a transitive order (the hit-index order), neighbour order implies that every pair is in order |
| Chroma.ZipHits | src/lib/chromadb.ts:128-138 | one hit per id of the first id list, taking document, metadata and distance from the same index; no hits for an empty id list; a failed read of the first document or metadata list is a failure |
| Chroma.Step | src/lib/chromadb.ts:33-143 | a call on an unavailable service changes nothing; a call never makes the service available again; the collection changes only when the call reaches a backend that answers |
| Chroma.DegradedIsSticky | src/lib/chromadb.ts:34-37 | once unavailable, no sequence of calls changes anything, and none reconnects |
| Chroma.AvailableAfterRun | src/lib/chromadb.ts:54-58 | a service still available after a run of calls was available before it, and every call in the run was answered |
| Chroma.SimilarHits | src/lib/chromadb.ts:113-144 | `[]` when unavailable; a non-empty answer means the query reached the backend and its answer zipped to exactly those hits |
| Chroma.ChromaDBService.constructor | src/lib/chromadb.ts:15-16 | starts with no collection and available |
| Chroma.ChromaDBService.Initialize | src/lib/chromadb.ts:18-31 | success connects and sets available; failure sets unavailable; it never throws |
| Chroma.ChromaDBService.Guard | src/lib/chromadb.ts:34-45 | gives up at once when unavailable, leaving everything unchanged; connects lazily only when no collection is held; proceeds exactly when the service is still available afterwards |
| Chroma.ChromaDBService.AddEntry | src/lib/chromadb.ts:33-59 | returns its input id on every path; the new state is the `Step` of an add call |
| Chroma.ChromaDBService.UpdateEntry | src/lib/chromadb.ts:61-86 | the new state is the `Step` of an update call (a failure is absorbed and turns the flag off) |
| Chroma.ChromaDBService.DeleteEntry | src/lib/chromadb.ts:88-111 | the new state is the `Step` of a delete call |
| Chroma.ChromaDBService.SearchSimilar | src/lib/chromadb.ts:113-144 | answers `SimilarHits` of the old state, and the new state is the `Step` of a search call |
| EntryStore.ScopeOf | src/lib/vector-search.ts:28 | the owner condition is present exactly for a truthy user id, and then it is that id |
| EntryStore.EntryTable.Create | src/lib/knowledge-actions.ts:39-48 | a row under an id never handed out before, with the supplied columns, no vector id and both timestamps `now`; no other row changes |
| EntryStore.EntryTable.Update | src/lib/knowledge-actions.ts:125-131 | fails exactly when no row has this id within the owner scope, and then changes nothing; otherwise writes the patched row and nothing else |
| EntryStore.EntryTable.Delete | src/lib/knowledge-actions.ts:163-168 | fails exactly when no row has this id within the owner scope; otherwise removes that row and nothing else |
| EntryStore.EntryTable.FindByText | src/lib/vector-search.ts:50-65 | a correct answer of the text query: stored rows in scope that match the title, the text or the tags' JSON and are not excluded; each at most once; newest first; `min(take, candidates)` of them; no candidate left out is newer than one taken |
| EntryStore.SelectionDone | src/lib/vector-search.ts:63-64 | the newest-first selection loop, when it stops, has produced a correct answer of the query |
| VectorSearchService.Similarity | src/lib/vector-search.ts:38 | no similarity exactly when the distance is missing or zero; otherwise similarity plus distance is 1 |
| VectorSearchService.VectorTier | src/lib/vector-search.ts:24-42 | the vector tier never holds more results than there were hits |
| VectorSearchService.VectorTierSound | src/lib/vector-search.ts:25-40 | every vector result is the row a hit resolves to: stored, in scope, with that hit's similarity |
| VectorSearchService.VectorTierComplete | src/lib/vector-search.ts:32-41 | a hit that resolves is never dropped; a hit whose row is missing or out of scope is skipped without error |
| VectorSearchService.VectorTierDistinct | src/lib/vector-search.ts:24-42 | distinct hit ids resolve to distinct rows |
| VectorSearchService.TextResults | src/lib/vector-search.ts:67-75 | one text-sourced result per text row, in order, with no similarity |
| VectorSearchService.PrecedesTotal | src/lib/vector-search.ts:79-84 | the comparator relates every pair one way or the other, as the sort requires |
| VectorSearchService.VectorTierFirst | src/lib/vector-search.ts:80-81 | in any order the sort leaves, every vector result stands before every text result |
| VectorSearchService.TextTierInOrder | src/lib/vector-search.ts:64 | text rows that are newest first are already in the comparator's order |
| VectorSearchService.HybridDistinct | src/lib/vector-search.ts:58-61 | the text tier excludes the vector tier's ids, so no row appears twice in the merged list |
| VectorSearchService.ResultCount | src/lib/vector-search.ts:22 | with a backend honouring `nResults`, the vector tier holds at most `ceil(limit / 2)` results and both tiers together at most `limit` |
| VectorSearchService.ResultsOwned | src/lib/vector-search.ts:25-30 | every result of the merged tiers, in any order, is a stored row within the owner scope |
| VectorSearchService.HybridSearch | src/lib/vector-search.ts:13-85 | the results are a permutation of the vector tier of the attempted hits followed by a correct text-query answer for the remaining slots (none when no slot remains); they are in the comparator's order; with the embedding store down, the text answer comes back in its own order; the client's state takes one search step |
| VectorSearchService.CompleteSearch | src/lib/vector-search.ts:47-84 | the text phase and the sort given a vector tier: the same permutation, answer and order facts, and with no vector results the text results are returned as they are |
| VectorSearchService.FillWithText | src/lib/vector-search.ts:47-76 | the vector tier followed by a correct text answer for `limit - |vector|` slots, or the vector tier alone when none remain |
| VectorSearchService.ResolveHits | src/lib/vector-search.ts:20-45 | the loop builds the vector tier of the hits before the first lookup that throws; the results found before it are kept |
| VectorSearchService.AppendText | src/lib/vector-search.ts:67-75 | the text rows are appended after the accumulated results, in order |
| VectorSearchService.SortResults | src/lib/vector-search.ts:79-84 | a permutation in the comparator's order; an input already in that order is returned unchanged |
| VectorSearchService.VectorSearch | src/lib/vector-search.ts:87-117 | the vector tier of all hits, or `[]` when any lookup throws; the client's state takes one search step |
| KnowledgeActions.ExtractionNeverPlain | src/lib/knowledge-actions.ts:19-26 | the sources extraction is attempted for are exactly those it classifies as YouTube or X, so extraction never yields a plain-text entry |
| KnowledgeActions.Finalize | src/lib/knowledge-actions.ts:16-37 | title, text and type come from extraction exactly when it is attempted; source, tags and owner are always the caller's |
| KnowledgeActions.CreateKnowledgeEntry | src/lib/knowledge-actions.ts:8-78 | a new row under a fresh id with the final data, `''` for a missing source and `[]` for missing tags; the row's vector id is its own id when the vector-id update succeeds, whatever the embedding store does, and stays unset when that update throws; the store takes one add step; the entry returned is the row as created, with tags read back |
| KnowledgeActions.InsertAndIndex | src/lib/knowledge-actions.ts:39-77 | create, then add to the embedding store, then store the vector id, a failure of that last write being caught: the same facts for given final data |
| KnowledgeActions.PositionOf | src/lib/knowledge-actions.ts:89 | a position found holds a row with the cursor's id |
| KnowledgeActions.PositionOfFirst | src/lib/knowledge-actions.ts:89 | it is the first such row, and when none is found no row has that id |
| KnowledgeActions.PageStart | src/lib/knowledge-actions.ts:87-91 | a page starts at the top without a truthy cursor; otherwise just after the cursor row (`skip: 1`), or past the end when the cursor names no row |
| KnowledgeActions.FetchFrom | src/lib/knowledge-actions.ts:86-92 | `take` consecutive rows from the start, or all that remain |
| KnowledgeActions.Paginate | src/lib/knowledge-actions.ts:95-97 | `hasMore` holds exactly when more than `limit` rows came back; the page is the first `limit` rows; the next cursor is the id of the extra row |
| KnowledgeActions.GetKnowledgeEntries | src/lib/knowledge-actions.ts:80-106 | the page of `limit` rows that starts where the cursor says, and the id of the row after them when more remain |
| KnowledgeActions.CursorResumesAfter | src/lib/knowledge-actions.ts:88-91 | with distinct ids, a cursor naming row `i` makes the next page start at `i + 1` |
| KnowledgeActions.NextPage | src/lib/knowledge-actions.ts:87-97 | as written, a cursor is handed out only when a row follows the page; it names that row, and the next page starts one row past it |
| KnowledgeActions.SecondPage | src/lib/knowledge-actions.ts:87-97 | as written, following a page's cursor gives the page that starts at `start + limit + 1` |
| KnowledgeActions.PagingSkipsARow | src/lib/knowledge-actions.ts:95-97 | as written, the row at `start + limit` is on neither the page at `start` nor the page after it |
| KnowledgeActions.RowOutsideSlice | src/lib/knowledge-actions.ts:96 | with distinct ids, a row is not found in a run of rows that does not span it |
| KnowledgeActions.PagingSkipsExample | src/lib/knowledge-actions.ts:87-97 | three rows in pages of one come out as `[a]` and then `[c]`; `b` is never shown |
| KnowledgeActions.PaginateFixed | src/lib/knowledge-actions.ts:95-97 | corrected: the page is the first `limit` rows, and the cursor names its own last row |
| KnowledgeActions.GetKnowledgeEntriesFixed | src/lib/knowledge-actions.ts:80-106 | corrected: the page at the cursor, with the cursor naming the page's last row |
| KnowledgeActions.NextPageFixed | src/lib/knowledge-actions.ts:87-97 | corrected: the next page starts right after the last row returned |
| KnowledgeActions.SecondPageFixed | src/lib/knowledge-actions.ts:87-97 | corrected: following a page's cursor gives the page that starts at `start + limit`, with no row skipped |
| KnowledgeActions.FixedPagingContiguous | src/lib/knowledge-actions.ts:95-97 | corrected: a full page is the `limit` rows at its start, and the page after it is the run of rows that begins where it ends |
| KnowledgeActions.UpdateKnowledgeEntry | src/lib/knowledge-actions.ts:108-137 | fails exactly when no row has this id and this owner, and then changes nothing; otherwise writes exactly the supplied fields and touches no other row |
| KnowledgeActions.DeleteKnowledgeEntry | src/lib/knowledge-actions.ts:139-169 | one "not found or access denied" error for a missing or foreign row, with nothing changed; otherwise the vector is removed first when the vector id is truthy (a failure there is absorbed), then the row |
| KnowledgeActions.GetKnowledgeEntry | src/lib/knowledge-actions.ts:171-185 | the row with this id and this owner, and null exactly when there is none |
| KnowledgeActions.EntriesOf | src/lib/knowledge-actions.ts:190 | the entries of the results, one for one, in order |
| KnowledgeActions.SearchOwned | src/lib/knowledge-actions.ts:187-191 | every entry returned is a stored row of the user (of any user when the id is empty) |
| KnowledgeActions.SearchBounded | src/lib/knowledge-actions.ts:189 | with a backend honouring `nResults`, the search returns at most `limit` entries |
| KnowledgeActions.SearchKnowledgeEntries | src/lib/knowledge-actions.ts:187-191 | the entries of the hybrid search's results for limit 20 in the user's scope: the same results as the vector tier plus the newest-first text answer for the remaining slots, vector results ranked first; only the text tier when the client was already degraded; stored rows of the user only; at most 20 of them when the backend answers at most 10 hits; the client takes one search step |
| ContentExtraction.FirstMatch | src/lib/content-extraction.ts:36 | the leftmost position at which the pattern matches, or none when it matches nowhere |
| ContentExtraction.IdAt | src/lib/content-extraction.ts:36 | a match is eleven id characters of the URL at that position |
| ContentExtraction.VideoId | src/lib/content-extraction.ts:36-37 | the video id is the leftmost match of the id pattern: eleven characters from `[a-zA-Z0-9_-]` |
| ContentExtraction.RunUntil | src/lib/content-extraction.ts:72 | the greedy run of characters other than the stop character (`/` in the tweet path, `<` in the HTML fragments), ending at that character or at the end |
| ContentExtraction.DigitsEnd | src/lib/content-extraction.ts:72 | the greedy run of digits |
| ContentExtraction.TweetPathAt | src/lib/content-extraction.ts:72 | a match gives a non-empty user name without `/` and a non-empty run of digits |
| ContentExtraction.TweetPath | src/lib/content-extraction.ts:72-74 | the leftmost match of the tweet-path pattern, or none when it matches nowhere |
| ContentExtraction.TagTexts | src/lib/content-extraction.ts:95-98 | each fragment is non-empty text between a `>` and the next `<` |
| ContentExtraction.TrimStart | src/lib/content-extraction.ts:98 | only white space is removed from the front, and all of it |
| ContentExtraction.TrimEnd | src/lib/content-extraction.ts:98 | only white space is removed from the end, and all of it |
| ContentExtraction.Trim | src/lib/content-extraction.ts:98 | no white space remains at either end, and a string with none there is unchanged |
| ContentExtraction.TrimAll | src/lib/content-extraction.ts:98 | every fragment is trimmed, in order |
| ContentExtraction.KeepFragments | src/lib/content-extraction.ts:99 | exactly the fragments longer than 10 and free of `twitter.com` are kept |
| ContentExtraction.PicFilterRedundant | src/lib/content-extraction.ts:99 | the `pic.twitter.com` test never removes a fragment that the `twitter.com` test keeps |
| ContentExtraction.VideoTitle | src/lib/content-extraction.ts:27-33 | a truthy oEmbed title from an ok response, otherwise the fallback |
| ContentExtraction.YouTubeContent | src/lib/content-extraction.ts:17-66 | always YOUTUBE_LINK with a non-empty title; a failed transcript gives the fixed message ending in `URL: ` + url; an oEmbed exception after a transcript gives `YouTube Video: ` + the video id, or `unknown` |
| ContentExtraction.Handle | src/lib/content-extraction.ts:73 | the user name of the tweet path, or `unknown` |
| ContentExtraction.StatusId | src/lib/content-extraction.ts:74 | the digits of the tweet path, or `unknown` |
| ContentExtraction.XBody | src/lib/content-extraction.ts:78 | a post text longer than 20 is used, cut to 500 characters plus `...`; otherwise the fixed description naming the handle and id |
| ContentExtraction.XTitle | src/lib/content-extraction.ts:77 | the title always starts `X Post by @` |
| ContentExtraction.AuthorNameWins | src/lib/content-extraction.ts:109-111 | a truthy author name overrides the title |
| ContentExtraction.PostTextTitle | src/lib/content-extraction.ts:104 | with no author name, a post text longer than 20 follows the handle, cut to 50 characters |
| ContentExtraction.HandleTitle | src/lib/content-extraction.ts:77 | otherwise the title names the handle alone |
| ContentExtraction.XContent | src/lib/content-extraction.ts:67-128 | always X_POST_LINK; the title starts `X Post by @`; the text is the body followed by ` URL: ` + url |
| ContentExtraction.TextContent | src/lib/content-extraction.ts:129-135 | TEXT; the text is the input; the title is the input cut to 50 characters plus `...` exactly when it is longer |
| ContentExtraction.ExtractContent | src/lib/content-extraction.ts:13-137 | YouTube is tested before X; each branch gives its content type; the title is empty only for an empty input |
| ExtractionFlow.ExtractContentFlow | src/ai/flows/content-extraction.ts:37-106 | off the X branch the same answer as the library variant; an X post gets the placeholder title and the placeholder sentence followed by the URL as text; other input is TEXT with the input as text |
| ExtractionFlow.VariantsDifferOnX | src/ai/flows/content-extraction.ts:91-97 | on the X branch the two titles always differ, and both are X_POST_LINK |
| ExtractionFlow.NotPlaceholder | src/ai/flows/content-extraction.ts:94 | no `X Post by @` title is the placeholder title |
| FirestoreActions.IngestId | src/ai/flows/chromadb-ingestion.ts:41-42 | the ingestion answer is `chroma-` followed by the document id |
| FirestoreActions.IngestIdInjective | src/ai/flows/chromadb-ingestion.ts:41 | distinct documents get distinct vector ids |
| FirestoreActions.Extract | src/lib/firestore-actions.ts:41-54 | a source starting with `http` goes through the extraction flow; any other source is TEXT with itself as text and a 50-character title |
| FirestoreActions.Headed | src/lib/firestore-actions.ts:57 | the title, a blank line, then the text |
| FirestoreActions.Window | src/lib/firestore-actions.ts:142 | at most the first 30 hits |
| FirestoreActions.IndexOf | src/lib/firestore-actions.ts:162-163 | the first position of the vector id |
| FirestoreActions.Rank | src/lib/firestore-actions.ts:162-166 | a document's position in the hit list, and after every hit when its vector id is empty or not a hit |
| FirestoreActions.FirestoreDb.UpdateDoc | src/lib/firestore-actions.ts:75 | fails exactly on a missing document, and then changes nothing; otherwise writes just the given fields |
| FirestoreActions.FirestoreDb.Ingest | src/lib/firestore-actions.ts:79-85 | records the request and answers `IngestId` of its document |
| FirestoreActions.FirestoreDb.AddOrUpdateEntry | src/lib/firestore-actions.ts:37-120 | update: fails on a missing document; otherwise writes tags and `updatedAt`, overrides the text only for an edited text, always re-ingests (with the override if set) and stores the answer; create: a fresh document with the composed text, ingested under its new id, with that vector id stored |
| FirestoreActions.FirestoreDb.UpdateFromInput | src/lib/firestore-actions.ts:62-86 | the update protocol given the extraction result |
| FirestoreActions.FirestoreDb.CreateFromInput | src/lib/firestore-actions.ts:87-114 | the create protocol given the extraction result |
| FirestoreActions.FirestoreDb.DeleteEntry | src/lib/firestore-actions.ts:122-130 | the document is removed (a missing one is no error), then the vector id is passed on exactly when it is truthy |
| FirestoreActions.FirestoreDb.QueryByChromaId | src/lib/firestore-actions.ts:140-144 | every document of the user whose vector id is in the window, each once |
| FirestoreActions.FirestoreDb.MatchingIdsUnique | src/lib/firestore-actions.ts:140-142 | within one user's collection a document id determines the document |
| FirestoreActions.FirestoreDb.SearchEntries | src/lib/firestore-actions.ts:132-175 | a failure is the single search error; no hits gives `[]`; otherwise exactly the user's documents matching the first 30 hits, each once, ordered by position in the hit list with the unmatched last |
| FirestoreActions.PermutationKeeps | src/lib/firestore-actions.ts:161-167 | sorting keeps the same documents and their distinct ids |

## Left out

- Real I/O is out of scope: Prisma, Firestore, the embedding backend, transcript and oEmbed fetches. The embedding backend's, the fetches' and the entry lookups' answers and failures are parameters, as listed above.
- Writes to Prisma and Firestore are assumed to succeed, with one exception: the vector-id update inside `createKnowledgeEntry` (src/lib/knowledge-actions.ts:65-68), whose failure that function catches (parameter `link`). Any other failed write would reject the action's promise; that path is not modelled. Missing rows and ownership failures are modelled.
- Logging, `async` interleaving and the benign race on the availability flag are not modelled.
- The embeddings themselves are not modelled. Distances and similarities are exact reals, not floating point.
- Each embedding-store request is modelled as a plain succeed-or-throw outcome. Any behaviour richer than that is not modelled.
- The video-id and tweet-path regular expressions are written out as leftmost-match scanners. There is no general regular-expression engine.
- Tags are the fixed `Tag` vocabulary of `src/lib/types.ts`. `createKnowledgeEntry` accepts any `string[]` (src/lib/knowledge-actions.ts:13). Strings outside the vocabulary, and their JSON escaping, are not modelled.
- Titles compare by character, and the same holds for the length cuts. Strings are sequences of Unicode scalar values, so UTF-16 code units are not modelled.
- Because of that, `encodeURIComponent` cannot throw. The library's X branch therefore never reaches its outer `catch` (src/lib/content-extraction.ts:122-128), and `extractContent` never throws. As a result, the "keep the caller's data on extraction failure" path of `createKnowledgeEntry` (src/lib/knowledge-actions.ts:33-36) is unreachable in the model.
- A JSON answer of an unexpected shape is not modelled. An oEmbed `title`, `html` or `author_name` is either a string or absent.
- Ties in `createdAt` are not fixed to any order. Prisma may order tied rows either way, so `FindByText` picks among them arbitrarily and its contract allows any order.
- `hybridSearch`'s comparator (src/lib/vector-search.ts:79-84) is not transitive among vector results when one of them lacks a similarity, so the order ECMAScript's `sort` gives is implementation-defined. The model's guarantee is that of its insertion sort: every neighbouring pair is in the comparator's order (`Sorting.AdjacentSorted`). V8 sorts arrays this short (at most 20 results) by binary insertion, which compares each inserted element with both of its new neighbours, so with this antisymmetric comparator it gives the same neighbour guarantee, though not necessarily the same order.
- `searchEntries`' comparator answers 1 both ways for two unmatched documents, so it is inconsistent for them. The model ranks all unmatched documents equally and leaves their relative order to the sort.
- `limit` is an integer. Fractional and non-numeric limits are not modelled. In paging, `limit` is a natural number.
- The paging functions take the user's rows as the store lists them, newest first, as the `listing` argument.
- KnowledgeActions.PageStart: the cursor is assumed to name a row of the same user's listing, or none. A cursor naming another user's row gives an empty page here. Prisma would instead locate that row over the whole table, and start the page after the user's rows at its `createdAt`, minus one skipped row.
- KnowledgeActions.GetKnowledgeEntries: inherits the same assumption on the cursor from `PageStart`, so for a cursor naming another user's row it answers an empty page where Prisma would answer older rows of the user.
- `updateKnowledgeEntry` accepts a `chromaId` field. It is written like any other field, and the row's `createdAt` is never touched.
- The ingestion and deletion flows are stubs. Only their observable rule is modelled: the `chroma-` id and the record of the request.
- The MCP server and the HTTP routes that call these actions are not part of this model. Nor is the client-side vector-search flow, with its cosine similarity over a fixed corpus.
- XTitle: its own contract states only the `X Post by @` prefix. The three title rules are stated by `AuthorNameWins`, `PostTextTitle` and `HandleTitle`.
- VectorSearchService.VectorTier: its own contract states only the size bound. Its meaning is stated by `VectorTierSound`, `VectorTierComplete` and `VectorTierDistinct`.

## Findings

| source | as written | input that shows it | evidently intended | confidence | as-written member | corrected member |
|---|---|---|---|---|---|---|
| src/lib/knowledge-actions.ts:87-97 | `nextCursor` is the id of the extra row, the first one not returned, and the next query skips the cursor row (`skip: 1`), so that row is never shown | rows `[a, b, c]` newest first, `limit = 1`: the first page is `[a]` with cursor `b.id`, the second page is `[c]`, and `b` appears on no page | the cursor names the last row returned, so `skip: 1` resumes right after it and consecutive pages cover the listing without a gap | not executed | KnowledgeActions.PagingSkipsARow, KnowledgeActions.SecondPage, KnowledgeActions.PagingSkipsExample | KnowledgeActions.GetKnowledgeEntriesFixed, KnowledgeActions.SecondPageFixed, KnowledgeActions.FixedPagingContiguous |
