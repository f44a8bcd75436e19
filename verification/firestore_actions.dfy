/** The document-store write and search path: entries live in the per-user
    collections `users/{userId}/knowledge_entries`; each write goes through the
    extraction flow and the ingestion flow, which answers `"chroma-" + documentId`;
    search reorders the matching documents by their position in the vector hit list. */
module FirestoreActions {
  import opened Base
  import opened ContentExtraction
  import opened ExtractionFlow
  import Sorting

  /** The path of a document: its user's collection and its id there. */
  datatype DocKey = DocKey(userId: string, docId: string)

  /** One stored document; `id` is the document id, kept with the data. */
  datatype Doc = Doc(
    id: string,
    userId: string,
    title: string,
    contentType: ContentType,
    originalSource: string,
    textForEmbedding: string,
    tags: seq<Tag>,
    chromaId: string,
    createdAt: int,
    updatedAt: int)

  /** `AddOrUpdateEntryInput`; `textForEmbedding` is an edited transcript, if any. */
  datatype EntryInput = EntryInput(
    entryId: Option<string>,
    userId: string,
    originalSource: string,
    tags: seq<Tag>,
    textForEmbedding: Option<string>)

  /** One request made of the ingestion flow. */
  datatype Ingestion = Ingestion(documentId: string, contentType: ContentType, originalSource: string, textForEmbedding: string)

  /** `updateDoc` on a document that does not exist throws. */
  datatype WriteError = DocNotFound

  /** `new Error("Search operation failed.")` */
  datatype SearchError = SearchFailed

  /** The vector id the ingestion flow answers for a document. */
  function IngestId(documentId: string): (id: string)
    ensures StartsWith(id, "chroma-") && id[|"chroma-"|..] == documentId
  {
    var id := "chroma-" + documentId;
    assert id[..|"chroma-"|] == "chroma-";
    id
  }

  /** Distinct documents get distinct vector ids. */
  lemma IngestIdInjective(a: string, b: string)
    ensures IngestId(a) == IngestId(b) ==> a == b
  {
  }

  predicate IsUrl(source: string) {
    StartsWith(source, "http")
  }

  /** Title, text and type of a source: the extraction flow for a URL, the
      plain-text rule otherwise. */
  function Extract(source: string, f: Fetched): (x: Extracted)
    ensures IsUrl(source) ==> x == ExtractContentFlow(source, f)
    ensures !IsUrl(source) ==> x.contentType == Text && x.textForEmbedding == source
    ensures !IsUrl(source) && |source| <= 50 ==> x.title == source
    ensures !IsUrl(source) && |source| > 50 ==> |x.title| == 53 && x.title[..50] == source[..50] && x.title[50..] == "..."
  {
    if IsUrl(source) then ExtractContentFlow(source, f) else TextContent(source)
  }

  /** `${title}\n\n${text}`: the title always heads the searchable text. */
  function Headed(title: string, text: string): (s: string)
    ensures |s| == |title| + 2 + |text|
    ensures StartsWith(s, title) && s[|title|..|title| + 2] == "\n\n" && s[|title| + 2..] == text
  {
    var s := title + "\n\n" + text;
    assert s[..|title|] == title;
    s
  }

  /** The update carries an edited text: truthy and other than the source. */
  predicate EditedText(input: EntryInput) {
    Truthy(input.textForEmbedding) && input.textForEmbedding.value != input.originalSource
  }

  /** `vectorHits.slice(0, 30)`: an `in` query takes at most 30 values. */
  function Window(hits: seq<string>): (w: seq<string>)
    ensures |w| <= 30 && |w| <= |hits| && w == hits[..|w|]
    ensures |hits| <= 30 ==> w == hits
  {
    if |hits| <= 30 then hits else hits[..30]
  }

  /** `s.indexOf(x)` for an `x` that occurs. */
  function IndexOf(s: seq<string>, x: string): (i: nat)
    requires x in s
    ensures i < |s| && s[i] == x && x !in s[..i]
  {
    if s[0] == x then 0
    else
      assert x in s[1..];
      var i := IndexOf(s[1..], x);
      assert s[..i + 1] == [s[0]] + s[1..][..i];
      i + 1
  }

  /** Position of a document's vector id in the hit list; a document whose vector
      id is empty or not a hit ranks after every hit. */
  function Rank(hits: seq<string>, d: Doc): (r: nat)
    ensures r <= |hits|
    ensures r < |hits| <==> d.chromaId != "" && d.chromaId in hits
    ensures r < |hits| ==> hits[r] == d.chromaId && d.chromaId !in hits[..r]
  {
    if d.chromaId != "" && d.chromaId in hits then IndexOf(hits, d.chromaId) else |hits|
  }

  /** The documents of `userId` whose vector id is one of `window`. */
  function Matching(docs: map<DocKey, Doc>, userId: string, window: seq<string>): set<Doc> {
    set k | k in docs && k.userId == userId && docs[k].chromaId in window :: docs[k]
  }

  function DocIds(ds: seq<Doc>): set<string> {
    set i | 0 <= i < |ds| :: ds[i].id
  }

  lemma DocIdsAppend(ds: seq<Doc>, d: Doc)
    ensures DocIds(ds + [d]) == DocIds(ds) + {d.id}
  {
    var e := ds + [d];
    forall x | x in DocIds(e)
      ensures x in DocIds(ds) + {d.id}
    {
      var i :| 0 <= i < |e| && e[i].id == x;
      if i < |ds| {
        assert ds[i] == e[i];
      }
    }
    forall x | x in DocIds(ds)
      ensures x in DocIds(e)
    {
      var i :| 0 <= i < |ds| && ds[i].id == x;
      assert e[i] == ds[i];
    }
    assert e[|ds|] == d;
  }

  predicate DistinctDocIds(ds: seq<Doc>) {
    forall i, j :: 0 <= i < j < |ds| ==> ds[i].id != ds[j].id
  }

  /** No two documents of `m` share an id. */
  ghost predicate UniqueIds(m: set<Doc>) {
    forall x, y :: x in m && y in m && x.id == y.id ==> x == y
  }

  /** The state of listing the documents of `all`: `snapshot` holds those listed,
      once each, and `pool` those still to come. */
  ghost predicate Enumerating(all: set<Doc>, pool: set<Doc>, snapshot: seq<Doc>) {
    && (set d | d in snapshot) + pool == all
    && (forall d :: d in pool ==> d.id !in DocIds(snapshot))
    && DistinctDocIds(snapshot)
  }

  lemma EnumerateOne(all: set<Doc>, pool: set<Doc>, snapshot: seq<Doc>, d: Doc)
    requires UniqueIds(all) && Enumerating(all, pool, snapshot) && d in pool
    ensures Enumerating(all, pool - {d}, snapshot + [d])
  {
    DocIdsAppend(snapshot, d);
    var next := snapshot + [d];
    assert (set e | e in next) == (set e | e in snapshot) + {d};
    forall i, j | 0 <= i < j < |next|
      ensures next[i].id != next[j].id
    {
      if j == |snapshot| {
        assert next[i] == snapshot[i];
      }
    }
  }

  class FirestoreDb {
    var docs: map<DocKey, Doc>
    /** Every document id handed out. */
    var issued: set<string>
    /** The requests made of the ingestion flow, in order. */
    var ingests: seq<Ingestion>
    /** The vector ids passed to the deletion flow, in order. */
    var vectorDeletes: seq<string>

    ghost predicate Valid()
      reads this
    {
      forall k :: k in docs ==> docs[k].id == k.docId && k.docId in issued
    }

    constructor ()
      ensures Valid() && docs == map[] && issued == {} && ingests == [] && vectorDeletes == []
    {
      docs := map[];
      issued := {};
      ingests := [];
      vectorDeletes := [];
    }

    /** `updateDoc(ref, fields)`: throws when the document does not exist. */
    method UpdateDoc(key: DocKey, tags: Option<seq<Tag>>, updatedAt: Option<int>,
                     text: Option<string>, chromaId: Option<string>)
      returns (r: Result<(), WriteError>)
      requires Valid()
      modifies this
      ensures Valid() && issued == old(issued) && ingests == old(ingests) && vectorDeletes == old(vectorDeletes)
      ensures r.Err? <==> key !in old(docs)
      ensures r.Err? ==> docs == old(docs)
      ensures r.Ok? ==>
        var d := old(docs)[key];
        docs == old(docs)[key := d.(tags := tags.GetOr(d.tags), updatedAt := updatedAt.GetOr(d.updatedAt),
                                    textForEmbedding := text.GetOr(d.textForEmbedding),
                                    chromaId := chromaId.GetOr(d.chromaId))]
    {
      if key !in docs {
        return Err(DocNotFound);
      }
      var d := docs[key];
      docs := docs[key := d.(tags := tags.GetOr(d.tags), updatedAt := updatedAt.GetOr(d.updatedAt),
                             textForEmbedding := text.GetOr(d.textForEmbedding),
                             chromaId := chromaId.GetOr(d.chromaId))];
      return Ok(());
    }

    /** `ingestKnowledge(request)`: recorded, and answered with `IngestId`. */
    method Ingest(request: Ingestion) returns (chromaId: string)
      modifies this
      ensures chromaId == IngestId(request.documentId)
      ensures ingests == old(ingests) + [request]
      ensures docs == old(docs) && issued == old(issued) && vectorDeletes == old(vectorDeletes)
    {
      ingests := ingests + [request];
      return IngestId(request.documentId);
    }

    /** `addOrUpdateEntry(input)`. An update patches tags, `updatedAt` and an edited
        text, then re-ingests and stores the new vector id; a create adds the
        document with an empty vector id, ingests it under its new id and stores
        the answer. `f` is what the extraction flow meets on the network, `now`
        the server timestamp. */
    method AddOrUpdateEntry(input: EntryInput, f: Fetched, now: int) returns (r: Result<string, WriteError>)
      requires Valid()
      modifies this
      ensures Valid() && vectorDeletes == old(vectorDeletes)
      ensures Truthy(input.entryId) ==> issued == old(issued)
      ensures Truthy(input.entryId) && DocKey(input.userId, input.entryId.value) !in old(docs) ==>
                r == Err(DocNotFound) && docs == old(docs) && ingests == old(ingests)
      ensures Truthy(input.entryId) && DocKey(input.userId, input.entryId.value) in old(docs) ==>
                var x := Extract(input.originalSource, f);
                var key := DocKey(input.userId, input.entryId.value);
                var final := if EditedText(input) then Headed(x.title, input.textForEmbedding.value)
                             else Headed(x.title, x.textForEmbedding);
                && r == Ok(key.docId)
                && docs == old(docs)[key := old(docs)[key].(
                     tags := input.tags,
                     updatedAt := now,
                     textForEmbedding := if EditedText(input) then final else old(docs)[key].textForEmbedding,
                     chromaId := IngestId(key.docId))]
                && ingests == old(ingests) + [Ingestion(key.docId, x.contentType, input.originalSource, final)]
      ensures !Truthy(input.entryId) ==>
                var x := Extract(input.originalSource, f);
                var text := Headed(x.title, x.textForEmbedding);
                && r.Ok? && r.value !in old(issued) && issued == old(issued) + {r.value}
                && docs == old(docs)[DocKey(input.userId, r.value) :=
                     Doc(r.value, input.userId, x.title, x.contentType, input.originalSource, text,
                         input.tags, IngestId(r.value), now, now)]
                && ingests == old(ingests) + [Ingestion(r.value, x.contentType, input.originalSource, text)]
    {
      var x := Extract(input.originalSource, f);
      if Truthy(input.entryId) {
        r := UpdateFromInput(DocKey(input.userId, input.entryId.value), input, x, now);
      } else {
        var id := CreateFromInput(input, x, now);
        r := Ok(id);
      }
    }

    /** The update path of `addOrUpdateEntry`, given what extraction returned. */
    method UpdateFromInput(key: DocKey, input: EntryInput, x: Extracted, now: int) returns (r: Result<string, WriteError>)
      requires Valid()
      modifies this
      ensures Valid() && vectorDeletes == old(vectorDeletes) && issued == old(issued)
      ensures key !in old(docs) ==> r == Err(DocNotFound) && docs == old(docs) && ingests == old(ingests)
      ensures key in old(docs) ==>
                var final := if EditedText(input) then Headed(x.title, input.textForEmbedding.value)
                             else Headed(x.title, x.textForEmbedding);
                && r == Ok(key.docId)
                && docs == old(docs)[key := old(docs)[key].(
                     tags := input.tags,
                     updatedAt := now,
                     textForEmbedding := if EditedText(input) then final else old(docs)[key].textForEmbedding,
                     chromaId := IngestId(key.docId))]
                && ingests == old(ingests) + [Ingestion(key.docId, x.contentType, input.originalSource, final)]
    {
      var edited: Option<string> := None;
      if EditedText(input) {
        edited := Some(Headed(x.title, input.textForEmbedding.value));
      }
      var written := UpdateDoc(key, Some(input.tags), Some(now), edited, None);
      if written.Err? {
        return Err(DocNotFound);
      }
      var final := if Truthy(edited) then edited.value else Headed(x.title, x.textForEmbedding);
      var chromaId := Ingest(Ingestion(key.docId, x.contentType, input.originalSource, final));
      written := UpdateDoc(key, None, None, None, Some(chromaId));
      return Ok(key.docId);
    }

    /** The create path of `addOrUpdateEntry`, given what extraction returned: a
        fresh document id, the document written with an empty vector id, then
        ingested and its vector id stored. */
    method CreateFromInput(input: EntryInput, x: Extracted, now: int) returns (id: string)
      requires Valid()
      modifies this
      ensures Valid() && vectorDeletes == old(vectorDeletes)
      ensures id !in old(issued) && issued == old(issued) + {id}
      ensures var text := Headed(x.title, x.textForEmbedding);
              && docs == old(docs)[DocKey(input.userId, id) :=
                   Doc(id, input.userId, x.title, x.contentType, input.originalSource, text,
                       input.tags, IngestId(id), now, now)]
              && ingests == old(ingests) + [Ingestion(id, x.contentType, input.originalSource, text)]
    {
      var text := Headed(x.title, x.textForEmbedding);
      FreshIdExists(issued);
      id :| id !in issued;
      issued := issued + {id};
      var key := DocKey(input.userId, id);
      docs := docs[key := Doc(id, input.userId, x.title, x.contentType, input.originalSource, text,
                              input.tags, "", now, now)];
      var chromaId := Ingest(Ingestion(id, x.contentType, input.originalSource, text));
      var written := UpdateDoc(key, None, None, None, Some(chromaId));
    }

    /** `deleteEntry(userId, entryId, chromaId)`: the document goes first (deleting
        a missing document is no error), then the vector when the caller passed a
        truthy vector id. */
    method DeleteEntry(userId: string, entryId: string, chromaId: Option<string>)
      requires Valid()
      modifies this
      ensures Valid() && issued == old(issued) && ingests == old(ingests)
      ensures docs == old(docs) - {DocKey(userId, entryId)}
      ensures vectorDeletes == old(vectorDeletes) + (if Truthy(chromaId) then [chromaId.value] else [])
    {
      docs := docs - {DocKey(userId, entryId)};
      if Truthy(chromaId) {
        vectorDeletes := vectorDeletes + [chromaId.value];
      }
    }

    /** The `in` query on one user's collection: every matching document once, in
        an order the store chooses. */
    method QueryByChromaId(userId: string, window: seq<string>) returns (snapshot: seq<Doc>)
      requires Valid()
      ensures (set d | d in snapshot) == Matching(docs, userId, window)
      ensures DistinctDocIds(snapshot)
    {
      var all := Matching(docs, userId, window);
      MatchingIdsUnique(userId, window);
      var pool := all;
      snapshot := [];
      while pool != {}
        invariant Enumerating(all, pool, snapshot)
        decreases |pool|
      {
        var d :| d in pool;
        EnumerateOne(all, pool, snapshot, d);
        snapshot := snapshot + [d];
        pool := pool - {d};
      }
    }

    /** Within one user's collection the document id determines the document. */
    lemma MatchingIdsUnique(userId: string, window: seq<string>)
      requires Valid()
      ensures UniqueIds(Matching(docs, userId, window))
    {
      var m := Matching(docs, userId, window);
      forall x, y | x in m && y in m && x.id == y.id
        ensures x == y
      {
        var kx :| kx in docs && kx.userId == userId && docs[kx].chromaId in window && docs[kx] == x;
        var ky :| ky in docs && ky.userId == userId && docs[ky].chromaId in window && docs[ky] == y;
        assert kx == ky;
      }
    }

    /** `searchEntries(userId, query)`. `hits` is the vector search's answer, `None`
        when it throws; every failure becomes the one search error. The result holds
        exactly the user's documents whose vector id is among the first 30 hits, each
        once, ordered by position in the hit list with the unmatched last. */
    method SearchEntries(userId: string, hits: Option<seq<string>>) returns (r: Result<seq<Doc>, SearchError>)
      requires Valid()
      ensures hits.None? <==> r == Err(SearchFailed)
      ensures hits.Some? && hits.value == [] ==> r == Ok([])
      ensures r.Ok? ==>
        && (set d | d in r.value) == Matching(docs, userId, Window(hits.value))
        && DistinctDocIds(r.value)
        && forall i, j :: 0 <= i < j < |r.value| ==> Rank(hits.value, r.value[i]) <= Rank(hits.value, r.value[j])
    {
      if hits.None? {
        return Err(SearchFailed);
      }
      var vectorHits := hits.value;
      if vectorHits == [] {
        return Ok([]);
      }
      var snapshot := QueryByChromaId(userId, Window(vectorHits));
      var a := new Doc[|snapshot|](i requires 0 <= i < |snapshot| => snapshot[i]);
      assert a[..] == snapshot;
      var le := (x: Doc, y: Doc) => Rank(vectorHits, x) <= Rank(vectorHits, y);
      assert Sorting.Total(le) && Sorting.Transitive(le);
      Sorting.Sort(a, le);
      Sorting.AdjacentSortedIsSorted(a[..], le);
      PermutationKeeps(snapshot, a[..]);
      return Ok(a[..]);
    }
  }

  /** A permutation keeps the set of elements and distinct ids. */
  lemma PermutationKeeps(s: seq<Doc>, t: seq<Doc>)
    requires multiset(s) == multiset(t)
    requires DistinctDocIds(s)
    ensures (set d | d in t) == (set d | d in s)
    ensures DistinctDocIds(t)
  {
    forall d
      ensures d in t <==> d in s
    {
      assert d in t <==> d in multiset(t);
      assert d in s <==> d in multiset(s);
    }
    forall i, j | 0 <= i < j < |t|
      ensures t[i].id != t[j].id
    {
      DistinctIdsOnce(s, t[i]);
      RepeatCounts(t, i, j);
      assert t[i] in multiset(s) && t[j] in multiset(s);
      IdDeterminesDoc(s, t[i], t[j]);
    }
  }

  /** In a list with distinct ids, an id determines the document. */
  lemma IdDeterminesDoc(s: seq<Doc>, x: Doc, y: Doc)
    requires DistinctDocIds(s)
    ensures x in s && y in s && x.id == y.id ==> x == y
  {
    if x in s && y in s {
      var p :| 0 <= p < |s| && s[p] == x;
      var q :| 0 <= q < |s| && s[q] == y;
      assert x.id == y.id ==> p == q;
    }
  }

  /** An element at two positions counts twice. */
  lemma RepeatCounts(t: seq<Doc>, i: nat, j: nat)
    requires i < j < |t|
    ensures t[i] == t[j] ==> multiset(t)[t[i]] >= 2
  {
    if t[i] == t[j] {
      assert t == t[..i] + [t[i]] + t[i + 1..j] + [t[j]] + t[j + 1..];
    }
  }

  /** With distinct ids, each document occurs at most once. */
  lemma {:induction false} DistinctIdsOnce(s: seq<Doc>, d: Doc)
    requires DistinctDocIds(s)
    ensures multiset(s)[d] <= 1
    decreases |s|
  {
    if s != [] {
      var last := s[|s| - 1];
      var front := s[..|s| - 1];
      assert s == front + [last];
      assert DistinctDocIds(front);
      DistinctIdsOnce(front, d);
      if d == last {
        assert d !in front;
      }
    }
  }
}
