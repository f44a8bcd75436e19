/** The hybrid retrieval layer (`VectorSearchService`): vector hits first, resolved
    against the entry store, then a text query for the slots left, excluding what
    the vector tier found, then an in-place sort that ranks every vector result
    above every text result. */
module VectorSearchService {
  import opened Base
  import opened Chroma
  import opened EntryStore
  import Sorting

  /** `'vector' | 'text'` */
  datatype Source = VectorSource | TextSource

  datatype SearchResult = SearchResult(entry: Entry, similarity: Option<real>, source: Source)

  /** `result.distance ? 1 - result.distance : undefined`: a distance that is
      missing or exactly zero gives no similarity. */
  function Similarity(distance: Option<real>): (sim: Option<real>)
    ensures sim.None? <==> distance.None? || distance.value == 0.0
    ensures sim.Some? ==> sim.value + distance.value == 1.0
  {
    if distance.Some? && distance.value != 0.0 then Some(1.0 - distance.value) else None
  }

  /** One vector hit looked up in the store, scoped by owner; a hit whose row is
      missing or out of scope resolves to nothing. */
  function Resolve(h: Hit, rows: map<string, Entry>, owner: Option<string>): Option<SearchResult> {
    if h.id in rows && InScope(rows[h.id], owner) then Some(SearchResult(rows[h.id], Similarity(h.distance), VectorSource))
    else None
  }

  /** The vector tier built from `hits` in order: each hit that resolves, once. */
  function VectorTier(hits: seq<Hit>, rows: map<string, Entry>, owner: Option<string>): (v: seq<SearchResult>)
    ensures |v| <= |hits|
    decreases |hits|
  {
    if hits == [] then []
    else
      var v := VectorTier(hits[..|hits| - 1], rows, owner);
      match Resolve(hits[|hits| - 1], rows, owner)
      case None => v
      case Some(r) => v + [r]
  }

  /** Every result of the vector tier is what one of the hits resolves to: a stored
      row in scope, with the similarity of that hit's distance. */
  lemma {:induction false} VectorTierSound(hits: seq<Hit>, rows: map<string, Entry>, owner: Option<string>)
    ensures forall i :: 0 <= i < |VectorTier(hits, rows, owner)| ==>
      exists h :: h in hits && Resolve(h, rows, owner) == Some(VectorTier(hits, rows, owner)[i])
    decreases |hits|
  {
    if hits != [] {
      var front := hits[..|hits| - 1];
      var last := hits[|hits| - 1];
      VectorTierSound(front, rows, owner);
      var v := VectorTier(front, rows, owner);
      var w := VectorTier(hits, rows, owner);
      forall i | 0 <= i < |w|
        ensures exists h :: h in hits && Resolve(h, rows, owner) == Some(w[i])
      {
        if i < |v| {
          assert w[i] == v[i];
          var h :| h in front && Resolve(h, rows, owner) == Some(v[i]);
          var p :| 0 <= p < |front| && front[p] == h;
          assert hits[p] == h;
        } else {
          assert Resolve(last, rows, owner) == Some(w[i]);
        }
      }
    } else {
      assert VectorTier(hits, rows, owner) == [];
    }
  }

  /** No hit that resolves is skipped: its result is in the vector tier. */
  lemma {:induction false} VectorTierComplete(hits: seq<Hit>, rows: map<string, Entry>, owner: Option<string>)
    ensures forall h :: h in hits && Resolve(h, rows, owner).Some? ==>
      Resolve(h, rows, owner).value in VectorTier(hits, rows, owner)
    decreases |hits|
  {
    if hits != [] {
      var front := hits[..|hits| - 1];
      var last := hits[|hits| - 1];
      VectorTierComplete(front, rows, owner);
      var v := VectorTier(front, rows, owner);
      var w := VectorTier(hits, rows, owner);
      assert forall x :: x in v ==> x in w;
      forall h | h in hits && Resolve(h, rows, owner).Some?
        ensures Resolve(h, rows, owner).value in w
      {
        var p :| 0 <= p < |hits| && hits[p] == h;
        if p < |front| {
          assert front[p] == h;
        }
      }
    }
  }

  /** The hits whose lookups run: all of them, or those before the lookup that throws. */
  function Attempted(hits: seq<Hit>, lookupFault: Option<nat>): seq<Hit> {
    if lookupFault.Some? && lookupFault.value < |hits| then hits[..lookupFault.value] else hits
  }

  function ResultIds(rs: seq<SearchResult>): set<string> {
    set i | 0 <= i < |rs| :: rs[i].entry.id
  }

  function TextResults(es: seq<Entry>): (rs: seq<SearchResult>)
    ensures |rs| == |es|
    ensures forall i :: 0 <= i < |es| ==> rs[i] == SearchResult(es[i], None, TextSource)
  {
    seq(|es|, i requires 0 <= i < |es| => SearchResult(es[i], None, TextSource))
  }

  /** The comparator of the final sort: vector before text; within a tier by
      descending similarity when both are truthy, otherwise newest first. */
  function Compare(a: SearchResult, b: SearchResult): real {
    if a.source == VectorSource && b.source == TextSource then -1.0
    else if a.source == TextSource && b.source == VectorSource then 1.0
    else if Truthy'(a.similarity) && Truthy'(b.similarity) then b.similarity.value - a.similarity.value
    else (b.entry.createdAt - a.entry.createdAt) as real
  }

  /** JavaScript truthiness of an optional number. */
  predicate Truthy'(x: Option<real>) {
    x.Some? && x.value != 0.0
  }

  /** `a` may stand before `b`: the comparator does not ask to swap them. */
  predicate Precedes(a: SearchResult, b: SearchResult) {
    Compare(a, b) <= 0.0
  }

  lemma PrecedesTotal()
    ensures Sorting.Total(Precedes)
  {
    forall a, b
      ensures Precedes(a, b) || Precedes(b, a)
    {
      assert Compare(a, b) == -Compare(b, a);
    }
  }

  /** In any order the sort leaves, every vector result stands before every text
      result. */
  lemma {:induction false} VectorTierFirst(rs: seq<SearchResult>)
    requires Sorting.AdjacentSorted(rs, Precedes)
    ensures forall i, j :: 0 <= i < j < |rs| && rs[j].source == VectorSource ==> rs[i].source == VectorSource
  {
    forall i, j | 0 <= i < j < |rs| && rs[j].source == VectorSource
      ensures rs[i].source == VectorSource
    {
      var k := j;
      while k > i
        invariant i <= k <= j
        invariant rs[k].source == VectorSource
      {
        assert Precedes(rs[k - 1], rs[k]);
        k := k - 1;
      }
    }
  }

  /** Text results newest first are already in the sort's order. */
  lemma TextTierInOrder(es: seq<Entry>)
    requires NewestFirst(es)
    ensures Sorting.AdjacentSorted(TextResults(es), Precedes)
  {
    var rs := TextResults(es);
    forall k | 0 <= k < |rs| - 1
      ensures Precedes(rs[k], rs[k + 1])
    {
      assert rs[k].entry == es[k] && rs[k + 1].entry == es[k + 1];
    }
  }

  predicate DistinctHitIds(hits: seq<Hit>) {
    forall i, j :: 0 <= i < j < |hits| ==> hits[i].id != hits[j].id
  }

  predicate DistinctResults(rs: seq<SearchResult>) {
    forall i, j :: 0 <= i < j < |rs| ==> rs[i].entry.id != rs[j].entry.id
  }

  /** Distinct hits resolve to distinct rows. */
  lemma {:induction false} VectorTierDistinct(hits: seq<Hit>, rows: map<string, Entry>, owner: Option<string>)
    requires DistinctHitIds(hits)
    requires forall k :: k in rows ==> rows[k].id == k
    ensures DistinctResults(VectorTier(hits, rows, owner))
    decreases |hits|
  {
    if hits != [] {
      var front := hits[..|hits| - 1];
      var last := hits[|hits| - 1];
      var v := VectorTier(front, rows, owner);
      VectorTierDistinct(front, rows, owner);
      match Resolve(last, rows, owner)
      case None =>
      case Some(r) =>
        TierIdsFromHits(front, rows, owner);
        LastIdIsNew(hits);
        var w := v + [r];
        forall i, j | 0 <= i < j < |w|
          ensures w[i].entry.id != w[j].entry.id
        {
          assert w[i] == v[i];
          if j == |v| {
            assert v[i].entry.id in ResultIds(v);
          }
        }
    }
  }

  function HitIds(hits: seq<Hit>): set<string> {
    set h | h in hits :: h.id
  }

  /** Every row of the vector tier is named by one of its hits. */
  lemma TierIdsFromHits(hits: seq<Hit>, rows: map<string, Entry>, owner: Option<string>)
    requires forall k :: k in rows ==> rows[k].id == k
    ensures ResultIds(VectorTier(hits, rows, owner)) <= HitIds(hits)
  {
    var v := VectorTier(hits, rows, owner);
    VectorTierSound(hits, rows, owner);
    forall x | x in ResultIds(v)
      ensures x in HitIds(hits)
    {
      var i :| 0 <= i < |v| && v[i].entry.id == x;
      var h :| h in hits && Resolve(h, rows, owner) == Some(v[i]);
    }
  }

  /** With distinct hit ids, the last hit's id is not among the earlier ones. */
  lemma LastIdIsNew(hits: seq<Hit>)
    requires hits != [] && DistinctHitIds(hits)
    ensures hits[|hits| - 1].id !in HitIds(hits[..|hits| - 1])
  {
    var front := hits[..|hits| - 1];
    forall h | h in front
      ensures h.id != hits[|hits| - 1].id
    {
      var p :| 0 <= p < |front| && front[p] == h;
      assert hits[p] == h;
    }
  }

  /** The text tier never repeats a row of the vector tier, so the merged list
      holds each row at most once. */
  lemma HybridDistinct(vector: seq<SearchResult>, rows: map<string, Entry>, owner: Option<string>,
                       query: string, take: int, textTier: seq<Entry>)
    requires DistinctResults(vector)
    requires TextAnswer(rows, owner, query, ResultIds(vector), take, textTier)
    ensures DistinctResults(vector + TextResults(textTier))
  {
    var all := vector + TextResults(textTier);
    forall i, j | 0 <= i < j < |all|
      ensures all[i].entry.id != all[j].entry.id
    {
      if j >= |vector| {
        var t := j - |vector|;
        assert all[j].entry == textTier[t];
        assert textTier[t].id in Candidates(rows, owner, query, ResultIds(vector));
        if i < |vector| {
          assert all[i].entry.id in ResultIds(vector);
        } else {
          assert all[i].entry == textTier[i - |vector|];
        }
      }
    }
  }

  /** With a backend that honours `nResults`, the vector tier takes at most half
      the slots, rounded up, and the two tiers together at most `limit`. */
  lemma ResultCount(s: ServiceState, init: Outcome, response: Option<QueryResponse>, lookupFault: Option<nat>,
                    rows: map<string, Entry>, owner: Option<string>, query: string, limit: int, textTier: seq<Entry>)
    requires 0 <= limit
    requires response.Some? ==> HonoursLimit(response.value, (limit + 1) / 2)
    requires var v := VectorTier(Attempted(SimilarHits(s, init, response), lookupFault), rows, owner);
             && (limit - |v| > 0 ==> TextAnswer(rows, owner, query, ResultIds(v), limit - |v|, textTier))
             && (limit - |v| <= 0 ==> textTier == [])
    ensures var v := VectorTier(Attempted(SimilarHits(s, init, response), lookupFault), rows, owner);
            |v| <= (limit + 1) / 2 && |v| + |textTier| <= limit
  {
    var hits := SimilarHits(s, init, response);
    assert |hits| <= (limit + 1) / 2 by {
      if hits != [] {
        assert ZipHits(response.value) == Some(hits);
      }
    }
    assert |Attempted(hits, lookupFault)| <= |hits|;
  }

  /** Each result's row is stored under its id and lies within the owner scope. */
  predicate ResultsStored(rows: map<string, Entry>, owner: Option<string>, rs: seq<SearchResult>) {
    forall i :: 0 <= i < |rs| ==>
      rs[i].entry.id in rows && rows[rs[i].entry.id] == rs[i].entry && InScope(rs[i].entry, owner)
  }

  /** Every row the hybrid search returns is a stored row within the owner scope:
      a search never reaches another user's entries. */
  lemma ResultsOwned(hits: seq<Hit>, rows: map<string, Entry>, owner: Option<string>, query: string,
                     exclude: set<string>, take: int, textTier: seq<Entry>, results: seq<SearchResult>)
    requires forall k :: k in rows ==> rows[k].id == k
    requires multiset(results) == multiset(VectorTier(hits, rows, owner) + TextResults(textTier))
    requires textTier == [] || TextAnswer(rows, owner, query, exclude, take, textTier)
    ensures ResultsStored(rows, owner, results)
  {
    var v := VectorTier(hits, rows, owner);
    VectorTierStored(hits, rows, owner);
    TextTierStored(rows, owner, query, exclude, take, textTier);
    ConcatStored(rows, owner, v, TextResults(textTier));
    PermutationStored(rows, owner, results, v + TextResults(textTier));
  }

  /** Two runs of stored results make a stored run. */
  lemma ConcatStored(rows: map<string, Entry>, owner: Option<string>, xs: seq<SearchResult>, ys: seq<SearchResult>)
    requires ResultsStored(rows, owner, xs) && ResultsStored(rows, owner, ys)
    ensures ResultsStored(rows, owner, xs + ys)
  {
    var all := xs + ys;
    forall p | 0 <= p < |all|
      ensures all[p].entry.id in rows && rows[all[p].entry.id] == all[p].entry && InScope(all[p].entry, owner)
    {
      if p < |xs| {
        assert all[p] == xs[p];
      } else {
        assert all[p] == ys[p - |xs|];
      }
    }
  }

  /** A reordering of stored results is stored. */
  lemma PermutationStored(rows: map<string, Entry>, owner: Option<string>, xs: seq<SearchResult>, ys: seq<SearchResult>)
    requires multiset(xs) == multiset(ys) && ResultsStored(rows, owner, ys)
    ensures ResultsStored(rows, owner, xs)
  {
    forall i | 0 <= i < |xs|
      ensures xs[i].entry.id in rows && rows[xs[i].entry.id] == xs[i].entry && InScope(xs[i].entry, owner)
    {
      assert xs[i] in multiset(ys);
      var p :| 0 <= p < |ys| && ys[p] == xs[i];
    }
  }

  lemma VectorTierStored(hits: seq<Hit>, rows: map<string, Entry>, owner: Option<string>)
    requires forall k :: k in rows ==> rows[k].id == k
    ensures ResultsStored(rows, owner, VectorTier(hits, rows, owner))
  {
    var v := VectorTier(hits, rows, owner);
    VectorTierSound(hits, rows, owner);
    forall p | 0 <= p < |v|
      ensures v[p].entry.id in rows && rows[v[p].entry.id] == v[p].entry && InScope(v[p].entry, owner)
    {
      var h :| h in hits && Resolve(h, rows, owner) == Some(v[p]);
    }
  }

  lemma TextTierStored(rows: map<string, Entry>, owner: Option<string>, query: string,
                       exclude: set<string>, take: int, textTier: seq<Entry>)
    requires textTier == [] || TextAnswer(rows, owner, query, exclude, take, textTier)
    ensures ResultsStored(rows, owner, TextResults(textTier))
  {
    var rs := TextResults(textTier);
    forall t | 0 <= t < |rs|
      ensures rs[t].entry.id in rows && rows[rs[t].entry.id] == rs[t].entry && InScope(rs[t].entry, owner)
    {
      assert rs[t].entry == textTier[t];
      assert textTier[t].id in Candidates(rows, owner, query, exclude);
    }
  }

  /** `hybridSearch(query, limit, userId)`. The backend answers are inputs: `init`
      and `response` for the vector store, `lookupFault` the index of a hit whose
      lookup throws (the exception ends the vector phase; results found before it
      are kept). `textTier` names the rows the text query answered. */
  method HybridSearch(query: string, limit: int, userId: Option<string>,
                      db: EntryTable, chroma: ChromaDBService,
                      init: Outcome, response: Option<QueryResponse>, lookupFault: Option<nat>)
    returns (results: seq<SearchResult>, ghost textTier: seq<Entry>)
    requires db.Valid()
    modifies chroma
    ensures chroma.State() == Step(old(chroma.State()), SearchCall(init, response))
    ensures var vector := VectorTier(Attempted(SimilarHits(old(chroma.State()), init, response), lookupFault),
                                     db.rows, ScopeOf(userId));
            multiset(results) == multiset(vector + TextResults(textTier))
    ensures var vector := VectorTier(Attempted(SimilarHits(old(chroma.State()), init, response), lookupFault),
                                     db.rows, ScopeOf(userId));
            limit - |vector| > 0 ==>
              TextAnswer(db.rows, ScopeOf(userId), query, ResultIds(vector), limit - |vector|, textTier)
    ensures var vector := VectorTier(Attempted(SimilarHits(old(chroma.State()), init, response), lookupFault),
                                     db.rows, ScopeOf(userId));
            limit - |vector| <= 0 ==> textTier == []
    ensures Sorting.AdjacentSorted(results, Precedes)
    ensures !old(chroma.isAvailable) ==> results == TextResults(textTier)
  {
    var owner := ScopeOf(userId);
    var hits := chroma.SearchSimilar(query, (limit + 1) / 2, init, response);
    var vector := ResolveHits(hits, db, owner, lookupFault);
    results, textTier := CompleteSearch(vector, query, limit, owner, db);
  }

  /** The rest of `hybridSearch` once the vector tier is known: the text phase,
      then the sort. With no vector results the text results keep their order. */
  method CompleteSearch(vector: seq<SearchResult>, query: string, limit: int, owner: Option<string>, db: EntryTable)
    returns (results: seq<SearchResult>, ghost textTier: seq<Entry>)
    requires db.Valid()
    ensures multiset(results) == multiset(vector + TextResults(textTier))
    ensures limit - |vector| > 0 ==> TextAnswer(db.rows, owner, query, ResultIds(vector), limit - |vector|, textTier)
    ensures limit - |vector| <= 0 ==> textTier == []
    ensures Sorting.AdjacentSorted(results, Precedes)
    ensures vector == [] ==> results == TextResults(textTier)
  {
    var acc;
    acc, textTier := FillWithText(vector, query, limit, owner, db);
    if vector == [] {
      assert acc == TextResults(textTier);
      TextTierInOrder(textTier);
    }
    results := SortResults(acc);
  }

  /** The text phase of `hybridSearch`: when slots remain after the vector tier,
      the newest text matches outside it fill them, appended after it. */
  method FillWithText(vector: seq<SearchResult>, query: string, limit: int, owner: Option<string>, db: EntryTable)
    returns (acc: seq<SearchResult>, ghost textTier: seq<Entry>)
    requires db.Valid()
    ensures acc == vector + TextResults(textTier)
    ensures limit - |vector| > 0 ==> TextAnswer(db.rows, owner, query, ResultIds(vector), limit - |vector|, textTier)
    ensures limit - |vector| <= 0 ==> textTier == []
  {
    acc := vector;
    textTier := [];
    var remaining := limit - |vector|;
    if remaining > 0 {
      var texts := db.FindByText(owner, query, ResultIds(vector), remaining);
      textTier := texts;
      acc := AppendText(vector, texts);
    }
  }

  /** The vector phase of `hybridSearch`: each hit in order is looked up, and one
      that resolves is kept; the lookup at `lookupFault` throws and ends the phase. */
  method ResolveHits(hits: seq<Hit>, db: EntryTable, owner: Option<string>, lookupFault: Option<nat>)
    returns (vector: seq<SearchResult>)
    requires db.Valid()
    ensures vector == VectorTier(Attempted(hits, lookupFault), db.rows, owner)
  {
    vector := [];
    var i := 0;
    while i < |hits| && lookupFault != Some(i)
      invariant 0 <= i <= |hits|
      invariant lookupFault.None? || lookupFault.value >= i
      invariant vector == VectorTier(hits[..i], db.rows, owner)
    {
      var entry := db.FindUnique(hits[i].id, owner);
      assert hits[..i + 1][..i] == hits[..i];
      if entry.Some? {
        vector := vector + [SearchResult(entry.value, Similarity(hits[i].distance), VectorSource)];
      }
      i := i + 1;
    }
    assert hits[..i] == Attempted(hits, lookupFault);
  }

  /** The text phase's loop: each text row is appended as a text result. */
  method AppendText(acc: seq<SearchResult>, texts: seq<Entry>) returns (r: seq<SearchResult>)
    ensures r == acc + TextResults(texts)
  {
    r := acc;
    var k := 0;
    while k < |texts|
      invariant 0 <= k <= |texts|
      invariant r == acc + TextResults(texts[..k])
    {
      assert TextResults(texts[..k + 1]) == TextResults(texts[..k]) + [SearchResult(texts[k], None, TextSource)];
      r := r + [SearchResult(texts[k], None, TextSource)];
      k := k + 1;
    }
    assert texts[..k] == texts;
  }

  /** `results.sort(compare)` on a fresh array holding `rs`. */
  method SortResults(rs: seq<SearchResult>) returns (sorted: seq<SearchResult>)
    ensures multiset(sorted) == multiset(rs)
    ensures Sorting.AdjacentSorted(sorted, Precedes)
    ensures Sorting.AdjacentSorted(rs, Precedes) ==> sorted == rs
  {
    var a := new SearchResult[|rs|](j requires 0 <= j < |rs| => rs[j]);
    assert a[..] == rs;
    PrecedesTotal();
    Sorting.Sort(a, Precedes);
    sorted := a[..];
  }

  /** `vectorSearch(query, limit, userId)`: the vector tier alone, and `[]` when a
      lookup throws. */
  method VectorSearch(query: string, limit: int, userId: Option<string>,
                      db: EntryTable, chroma: ChromaDBService,
                      init: Outcome, response: Option<QueryResponse>, lookupFault: Option<nat>)
    returns (results: seq<SearchResult>)
    requires db.Valid()
    modifies chroma
    ensures chroma.State() == Step(old(chroma.State()), SearchCall(init, response))
    ensures var hits := SimilarHits(old(chroma.State()), init, response);
            results == if lookupFault.Some? && lookupFault.value < |hits| then []
                       else VectorTier(hits, db.rows, ScopeOf(userId))
  {
    var owner := ScopeOf(userId);
    var hits := chroma.SearchSimilar(query, limit, init, response);
    results := [];
    var i := 0;
    while i < |hits|
      invariant 0 <= i <= |hits|
      invariant lookupFault.None? || lookupFault.value >= i
      invariant results == VectorTier(hits[..i], db.rows, owner)
    {
      if lookupFault == Some(i) {
        return [];
      }
      var entry := db.FindUnique(hits[i].id, owner);
      assert hits[..i + 1][..i] == hits[..i];
      if entry.Some? {
        results := results + [SearchResult(entry.value, Similarity(hits[i].distance), VectorSource)];
      }
      i := i + 1;
    }
    assert hits[..i] == hits;
  }
}
