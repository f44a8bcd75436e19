/** The embedding-store client (`ChromaDBService`). Every call is total: a backend
    failure is absorbed, flips the availability flag to false and the call returns a
    default. Once unavailable, the service never touches the backend again. The
    backend's behaviour on each call (does it connect, does the call throw, what does
    a query answer) is an input of the model. */
module Chroma {
  import opened Base

  /** Whether one backend request answers or throws. */
  datatype Outcome = Succeeds | Throws

  /** The metadata the knowledge service attaches to each vector. */
  datatype Metadata = Metadata(
    title: string,
    contentType: ContentType,
    originalSource: string,
    tags: seq<Tag>,
    userId: string)

  /** One record of the backend collection. */
  datatype VectorDoc = VectorDoc(document: string, metadata: Metadata)

  /** The backend's answer to `collection.query`: one list per query text, of
      which only the first is read. Missing entries are `None` (JSON null). */
  datatype QueryResponse = QueryResponse(
    ids: seq<seq<string>>,
    documents: seq<seq<Option<string>>>,
    metadatas: seq<seq<Option<Metadata>>>,
    distances: Option<seq<seq<Option<real>>>>)

  /** One record of `searchSimilar`'s answer. */
  datatype Hit = Hit(id: string, document: Option<string>, metadata: Option<Metadata>, distance: Option<real>)

  /** `s[i]` in JavaScript: undefined past the end. */
  function Element<T>(s: seq<Option<T>>, i: nat): Option<T> {
    if i < |s| then s[i] else None
  }

  function DistanceAt(d: Option<seq<seq<Option<real>>>>, i: nat): Option<real> {
    match d
    case None => None
    case Some(lists) => if |lists| == 0 then None else Element(lists[0], i)
  }

  /** The zip at the end of `searchSimilar`: one hit per id of the first id list,
      taking document, metadata and distance from the same index. Reading
      `documents[0][i]` or `metadatas[0][i]` throws when the outer list is empty,
      which the model reports as `None`; an empty or missing id list gives `[]`. */
  function ZipHits(r: QueryResponse): (hits: Option<seq<Hit>>)
    ensures hits.None? <==> |r.ids| > 0 && |r.ids[0]| > 0 && (|r.documents| == 0 || |r.metadatas| == 0)
    ensures hits.Some? && |r.ids| == 0 ==> hits.value == []
    ensures hits.Some? && |r.ids| > 0 ==>
      |hits.value| == |r.ids[0]| &&
      forall i :: 0 <= i < |hits.value| ==>
        hits.value[i].id == r.ids[0][i] &&
        hits.value[i].document == Element(r.documents[0], i) &&
        hits.value[i].metadata == Element(r.metadatas[0], i) &&
        hits.value[i].distance == DistanceAt(r.distances, i)
  {
    if |r.ids| == 0 || |r.ids[0]| == 0 then Some([])
    else if |r.documents| == 0 || |r.metadatas| == 0 then None
    else Some(seq(|r.ids[0]|, i requires 0 <= i < |r.ids[0]| =>
      Hit(r.ids[0][i], Element(r.documents[0], i), Element(r.metadatas[0], i), DistanceAt(r.distances, i))))
  }

  /** The backend answered with at most `limit` ids, as `nResults: limit` asks. */
  predicate HonoursLimit(r: QueryResponse, limit: int) {
    |r.ids| == 0 || |r.ids[0]| <= limit
  }

  // ---------------------------------------------------------------------------
  // The service as a state machine over (collection, isAvailable), with the
  // backend collection's contents alongside.

  datatype ServiceState = ServiceState(connected: bool, available: bool, vectors: map<string, VectorDoc>)

  /** One public call with the backend behaviour it meets: `init` is what
      `getOrCreateCollection` does if the call has to connect first, the rest what
      the call itself meets. */
  datatype Call =
    | AddCall(id: string, doc: VectorDoc, init: Outcome, outcome: Outcome)
    | UpdateCall(id: string, doc: VectorDoc, init: Outcome, outcome: Outcome)
    | DeleteCall(id: string, init: Outcome, outcome: Outcome)
    | SearchCall(init: Outcome, response: Option<QueryResponse>)

  /** The call gets past its opening guards and reaches the backend: the service
      is still available and either already holds a collection or connects now. */
  predicate Reaches(s: ServiceState, init: Outcome) {
    s.available && (s.connected || init == Succeeds)
  }

  /** The backend request itself answers. A query also fails when its answer
      cannot be zipped. */
  predicate Answers(c: Call) {
    match c
    case AddCall(_, _, _, outcome) => outcome == Succeeds
    case UpdateCall(_, _, _, outcome) => outcome == Succeeds
    case DeleteCall(_, _, outcome) => outcome == Succeeds
    case SearchCall(_, response) => response.Some? && ZipHits(response.value).Some?
  }

  /** What a successful request does to the collection: `add` keeps an id that is
      already present, `update` ignores an id that is absent, `delete` removes. */
  function Effect(vectors: map<string, VectorDoc>, c: Call): map<string, VectorDoc> {
    match c
    case AddCall(id, doc, _, _) => if id in vectors then vectors else vectors[id := doc]
    case UpdateCall(id, doc, _, _) => if id in vectors then vectors[id := doc] else vectors
    case DeleteCall(id, _, _) => vectors - {id}
    case SearchCall(_, _) => vectors
  }

  /** The state after one call. */
  function Step(s: ServiceState, c: Call): (r: ServiceState)
    ensures !s.available ==> r == s
    ensures r.available ==> s.available
    ensures s.connected ==> r.connected
    ensures r.vectors != s.vectors ==> Reaches(s, c.init) && Answers(c)
  {
    if !s.available then s
    else if !Reaches(s, c.init) then s.(available := false)
    else if Answers(c) then ServiceState(true, true, Effect(s.vectors, c))
    else s.(connected := true, available := false)
  }

  /** The state after a sequence of calls. */
  function Run(s: ServiceState, calls: seq<Call>): ServiceState
    decreases |calls|
  {
    if calls == [] then s else Run(Step(s, calls[0]), calls[1..])
  }

  /** Degradation is sticky: from an unavailable state no sequence of calls changes
      anything, and in particular never reconnects. */
  lemma {:induction false} DegradedIsSticky(s: ServiceState, calls: seq<Call>)
    requires !s.available
    ensures Run(s, calls) == s
    decreases |calls|
  {
    if calls != [] {
      DegradedIsSticky(Step(s, calls[0]), calls[1..]);
    }
  }

  /** Availability is never regained: a service available after a run of calls
      was available before it and every call of the run reached a backend that
      answered. */
  lemma {:induction false} AvailableAfterRun(s: ServiceState, calls: seq<Call>)
    requires Run(s, calls).available
    ensures s.available
    ensures forall i :: 0 <= i < |calls| ==> Answers(calls[i])
    decreases |calls|
  {
    if calls != [] {
      var s1 := Step(s, calls[0]);
      if !s1.available {
        DegradedIsSticky(s1, calls[1..]);
      }
      AvailableAfterRun(s1, calls[1..]);
      assert Answers(calls[0]);
      forall i | 0 <= i < |calls|
        ensures Answers(calls[i])
      {
        if i > 0 {
          assert calls[i] == calls[1..][i - 1];
        }
      }
    }
  }

  /** What `searchSimilar` answers from state `s`: `[]` unless the query reaches a
      backend whose answer can be zipped. */
  function SimilarHits(s: ServiceState, init: Outcome, response: Option<QueryResponse>): (hits: seq<Hit>)
    ensures !s.available ==> hits == []
    ensures hits != [] ==> Reaches(s, init) && response.Some? && ZipHits(response.value) == Some(hits)
  {
    if Reaches(s, init) && response.Some? && ZipHits(response.value).Some? then ZipHits(response.value).value
    else []
  }

  class ChromaDBService {
    /** `collection !== null`: a handle on the backend collection is held. */
    var connected: bool
    var isAvailable: bool
    /** The backend collection's contents, by vector id. */
    var vectors: map<string, VectorDoc>

    function State(): ServiceState
      reads this
    {
      ServiceState(connected, isAvailable, vectors)
    }

    /** A fresh service over a collection that already holds `stored`. */
    constructor (stored: map<string, VectorDoc>)
      ensures !connected && isAvailable && vectors == stored
    {
      connected := false;
      isAvailable := true;
      vectors := stored;
    }

    /** `getOrCreateCollection`: on success the handle is held and the service is
        available; on failure it is unavailable. It never throws. */
    method Initialize(init: Outcome)
      modifies this
      ensures init == Succeeds ==> connected && isAvailable
      ensures init == Throws ==> connected == old(connected) && !isAvailable
      ensures vectors == old(vectors)
    {
      if init == Succeeds {
        connected := true;
        isAvailable := true;
      } else {
        isAvailable := false;
      }
    }

    /** The guard each operation opens with: give up when unavailable, connect
        lazily when no handle is held, and give up if that failed. */
    method Guard(init: Outcome) returns (proceed: bool)
      modifies this
      ensures proceed == Reaches(old(State()), init)
      ensures !old(isAvailable) ==> unchanged(this)
      ensures old(isAvailable) ==> isAvailable == proceed && connected == (old(connected) || proceed)
      ensures vectors == old(vectors)
    {
      if !isAvailable {
        return false;
      }
      if !connected {
        Initialize(init);
      }
      return isAvailable;
    }

    /** `addEntry`: stores the vector and returns `id` on every path. */
    method AddEntry(id: string, text: string, metadata: Metadata, init: Outcome, outcome: Outcome)
      returns (storedId: string)
      modifies this
      ensures storedId == id
      ensures State() == Step(old(State()), AddCall(id, VectorDoc(text, metadata), init, outcome))
    {
      var proceed := Guard(init);
      if !proceed {
        return id;
      }
      if outcome == Succeeds {
        if id !in vectors {
          vectors := vectors[id := VectorDoc(text, metadata)];
        }
        return id;
      } else {
        isAvailable := false;
        return id;
      }
    }

    /** `updateEntry` */
    method UpdateEntry(id: string, text: string, metadata: Metadata, init: Outcome, outcome: Outcome)
      modifies this
      ensures State() == Step(old(State()), UpdateCall(id, VectorDoc(text, metadata), init, outcome))
    {
      var proceed := Guard(init);
      if !proceed {
        return;
      }
      if outcome == Succeeds {
        if id in vectors {
          vectors := vectors[id := VectorDoc(text, metadata)];
        }
      } else {
        isAvailable := false;
      }
    }

    /** `deleteEntry` */
    method DeleteEntry(id: string, init: Outcome, outcome: Outcome)
      modifies this
      ensures State() == Step(old(State()), DeleteCall(id, init, outcome))
    {
      var proceed := Guard(init);
      if !proceed {
        return;
      }
      if outcome == Succeeds {
        vectors := vectors - {id};
      } else {
        isAvailable := false;
      }
    }

    /** `searchSimilar`: the zipped answer of the backend, or `[]` when the service
        is unavailable, cannot connect, or the query or the zip throws. `response`
        is `None` when the query request throws. */
    method SearchSimilar(query: string, limit: int, init: Outcome, response: Option<QueryResponse>)
      returns (hits: seq<Hit>)
      modifies this
      ensures hits == SimilarHits(old(State()), init, response)
      ensures State() == Step(old(State()), SearchCall(init, response))
    {
      var proceed := Guard(init);
      if !proceed {
        return [];
      }
      match response {
        case None =>
          isAvailable := false;
          return [];
        case Some(r) =>
          var zipped := ZipHits(r);
          if zipped.None? {
            isAvailable := false;
            return [];
          }
          return zipped.value;
      }
    }
  }
}
