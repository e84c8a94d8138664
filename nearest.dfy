/**
 * The query side of the collection (`SantanderVectorDB.search`): the optional
 * `document_type` filter, the nearest-neighbour selection the store performs,
 * and the reshaping of its answer into result records.
 *
 * The store ranks by the distance between the query's embedding and each
 * record's embedding; that distance is the parameter `distance(query, embedding)`.
 * The selection below is exact: the store's approximate index is not modelled.
 */
module Nearest {
  import opened Wrappers
  import opened Records
  import opened Collection

  /** `where_filter`: built only when `document_type` is truthy (present and not empty). */
  function WhereFilter(documentType: Option<string>): (w: Option<string>)
    ensures w.Some? <==> documentType.Some? && documentType.value != ""
    ensures w.Some? ==> w == documentType
  {
    if documentType.Some? && documentType.value != "" then documentType else None
  }

  /** A record passes the filter when there is none, or when its `document_type` equals it. */
  predicate Matches(r: Record, where: Option<string>) {
    where.None? || r.metadata.documentType == where
  }

  /** The ids the query ranks. */
  function Candidates(records: map<string, Record>, where: Option<string>): (c: set<string>)
    ensures c <= records.Keys
    ensures forall k :: k in c <==> k in records && Matches(records[k], where)
  {
    set k | k in records && Matches(records[k], where)
  }

  function Dist(records: map<string, Record>, distance: (string, Embedding) -> real, query: string, k: string): real
    requires k in records
  {
    distance(query, records[k].embedding)
  }

  /**
   * `ids` is an answer the store may give for `n_results = n`: min(n, |cands|)
   * distinct candidates, nearest first, none farther than a candidate left out.
   */
  ghost predicate IsNearest(records: map<string, Record>, distance: (string, Embedding) -> real, query: string,
                            cands: set<string>, n: nat, ids: seq<string>)
    requires cands <= records.Keys
  {
    && |ids| == (if n < |cands| then n else |cands|)
    && Distinct(ids)
    && (forall i :: 0 <= i < |ids| ==> ids[i] in cands)
    && (forall i, j :: 0 <= i < j < |ids| ==> Dist(records, distance, query, ids[i]) <= Dist(records, distance, query, ids[j]))
    && (forall i, k :: 0 <= i < |ids| && k in cands && k !in Elems(ids) ==>
          Dist(records, distance, query, ids[i]) <= Dist(records, distance, query, k))
  }

  /** `x` is a member of `s` at least distance from the query. */
  predicate Closest(records: map<string, Record>, distance: (string, Embedding) -> real, query: string,
                    s: set<string>, x: string)
    requires s <= records.Keys
  {
    x in s && forall y :: y in s ==> Dist(records, distance, query, x) <= Dist(records, distance, query, y)
  }

  /** Every finite non-empty set of ids has one at least distance. */
  lemma {:induction false} MinExists(records: map<string, Record>, distance: (string, Embedding) -> real, query: string,
                                     s: set<string>)
    requires s <= records.Keys && s != {}
    ensures exists x :: Closest(records, distance, query, s, x)
    decreases |s|
  {
    var a :| a in s;
    if s == {a} {
      assert Closest(records, distance, query, s, a);
    } else {
      MinExists(records, distance, query, s - {a});
      var m :| Closest(records, distance, query, s - {a}, m);
      var best := if Dist(records, distance, query, a) <= Dist(records, distance, query, m) then a else m;
      forall y | y in s ensures Dist(records, distance, query, best) <= Dist(records, distance, query, y) {
        if y != a {
          assert y in s - {a};
        }
      }
      assert Closest(records, distance, query, s, best);
    }
  }

  /** What holds after each pick: the chosen ids, nearest first, and the candidates still to rank. */
  ghost predicate Selection(records: map<string, Record>, distance: (string, Embedding) -> real, query: string,
                            cands: set<string>, ids: seq<string>, remaining: set<string>)
    requires cands <= records.Keys
  {
    && remaining <= cands
    && Elems(ids) + remaining == cands && Elems(ids) !! remaining
    && |ids| + |remaining| == |cands|
    && Distinct(ids)
    && (forall i :: 0 <= i < |ids| ==> ids[i] in cands)
    && (forall i, j :: 0 <= i < j < |ids| ==> Dist(records, distance, query, ids[i]) <= Dist(records, distance, query, ids[j]))
    && (forall i, k :: 0 <= i < |ids| && k in remaining ==> Dist(records, distance, query, ids[i]) <= Dist(records, distance, query, k))
  }

  lemma SelectionStep(records: map<string, Record>, distance: (string, Embedding) -> real, query: string,
                      cands: set<string>, ids: seq<string>, remaining: set<string>, x: string)
    requires cands <= records.Keys && Selection(records, distance, query, cands, ids, remaining)
    requires remaining <= records.Keys && Closest(records, distance, query, remaining, x)
    ensures Selection(records, distance, query, cands, ids + [x], remaining - {x})
  {
    DistinctSnoc(ids, x);
    assert |remaining - {x}| == |remaining| - 1;
    SortedSnoc(records, distance, query, ids, x);
    BelowSnoc(records, distance, query, ids, remaining, x);
  }

  /** Appending an id no nearer than any chosen one keeps the ids nearest first. */
  lemma SortedSnoc(records: map<string, Record>, distance: (string, Embedding) -> real, query: string,
                   ids: seq<string>, x: string)
    requires x in records && forall i :: 0 <= i < |ids| ==> ids[i] in records
    requires forall i, j :: 0 <= i < j < |ids| ==> Dist(records, distance, query, ids[i]) <= Dist(records, distance, query, ids[j])
    requires forall i :: 0 <= i < |ids| ==> Dist(records, distance, query, ids[i]) <= Dist(records, distance, query, x)
    ensures forall i, j :: 0 <= i < j < |ids + [x]| ==>
              Dist(records, distance, query, (ids + [x])[i]) <= Dist(records, distance, query, (ids + [x])[j])
  {
    var l := ids + [x];
    forall i, j | 0 <= i < j < |l| ensures Dist(records, distance, query, l[i]) <= Dist(records, distance, query, l[j]) {
      assert l[i] == ids[i];
      if j < |ids| {
        assert l[j] == ids[j];
      }
    }
  }

  /** Taking a nearest remaining id keeps every chosen id no farther than those still remaining. */
  lemma BelowSnoc(records: map<string, Record>, distance: (string, Embedding) -> real, query: string,
                  ids: seq<string>, remaining: set<string>, x: string)
    requires remaining <= records.Keys && forall i :: 0 <= i < |ids| ==> ids[i] in records
    requires forall i, k :: 0 <= i < |ids| && k in remaining ==> Dist(records, distance, query, ids[i]) <= Dist(records, distance, query, k)
    requires Closest(records, distance, query, remaining, x)
    ensures forall i :: 0 <= i < |ids| ==> Dist(records, distance, query, ids[i]) <= Dist(records, distance, query, x)
    ensures forall i, k :: 0 <= i < |ids + [x]| && k in remaining - {x} ==>
              Dist(records, distance, query, (ids + [x])[i]) <= Dist(records, distance, query, k)
  {
    var l := ids + [x];
    forall i, k | 0 <= i < |l| && k in remaining - {x} ensures Dist(records, distance, query, l[i]) <= Dist(records, distance, query, k) {
      if i < |ids| {
        assert l[i] == ids[i];
      }
    }
  }

  lemma SelectionDone(records: map<string, Record>, distance: (string, Embedding) -> real, query: string,
                      cands: set<string>, n: nat, ids: seq<string>, remaining: set<string>)
    requires cands <= records.Keys && Selection(records, distance, query, cands, ids, remaining)
    requires |ids| <= n && (|ids| == n || remaining == {})
    ensures IsNearest(records, distance, query, cands, n, ids)
  {
  }

  /** Picks the nearest remaining candidate until `n` are chosen or none is left. */
  method SelectNearest(records: map<string, Record>, distance: (string, Embedding) -> real, query: string,
                       cands: set<string>, n: nat)
    returns (ids: seq<string>)
    requires cands <= records.Keys
    ensures IsNearest(records, distance, query, cands, n, ids)
  {
    ids := [];
    var remaining := cands;
    while |ids| < n && remaining != {}
      invariant Selection(records, distance, query, cands, ids, remaining) && |ids| <= n
      decreases |remaining|
    {
      MinExists(records, distance, query, remaining);
      var x :| Closest(records, distance, query, remaining, x);
      SelectionStep(records, distance, query, cands, ids, remaining, x);
      ids := ids + [x];
      remaining := remaining - {x};
    }
    SelectionDone(records, distance, query, cands, n, ids, remaining);
  }

  /** One result as `search` formats it: the relevance score is one minus the distance. */
  function ToResult(r: Record, d: real): (res: SearchResult)
    ensures res.content == r.document && res.metadata == r.metadata
    ensures res.distance == d && res.relevanceScore + res.distance == 1.0
  {
    SearchResult(r.document, r.metadata, d, 1.0 - d)
  }

  /** Results in the store's order, one per returned id. */
  function Reshape(records: map<string, Record>, distance: (string, Embedding) -> real, query: string, ids: seq<string>): (rs: seq<SearchResult>)
    requires forall i :: 0 <= i < |ids| ==> ids[i] in records
    ensures |rs| == |ids|
  {
    seq(|ids|, i requires 0 <= i < |ids| => ToResult(records[ids[i]], Dist(records, distance, query, ids[i])))
  }

  // ---------------------------------------------------------------------------
  // Lemmas

  /** Results come nearest first: relevance never increases down the list. */
  lemma ResultsByRelevance(records: map<string, Record>, distance: (string, Embedding) -> real, query: string,
                           cands: set<string>, n: nat, ids: seq<string>)
    requires cands <= records.Keys && IsNearest(records, distance, query, cands, n, ids)
    ensures forall i, j :: 0 <= i < j < |ids| ==>
              Reshape(records, distance, query, ids)[i].relevanceScore >= Reshape(records, distance, query, ids)[j].relevanceScore
  {
  }

  /** With a filter, every result carries the requested `document_type`; without one, every record is a candidate. */
  lemma FilterRespected(records: map<string, Record>, distance: (string, Embedding) -> real, query: string,
                        documentType: Option<string>, n: nat, ids: seq<string>)
    requires IsNearest(records, distance, query, Candidates(records, WhereFilter(documentType)), n, ids)
    ensures WhereFilter(documentType).Some? ==>
              forall i :: 0 <= i < |ids| ==> Reshape(records, distance, query, ids)[i].metadata.documentType == documentType
    ensures WhereFilter(documentType).None? ==> Candidates(records, WhereFilter(documentType)) == records.Keys
  {
  }

  /** Asking for at least as many results as there are candidates returns every candidate. */
  lemma AllCandidatesWhenFew(records: map<string, Record>, distance: (string, Embedding) -> real, query: string,
                             cands: set<string>, n: nat, ids: seq<string>)
    requires cands <= records.Keys && IsNearest(records, distance, query, cands, n, ids)
    requires |cands| <= n
    ensures Elems(ids) == cands
  {
    DistinctCard(ids);
    var rest := cands - Elems(ids);
    assert cands == Elems(ids) + rest && Elems(ids) !! rest;
    assert |cands| == |Elems(ids)| + |rest|;
    assert rest == {};
  }
}
