/**
 * The summary `get_document_stats` computes over a sample of stored
 * metadatas: a histogram of document types and the set of sources, with
 * `'unknown'` standing in for a missing key.
 */
module Stats {
  import opened Wrappers
  import opened Records

  /** The sample size `collection.get(limit=1000)` asks for. */
  const SampleLimit: nat := 1000

  /** `metadata.get('document_type', 'unknown')`. */
  function TypeKey(m: Metadata): string {
    m.documentType.GetOr("unknown")
  }

  /** `metadata.get('source', 'unknown')`. */
  function SourceKey(m: Metadata): string {
    m.source.GetOr("unknown")
  }

  /** `doc_types` after the metadatas have been counted in order. */
  function Histogram(ms: seq<Metadata>): map<string, nat>
    decreases |ms|
  {
    if ms == [] then map[]
    else
      var h := Histogram(ms[..|ms| - 1]);
      var t := TypeKey(ms[|ms| - 1]);
      h[t := (if t in h then h[t] else 0) + 1]
  }

  /** `sources` after the metadatas have been added in order. */
  function Sources(ms: seq<Metadata>): set<string>
    decreases |ms|
  {
    if ms == [] then {} else Sources(ms[..|ms| - 1]) + {SourceKey(ms[|ms| - 1])}
  }

  /** How many metadatas have type `t`. */
  function CountType(ms: seq<Metadata>, t: string): nat
    decreases |ms|
  {
    if ms == [] then 0 else CountType(ms[..|ms| - 1], t) + (if TypeKey(ms[|ms| - 1]) == t then 1 else 0)
  }

  /** The sum of a histogram's counts. */
  ghost function Total(h: map<string, nat>): nat
    decreases |h|
  {
    if h == map[] then 0 else var k :| k in h; h[k] + Total(h - {k})
  }

  /** The counting loop of `get_document_stats`: the type histogram and the source set of the metadatas. */
  method CountMetadatas(ms: seq<Metadata>) returns (docTypes: map<string, nat>, sources: set<string>)
    ensures docTypes == Histogram(ms) && sources == Sources(ms)
  {
    docTypes := map[];
    sources := {};
    for i := 0 to |ms|
      invariant docTypes == Histogram(ms[..i]) && sources == Sources(ms[..i])
    {
      CountStep(ms, i);
      var t := TypeKey(ms[i]);
      docTypes := docTypes[t := (if t in docTypes then docTypes[t] else 0) + 1];
      sources := sources + {SourceKey(ms[i])};
    }
    assert ms[..|ms|] == ms;
  }

  /** Counting one more metadata: its type's count goes up by one and its source joins the set. */
  lemma CountStep(ms: seq<Metadata>, i: nat)
    requires i < |ms|
    ensures var h, t := Histogram(ms[..i]), TypeKey(ms[i]);
            Histogram(ms[..i + 1]) == h[t := (if t in h then h[t] else 0) + 1]
    ensures Sources(ms[..i + 1]) == Sources(ms[..i]) + {SourceKey(ms[i])}
  {
    assert ms[..i + 1][..i] == ms[..i];
  }

  // ---------------------------------------------------------------------------
  // Lemmas

  /** The sum does not depend on which key is taken first. */
  lemma {:induction false} TotalRemove(h: map<string, nat>, k: string)
    requires k in h
    ensures Total(h) == h[k] + Total(h - {k})
    decreases |h|
  {
    var k' :| k' in h && Total(h) == h[k'] + Total(h - {k'});
    if k' != k {
      var h1, h2 := h - {k'}, h - {k};
      assert |h1| < |h| && |h2| < |h|;
      TotalRemove(h1, k);
      TotalRemove(h2, k');
      assert h1 - {k} == h2 - {k'};
    }
  }

  /** Counting one more item under key `t` adds one to the sum. */
  lemma TotalIncrement(h: map<string, nat>, t: string)
    ensures Total(h[t := (if t in h then h[t] else 0) + 1]) == Total(h) + 1
  {
    var h' := h[t := (if t in h then h[t] else 0) + 1];
    TotalRemove(h', t);
    if t in h {
      TotalRemove(h, t);
      assert h' - {t} == h - {t};
    } else {
      assert h' - {t} == h;
    }
  }

  /** The counts of the histogram sum to the number of metadatas counted. */
  lemma {:induction false} HistogramTotal(ms: seq<Metadata>)
    ensures Total(Histogram(ms)) == |ms|
    decreases |ms|
  {
    if ms != [] {
      HistogramTotal(ms[..|ms| - 1]);
      TotalIncrement(Histogram(ms[..|ms| - 1]), TypeKey(ms[|ms| - 1]));
    }
  }

  /** A type is in the histogram exactly when some metadata has it, and its count is the number of such metadatas. */
  lemma {:induction false} HistogramCounts(ms: seq<Metadata>, t: string)
    ensures t in Histogram(ms) <==> CountType(ms, t) > 0
    ensures t in Histogram(ms) ==> Histogram(ms)[t] == CountType(ms, t)
    decreases |ms|
  {
    if ms != [] {
      HistogramCounts(ms[..|ms| - 1], t);
    }
  }

  /** A missing `document_type` is counted under "unknown". */
  lemma MissingTypeIsUnknown(ms: seq<Metadata>, i: nat)
    requires i < |ms| && ms[i].documentType.None?
    ensures "unknown" in Histogram(ms)
  {
    CountPositive(ms, i);
    HistogramCounts(ms, "unknown");
  }

  lemma {:induction false} CountPositive(ms: seq<Metadata>, i: nat)
    requires i < |ms|
    ensures CountType(ms, TypeKey(ms[i])) > 0
    decreases |ms|
  {
    if i < |ms| - 1 {
      CountPositive(ms[..|ms| - 1], i);
    }
  }

  /** The sources are exactly those of the metadatas, so there are no more of them than metadatas. */
  lemma {:induction false} SourcesSpec(ms: seq<Metadata>)
    ensures forall s :: s in Sources(ms) <==> exists i :: 0 <= i < |ms| && SourceKey(ms[i]) == s
    ensures |Sources(ms)| <= |ms|
    decreases |ms|
  {
    if ms != [] {
      var init := ms[..|ms| - 1];
      SourcesSpec(init);
      forall s | s in Sources(ms) ensures exists i :: 0 <= i < |ms| && SourceKey(ms[i]) == s {
        if s in Sources(init) {
          var i :| 0 <= i < |init| && SourceKey(init[i]) == s;
          assert ms[i] == init[i];
        } else {
          assert SourceKey(ms[|ms| - 1]) == s;
        }
      }
      forall s | exists i :: 0 <= i < |ms| && SourceKey(ms[i]) == s ensures s in Sources(ms) {
        var i :| 0 <= i < |ms| && SourceKey(ms[i]) == s;
        if i < |ms| - 1 {
          assert init[i] == ms[i];
        }
      }
    }
  }
}
