/**
 * The ChromaDB collection seen as a map from chunk id to record, and its
 * `upsert`: every (id, document, metadata, embedding) entry of a batch is
 * written, replacing the record already stored under that id.
 */
module Collection {
  import opened Records

  /** The ids of a batch, as a set. */
  function Elems(ids: seq<string>): set<string> {
    set i | 0 <= i < |ids| :: ids[i]
  }

  lemma ElemsSnoc(ids: seq<string>, x: string)
    ensures Elems(ids + [x]) == Elems(ids) + {x}
  {
    var l := ids + [x];
    forall k | k in Elems(l) ensures k in Elems(ids) + {x} {
      var i :| 0 <= i < |l| && l[i] == k;
      if i < |ids| {
        assert ids[i] == k;
      }
    }
    forall k | k in Elems(ids) + {x} ensures k in Elems(l) {
      if k == x {
        assert l[|ids|] == x;
      } else {
        var i :| 0 <= i < |ids| && ids[i] == k;
        assert l[i] == k;
      }
    }
  }

  /** No id occurs twice. */
  predicate Distinct(ids: seq<string>) {
    forall i, j :: 0 <= i < j < |ids| ==> ids[i] != ids[j]
  }

  /** Appending an id not yet present keeps the ids distinct. */
  lemma DistinctSnoc(ids: seq<string>, x: string)
    requires Distinct(ids) && x !in Elems(ids)
    ensures Distinct(ids + [x]) && Elems(ids + [x]) == Elems(ids) + {x}
  {
    ElemsSnoc(ids, x);
    var l := ids + [x];
    forall i, j | 0 <= i < j < |l| ensures l[i] != l[j] {
      assert l[i] == ids[i];
      if j == |ids| {
        assert ids[i] in Elems(ids);
      } else {
        assert l[j] == ids[j];
      }
    }
  }

  /** The records a batch writes, entry by entry. */
  function BatchRecords(documents: seq<string>, metadatas: seq<Metadata>, embeddings: seq<Embedding>): (r: seq<Record>)
    requires |documents| == |metadatas| == |embeddings|
    ensures |r| == |documents|
    ensures forall i :: 0 <= i < |r| ==> r[i] == Record(documents[i], metadatas[i], embeddings[i])
  {
    seq(|documents|, i requires 0 <= i < |documents| => Record(documents[i], metadatas[i], embeddings[i]))
  }

  /** Writes the entries of a batch in order, each replacing what was stored under its id. */
  function UpsertAll(m: map<string, Record>, ids: seq<string>, recs: seq<Record>): map<string, Record>
    requires |ids| == |recs|
    decreases |ids|
  {
    if ids == [] then m
    else UpsertAll(m, ids[..|ids| - 1], recs[..|recs| - 1])[ids[|ids| - 1] := recs[|recs| - 1]]
  }

  /**
   * After an upsert of distinct ids the collection holds the old ids and the
   * batch's ids, every batch id maps to its new record, and every other id
   * keeps its old record.
   */
  lemma UpsertAllSpec(m: map<string, Record>, ids: seq<string>, recs: seq<Record>)
    requires |ids| == |recs| && Distinct(ids)
    ensures UpsertAll(m, ids, recs).Keys == m.Keys + Elems(ids)
    ensures forall i :: 0 <= i < |ids| ==> UpsertAll(m, ids, recs)[ids[i]] == recs[i]
    ensures forall k :: k in m && k !in Elems(ids) ==> UpsertAll(m, ids, recs)[k] == m[k]
  {
    UpsertAllKeys(m, ids, recs);
    UpsertAllWrites(m, ids, recs);
    UpsertAllKeeps(m, ids, recs);
  }

  lemma {:induction false} UpsertAllKeys(m: map<string, Record>, ids: seq<string>, recs: seq<Record>)
    requires |ids| == |recs|
    ensures UpsertAll(m, ids, recs).Keys == m.Keys + Elems(ids)
    decreases |ids|
  {
    if ids != [] {
      var n := |ids|;
      UpsertAllKeys(m, ids[..n - 1], recs[..n - 1]);
      assert ids == ids[..n - 1] + [ids[n - 1]];
      ElemsSnoc(ids[..n - 1], ids[n - 1]);
    }
  }

  lemma {:induction false} UpsertAllWrites(m: map<string, Record>, ids: seq<string>, recs: seq<Record>)
    requires |ids| == |recs| && Distinct(ids)
    ensures forall i :: 0 <= i < |ids| ==> ids[i] in UpsertAll(m, ids, recs) && UpsertAll(m, ids, recs)[ids[i]] == recs[i]
    decreases |ids|
  {
    if ids != [] {
      var n := |ids|;
      var ids', recs' := ids[..n - 1], recs[..n - 1];
      DistinctPrefix(ids);
      UpsertAllWrites(m, ids', recs');
      var prev := UpsertAll(m, ids', recs');
      assert UpsertAll(m, ids, recs) == prev[ids[n - 1] := recs[n - 1]];
      forall i | 0 <= i < n - 1 ensures ids[i] in UpsertAll(m, ids, recs) && UpsertAll(m, ids, recs)[ids[i]] == recs[i] {
        assert ids[i] != ids[n - 1];
        assert ids'[i] == ids[i] && recs'[i] == recs[i];
      }
    }
  }

  lemma DistinctPrefix(ids: seq<string>)
    requires ids != [] && Distinct(ids)
    ensures Distinct(ids[..|ids| - 1])
  {
    var ids' := ids[..|ids| - 1];
    forall i, j | 0 <= i < j < |ids'| ensures ids'[i] != ids'[j] {
      assert ids'[i] == ids[i] && ids'[j] == ids[j];
    }
  }

  lemma {:induction false} UpsertAllKeeps(m: map<string, Record>, ids: seq<string>, recs: seq<Record>)
    requires |ids| == |recs|
    ensures UpsertAll(m, ids, recs).Keys == m.Keys + Elems(ids)
    ensures forall k :: k in m && k !in Elems(ids) ==> UpsertAll(m, ids, recs)[k] == m[k]
    decreases |ids|
  {
    UpsertAllKeys(m, ids, recs);
    if ids != [] {
      var n := |ids|;
      var ids' := ids[..n - 1];
      UpsertAllKeeps(m, ids', recs[..n - 1]);
      assert ids == ids' + [ids[n - 1]];
      ElemsSnoc(ids', ids[n - 1]);
    }
  }

  /** Re-upserting the same batch changes nothing: reloading unchanged content adds no duplicates. */
  lemma UpsertIdempotent(m: map<string, Record>, ids: seq<string>, recs: seq<Record>)
    requires |ids| == |recs| && Distinct(ids)
    ensures UpsertAll(UpsertAll(m, ids, recs), ids, recs) == UpsertAll(m, ids, recs)
  {
    var once := UpsertAll(m, ids, recs);
    UpsertAllSpec(m, ids, recs);
    UpsertAllSpec(once, ids, recs);
    var twice := UpsertAll(once, ids, recs);
    forall k | k in twice ensures twice[k] == once[k] {
      if k in Elems(ids) {
        var i :| 0 <= i < |ids| && ids[i] == k;
      }
    }
  }

  /** Upserting a batch whose ids are all stored already leaves the count unchanged, whatever the new records. */
  lemma UpsertKeepsCount(m: map<string, Record>, ids: seq<string>, recs: seq<Record>)
    requires |ids| == |recs| && Distinct(ids)
    requires Elems(ids) <= m.Keys
    ensures |UpsertAll(m, ids, recs)| == |m|
  {
    UpsertAllSpec(m, ids, recs);
    assert UpsertAll(m, ids, recs).Keys == m.Keys;
  }

  /** Distinct ids have as many elements as entries. */
  lemma {:induction false} DistinctCard(ids: seq<string>)
    requires Distinct(ids)
    ensures |Elems(ids)| == |ids|
    decreases |ids|
  {
    if ids != [] {
      var ids' := ids[..|ids| - 1];
      DistinctCard(ids');
      assert ids == ids' + [ids[|ids| - 1]];
      ElemsSnoc(ids', ids[|ids| - 1]);
      assert ids[|ids| - 1] !in Elems(ids');
    }
  }

  /** Loading a batch of n distinct ids into an empty collection stores exactly n records. */
  lemma UpsertIntoEmpty(ids: seq<string>, recs: seq<Record>)
    requires |ids| == |recs| && Distinct(ids)
    ensures |UpsertAll(map[], ids, recs)| == |ids|
  {
    UpsertAllSpec(map[], ids, recs);
    DistinctCard(ids);
    assert UpsertAll(map[], ids, recs).Keys == Elems(ids);
  }

  /**
   * Takes up to `limit` distinct elements of a set, in no particular order:
   * a store read with a limit, or Python's `list(s)` when the limit is |s|.
   */
  method Take(s: set<string>, limit: nat) returns (xs: seq<string>)
    ensures Distinct(xs) && Elems(xs) <= s
    ensures |xs| == if limit < |s| then limit else |s|
    ensures limit >= |s| ==> Elems(xs) == s
  {
    xs := [];
    var rest := s;
    while |xs| < limit && rest != {}
      invariant Elems(xs) + rest == s && Elems(xs) !! rest
      invariant |xs| + |rest| == |s| && |xs| <= limit
      invariant Distinct(xs)
      decreases |rest|
    {
      var x :| x in rest;
      DistinctSnoc(xs, x);
      xs := xs + [x];
      rest := rest - {x};
    }
  }
}
