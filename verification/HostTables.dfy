/** What a host's tables hold: the last stored snapshot of each, one row per primary key. */
module HostTables {
  import opened Strings

  datatype Table = Containers | Images | Volumes | Networks

  /** One reported row: its primary key within the host, the digest of an image ("" if
      none, and for the other tables), and all other columns. An image's key is its id,
      repository and tag. */
  datatype Row = Row(key: seq<string>, digest: string, columns: string)

  ghost predicate DistinctKeys(rows: seq<Row>) {
    forall i, j :: 0 <= i < j < |rows| ==> rows[i].key != rows[j].key
  }

  predicate Reports(rows: seq<Row>, key: seq<string>) {
    exists i | 0 <= i < |rows| :: rows[i].key == key
  }

  /** The digest dedupeHostImages settles on for a key. */
  function Best(rows: seq<Row>, key: seq<string>): string
    decreases |rows|
  {
    if rows == [] then ""
    else
      var n := |rows| - 1;
      var best := Best(rows[..n], key);
      if rows[n].key == key && rows[n].digest != "" && (best == "" || Less(rows[n].digest, best))
      then rows[n].digest else best
  }

  /** The first row reported for a key. */
  function First(rows: seq<Row>, key: seq<string>): (r: Row)
    requires Reports(rows, key)
    ensures r in rows && r.key == key
  {
    if rows[0].key == key then rows[0] else First(rows[1..], key)
  }

  function Merged(rows: seq<Row>, key: seq<string>): Row
    requires Reports(rows, key)
  {
    First(rows, key).(digest := Best(rows, key))
  }

  function Deduped(rows: seq<Row>): set<Row> {
    set r | r in rows :: Merged(rows, r.key)
  }

  predicate DigestOf(rows: seq<Row>, key: seq<string>, digest: string) {
    exists i | 0 <= i < |rows| :: rows[i].key == key && rows[i].digest == digest
  }

  /** Best is the smallest non-empty digest reported for the key, "" when there is none. */
  lemma {:induction false} BestIsSmallest(rows: seq<Row>, key: seq<string>)
    ensures Best(rows, key) != "" ==> DigestOf(rows, key, Best(rows, key))
    ensures forall d :: d != "" && DigestOf(rows, key, d) ==> Best(rows, key) != "" && !Less(d, Best(rows, key))
    decreases |rows|
  {
    if rows != [] {
      var n := |rows| - 1;
      var front, r := rows[..n], rows[n];
      BestIsSmallest(front, key);
      var best, before := Best(rows, key), Best(front, key);
      assert DigestOf(front, key, before) ==> DigestOf(rows, key, before);
      forall d | d != "" && DigestOf(rows, key, d) ensures best != "" && !Less(d, best) {
        LessTotal(r.digest, before);
        LessTotal(d, d);
        if r.key == key && r.digest == d {
        } else {
          assert DigestOf(front, key, d);
          if best != before && Less(d, best) && before != "" { LessTransitive(d, best, before); }
        }
      }
    }
  }

  lemma {:induction false} SameDigests(rows: seq<Row>, other: seq<Row>, key: seq<string>)
    requires multiset(rows) == multiset(other)
    ensures Reports(rows, key) <==> Reports(other, key)
    ensures forall d :: DigestOf(rows, key, d) <==> DigestOf(other, key, d)
  {
    forall i | 0 <= i < |rows| ensures rows[i] in other { assert rows[i] in multiset(rows); }
    forall i | 0 <= i < |other| ensures other[i] in rows { assert other[i] in multiset(other); }
  }

  /** The digest kept for an image does not depend on the order it was reported in. */
  lemma {:induction false} BestAnyOrder(rows: seq<Row>, other: seq<Row>, key: seq<string>)
    requires multiset(rows) == multiset(other)
    ensures Best(rows, key) == Best(other, key)
  {
    SameDigests(rows, other, key);
    BestIsSmallest(rows, key);
    BestIsSmallest(other, key);
    LessTotal(Best(rows, key), Best(other, key));
  }

  /** Rows of the same image differ in nothing but their digest. */
  ghost predicate AgreeButDigest(rows: seq<Row>) {
    forall r, q :: r in rows && q in rows && r.key == q.key ==> r.columns == q.columns
  }

  /** One row per (id, repository, tag), the same set in whatever order Docker lists them. */
  lemma {:induction false} DedupedAnyOrder(rows: seq<Row>, other: seq<Row>)
    requires multiset(rows) == multiset(other) && AgreeButDigest(rows)
    ensures Deduped(rows) == Deduped(other)
  {
    forall r | r in rows ensures r in other { assert r in multiset(rows); }
    forall r | r in other ensures r in rows { assert r in multiset(other); }
    forall r | r in rows ensures Merged(rows, r.key) == Merged(other, r.key) {
      BestAnyOrder(rows, other, r.key);
    }
  }

  lemma {:induction false} FirstOfPrefix(rows: seq<Row>, more: seq<Row>, key: seq<string>)
    requires Reports(rows, key)
    ensures Reports(rows + more, key) && First(rows + more, key) == First(rows, key)
    decreases |rows|
  {
    assert forall i :: 0 <= i < |rows| ==> (rows + more)[i] == rows[i];
    if rows[0].key != key {
      assert (rows + more)[1..] == rows[1..] + more;
      FirstOfPrefix(rows[1..], more, key);
    }
  }

  lemma {:induction false} FirstIsLast(rows: seq<Row>, r: Row)
    requires !Reports(rows, r.key)
    ensures Reports(rows + [r], r.key) && First(rows + [r], r.key) == r
    decreases |rows|
  {
    var all := rows + [r];
    assert all[|rows|] == r;
    if rows != [] {
      assert rows[0].key != r.key;
      assert all[1..] == rows[1..] + [r];
      FirstIsLast(rows[1..], r);
    }
  }

  /** dedupeHostImages has read rows: out holds each key once, merged, and index finds it. */
  ghost predicate DedupedSoFar(rows: seq<Row>, out: seq<Row>, index: map<seq<string>, nat>) {
    && (forall key :: key in index <==> Reports(rows, key))
    && (forall key :: key in index ==> index[key] < |out| && out[index[key]].key == key)
    && (forall i :: 0 <= i < |out| ==>
        out[i].key in index && index[out[i].key] == i && out[i] == Merged(rows, out[i].key))
  }

  /** One more row changes the merged row of its own key only. */
  lemma {:induction false} OthersKeep(rows: seq<Row>, r: Row, key: seq<string>)
    requires Reports(rows, key)
    ensures Reports(rows + [r], key) && First(rows + [r], key) == First(rows, key)
    ensures key != r.key ==> Merged(rows + [r], key) == Merged(rows, key)
  {
    assert (rows + [r])[..|rows|] == rows;
    FirstOfPrefix(rows, [r], key);
  }

  lemma {:induction false} MergeInto(rows: seq<Row>, r: Row, out: seq<Row>, index: map<seq<string>, nat>)
    requires DedupedSoFar(rows, out, index) && r.key in index
    ensures Reports(rows + [r], r.key) && First(rows + [r], r.key) == First(rows, r.key)
    ensures DedupedSoFar(rows + [r], out[index[r.key] := Merged(rows + [r], r.key)], index)
  {
    OthersKeep(rows, r, r.key);
    forall key ensures key in index <==> Reports(rows + [r], key) { ReportsNext(rows, r, key); }
    forall i | 0 <= i < |out| && i != index[r.key] ensures out[i] == Merged(rows + [r], out[i].key) {
      OthersKeep(rows, r, out[i].key);
    }
  }

  lemma {:induction false} ReportsNext(rows: seq<Row>, r: Row, key: seq<string>)
    ensures Reports(rows + [r], key) <==> Reports(rows, key) || r.key == key
  {
    var all := rows + [r];
    assert all[|rows|] == r && forall i :: 0 <= i < |rows| ==> all[i] == rows[i];
  }

  lemma {:induction false} BestOfNew(rows: seq<Row>, r: Row)
    requires !Reports(rows, r.key)
    ensures Best(rows + [r], r.key) == r.digest
  {
    assert (rows + [r])[..|rows|] == rows;
    BestOfNone(rows, r.key);
  }

  lemma {:induction false} AddNew(rows: seq<Row>, r: Row, out: seq<Row>, index: map<seq<string>, nat>)
    requires DedupedSoFar(rows, out, index) && r.key !in index
    ensures DedupedSoFar(rows + [r], out + [r], index[r.key := |out|])
  {
    hide Reports, First, Best;
    FirstIsLast(rows, r);
    BestOfNew(rows, r);
    var next := index[r.key := |out|];
    forall key ensures key in next <==> Reports(rows + [r], key) { ReportsNext(rows, r, key); }
    forall i | 0 <= i < |out| ensures Reports(rows + [r], out[i].key) && out[i] == Merged(rows + [r], out[i].key) {
      OthersKeep(rows, r, out[i].key);
    }
  }

  lemma {:induction false} BestOfNone(rows: seq<Row>, key: seq<string>)
    requires !Reports(rows, key)
    ensures Best(rows, key) == ""
    decreases |rows|
  {
    if rows != [] {
      var n := |rows| - 1;
      assert rows[n].key != key && forall i :: 0 <= i < n ==> rows[..n][i] == rows[i];
      BestOfNone(rows[..n], key);
    }
  }

  /** The row kept for a key, after one more row with it. */
  lemma {:induction false} MergedNext(rows: seq<Row>, r: Row, out: seq<Row>, index: map<seq<string>, nat>)
    requires DedupedSoFar(rows, out, index) && r.key in index
    requires Reports(rows + [r], r.key) && First(rows + [r], r.key) == First(rows, r.key)
    ensures var kept := out[index[r.key]];
            Merged(rows + [r], r.key)
            == if r.digest != "" && (kept.digest == "" || Less(r.digest, kept.digest)) then kept.(digest := r.digest)
               else kept
  {
    hide Less, First, Reports;
    assert (rows + [r])[..|rows|] == rows;
  }

  lemma {:induction false} NoneDeduped()
    ensures DedupedSoFar([], [], map[])
  {
  }

  /** dedupeHostImages. */
  method DedupeHostImages(rows: seq<Row>) returns (out: seq<Row>)
    ensures DistinctKeys(out)
    ensures (set r | r in out) == Deduped(rows)
  {
    var index: map<seq<string>, nat> := map[];
    out := [];
    NoneDeduped();
    hide Less, Merged, First, Best, Deduped, DistinctKeys;
    assert rows[..0] == [];
    for n := 0 to |rows|
      invariant DedupedSoFar(rows[..n], out, index)
    {
      var r := rows[n];
      assert rows[..n + 1] == rows[..n] + [r];
      if r.key in index {
        var i := index[r.key];
        MergeInto(rows[..n], r, out, index);
        MergedNext(rows[..n], r, out, index);
        if r.digest != "" && (out[i].digest == "" || Less(r.digest, out[i].digest)) {
          out := out[i := out[i].(digest := r.digest)];
        }
      } else {
        AddNew(rows[..n], r, out, index);
        index := index[r.key := |out|];
        out := out + [r];
      }
    }
    assert rows[..|rows|] == rows;
    DedupedExactly(rows, out, index);
  }

  lemma {:induction false} DedupedExactly(rows: seq<Row>, out: seq<Row>, index: map<seq<string>, nat>)
    requires DedupedSoFar(rows, out, index)
    ensures DistinctKeys(out) && (set r | r in out) == Deduped(rows)
  {
    forall r | r in out ensures r in Deduped(rows) {
      var i :| 0 <= i < |out| && out[i] == r;
      assert First(rows, r.key) in rows;
    }
    forall q | q in rows ensures Merged(rows, q.key) in out {
      assert q.key in index && out[index[q.key]] == Merged(rows, q.key);
    }
  }
}
