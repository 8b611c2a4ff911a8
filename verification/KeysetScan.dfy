/**
 The keyset scan over enabled channels (controller/channel_upstream_update.go, lines 703-791
 and 1003-1078): batches ordered by id, each after the last id of the one before.
 A snapshot is the set of enabled channel ids a query sees; ids are positive.
 */
module KeysetScan {
  import opened Counting

  /** The rows a query may return: the id filter is only added once a last id is known. */
  function After(table: set<nat>, lastId: nat): set<nat> {
    set x | x in table && (lastId > 0 ==> x > lastId)
  }

  /** `ORDER BY id LIMIT limit` over the rows after `lastId`. */
  function Query(table: set<nat>, lastId: nat, limit: nat): seq<nat>
    decreases limit
  {
    var rows := After(table, lastId);
    if limit == 0 || rows == {} then []
    else var m := MinOf(rows); [m] + Query(table, m, limit - 1)
  }

  /** A query returns ascending rows after the last id. */
  lemma {:induction false} QueryAscends(table: set<nat>, lastId: nat, limit: nat)
    requires 0 !in table
    ensures var rows := Query(table, lastId, limit);
            && Ascending(rows) && |rows| <= limit
            && (forall k :: 0 <= k < |rows| ==> rows[k] in table && rows[k] > lastId)
    decreases limit
  {
    var rows := After(table, lastId);
    if limit > 0 && rows != {} {
      QueryAscends(table, MinOf(rows), limit - 1);
    }
  }

  /** A query skips no row: what it leaves out lies beyond a full batch. */
  lemma {:induction false} QueryComplete(table: set<nat>, lastId: nat, limit: nat, x: nat)
    requires 0 !in table && limit > 0 && x in table && x > lastId
    ensures var rows := Query(table, lastId, limit);
            x in rows || (|rows| == limit && x > rows[|rows| - 1])
    decreases limit
  {
    var rows := After(table, lastId);
    assert x in rows;
    var m := MinOf(rows);
    if x > m && limit > 1 {
      QueryComplete(table, m, limit - 1, x);
    }
  }

  /** `id` is enabled in each of the first `n` snapshots. */
  ghost predicate Stays(snapshots: seq<set<nat>>, n: nat, id: nat)
    requires n <= |snapshots|
  {
    forall q :: 0 <= q < n ==> id in snapshots[q]
  }

  ghost predicate Appears(snapshots: seq<set<nat>>, n: nat, id: nat)
    requires n <= |snapshots|
  {
    exists q :: 0 <= q < n && id in snapshots[q]
  }

  /** Every visited id was in one of the first `n` snapshots. */
  ghost predicate Seen(snapshots: seq<set<nat>>, n: nat, visited: seq<nat>)
    requires n <= |snapshots|
  {
    forall k :: 0 <= k < |visited| ==> Appears(snapshots, n, visited[k])
  }

  /** What has been visited after `n` full batches. */
  ghost predicate Progress(snapshots: seq<set<nat>>, n: nat, visited: seq<nat>, lastId: nat) {
    && n <= |snapshots| && Ascending(visited) && Seen(snapshots, n, visited)
    && (if visited == [] then lastId == 0 else lastId == visited[|visited| - 1])
    && (forall id :: 0 < id <= lastId && Stays(snapshots, n, id) ==> id in visited)
  }

  lemma BatchStep(snapshots: seq<set<nat>>, n: nat, visited: seq<nat>, lastId: nat, batch: nat)
    requires Progress(snapshots, n, visited, lastId) && n < |snapshots| && 0 !in snapshots[n] && batch > 0
    ensures var rows := Query(snapshots[n], lastId, batch);
            && Ascending(visited + rows) && Seen(snapshots, n + 1, visited + rows)
            && (rows != [] ==> Progress(snapshots, n + 1, visited + rows, rows[|rows| - 1]))
            && (|rows| < batch ==> forall id :: id > 0 && Stays(snapshots, n + 1, id) ==> id in visited + rows)
  {
    var rows := Query(snapshots[n], lastId, batch);
    QueryAscends(snapshots[n], lastId, batch);
    var all := visited + rows;
    assert forall k :: 0 <= k < |visited| ==> visited[k] <= lastId;
    forall k | 0 <= k < |all| ensures Appears(snapshots, n + 1, all[k]) {
      if k >= |visited| {
        assert all[k] in snapshots[n];
      } else {
        assert Appears(snapshots, n, visited[k]);
      }
    }
    forall id | id > 0 && Stays(snapshots, n + 1, id) && (|rows| < batch || id <= rows[|rows| - 1])
      ensures id in all
    {
      assert id in snapshots[n];
      assert Stays(snapshots, n, id);
      if id <= lastId {
        assert id in visited;
      } else {
        QueryComplete(snapshots[n], lastId, batch, id);
        assert id in rows;
      }
    }
  }

  lemma AscendingDistinct(xs: seq<nat>)
    requires Ascending(xs)
    ensures Distinct(xs)
  {
  }

  lemma PrefixScan(snapshots: seq<set<nat>>, n: nat, visited: seq<nat>, k: nat)
    requires n <= |snapshots| && Ascending(visited) && Seen(snapshots, n, visited) && k <= |visited|
    ensures Ascending(visited[..k]) && Seen(snapshots, n, visited[..k])
  {
    assert forall i :: 0 <= i < k ==> visited[..k][i] == visited[i];
  }

  /** The channels of one batch, one by one, until the context is cancelled. */
  method ProcessBatch(before: seq<nat>, rows: seq<nat>, budget: nat) returns (visited: seq<nat>, cut: bool)
    requires |before| <= budget
    ensures |visited| <= budget && before <= visited && visited <= before + rows
    ensures !cut ==> visited == before + rows
    ensures cut ==> |visited| == budget
  {
    visited := before;
    for i := 0 to |rows|
      invariant visited == before + rows[..i] && |visited| <= budget
    {
      if |visited| == budget { return visited, true; }
      visited := visited + [rows[i]];
    }
    assert rows[..|rows|] == rows;
    return visited, false;
  }

  /** The scan. `snapshots[q]` is what the q-th query sees; running out of them is a query error.
      The context is cancelled once `budget` channels were processed. */
  method Scan(snapshots: seq<set<nat>>, batch: nat, budget: nat)
    returns (visited: seq<nat>, queries: nat, finished: bool)
    requires batch > 0 && forall q :: 0 <= q < |snapshots| ==> 0 !in snapshots[q]
    ensures queries <= |snapshots|
    // never twice, in ascending order, whatever rows come and go between batches
    ensures Ascending(visited) && Seen(snapshots, queries, visited) && |visited| <= budget
    // a finished scan visited every channel that was there at each of its queries
    ensures finished ==> forall id :: id > 0 && Stays(snapshots, queries, id) ==> id in visited
    // an unfinished one was cut short, or took a full batch from every query
    ensures !finished ==> |visited| == budget || (queries == |snapshots| && |visited| == batch * queries)
  {
    visited, queries, finished := [], 0, false;
    var lastId := 0;
    while queries < |snapshots|
      invariant Progress(snapshots, queries, visited, lastId)
      invariant |visited| == batch * queries && |visited| <= budget
    {
      var rows := Query(snapshots[queries], lastId, batch);
      BatchStep(snapshots, queries, visited, lastId, batch);
      BatchSize(snapshots[queries], lastId, batch);
      ghost var all := visited + rows;
      assert batch * (queries + 1) == batch * queries + batch;
      queries := queries + 1;
      var cut;
      visited, cut := ProcessBatch(visited, rows, budget);
      if cut {
        PrefixScan(snapshots, queries, all, |visited|);
        assert visited == all[..|visited|];
        return visited, queries, false;
      }
      if |rows| < batch { return visited, queries, true; }
      lastId := rows[|rows| - 1];
    }
  }

  lemma BatchSize(table: set<nat>, lastId: nat, batch: nat)
    requires 0 !in table
    ensures |Query(table, lastId, batch)| <= batch
  {
    QueryAscends(table, lastId, batch);
  }

  /** Over a stable table the scan finishes within one query more than it has full batches, and
      visits exactly the table. */
  method ScanStable(table: set<nat>, queries: nat, batch: nat) returns (visited: seq<nat>)
    requires batch > 0 && 0 !in table && batch * queries > |table|
    ensures Ascending(visited) && Elements(visited) == table
  {
    var snapshots := seq(queries, _ => table);
    assert forall q :: 0 <= q < |snapshots| ==> snapshots[q] == table;
    var made, finished;
    visited, made, finished := Scan(snapshots, batch, |table| + 1);
    assert queries > 0;
    forall x | x in visited ensures x in table {
      var k :| 0 <= k < |visited| && visited[k] == x;
      assert Appears(snapshots, made, visited[k]);
    }
    AscendingDistinct(visited);
    DistinctSize(visited);
    SubsetAtMost(Elements(visited), table);
    assert finished;
    forall x | x in table ensures x in visited {
      assert Stays(snapshots, made, x);
    }
  }
}
