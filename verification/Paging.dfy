// Offset paging over a table ordered by sequence number, and cleaners that delete from the very
// table they are paging through (backend/eventloop/db_reconciler.go).
module Paging {
  const ROW_BATCH_SIZE: nat := 100

  function Min(x: nat, y: nat): nat {
    if x <= y then x else y
  }

  // SELECT ... ORDER BY seq_id LIMIT 100 OFFSET offset
  function Batch<T>(table: seq<T>, offset: nat): seq<T> {
    table[Min(offset, |table|)..Min(offset + ROW_BATCH_SIZE, |table|)]
  }

  function Keep<T>(rows: seq<T>, orphan: T -> bool): seq<T> {
    if rows == [] then []
    else if orphan(rows[0]) then Keep(rows[1..], orphan)
    else [rows[0]] + Keep(rows[1..], orphan)
  }

  function Orphans<T>(rows: seq<T>, orphan: T -> bool): nat {
    if rows == [] then 0 else (if orphan(rows[0]) then 1 else 0) + Orphans(rows[1..], orphan)
  }

  function CleanBatch<T>(table: seq<T>, offset: nat, orphan: T -> bool): seq<T> {
    var lo, hi := Min(offset, |table|), Min(offset + ROW_BATCH_SIZE, |table|);
    table[..lo] + Keep(table[lo..hi], orphan) + table[hi..]
  }

  // What a pass leaves: the offset moves on by the batch size although rows were deleted below it.
  function CleanFrom<T>(table: seq<T>, offset: nat, orphan: T -> bool): seq<T>
    decreases |table| + 1 - Min(offset, |table| + 1)
  {
    if offset >= |table| then table
    else
      KeepSplits(table[offset..Min(offset + ROW_BATCH_SIZE, |table|)], orphan);
      CleanFrom(CleanBatch(table, offset, orphan), offset + ROW_BATCH_SIZE, orphan)
  }

  function CleanPass<T>(table: seq<T>, orphan: T -> bool): seq<T> {
    CleanFrom(table, 0, orphan)
  }

  lemma KeepSplits<T>(rows: seq<T>, orphan: T -> bool)
    ensures |Keep(rows, orphan)| + Orphans(rows, orphan) == |rows|
    ensures Orphans(Keep(rows, orphan), orphan) == 0
    ensures Keep(Keep(rows, orphan), orphan) == Keep(rows, orphan)
  {
  }

  lemma {:induction false} Concat<T>(a: seq<T>, b: seq<T>, orphan: T -> bool)
    ensures Keep(a + b, orphan) == Keep(a, orphan) + Keep(b, orphan)
    ensures Orphans(a + b, orphan) == Orphans(a, orphan) + Orphans(b, orphan)
  {
    if a == [] {
      assert a + b == b;
    } else {
      Concat(a[1..], b, orphan);
      assert (a + b)[1..] == a[1..] + b;
    }
  }

  lemma OrphansBound<T>(rows: seq<T>, orphan: T -> bool)
    ensures Orphans(rows, orphan) <= |rows|
  {
  }

  // One batch deletes its orphans and nothing else.
  lemma BatchDeletes<T>(table: seq<T>, offset: nat, orphan: T -> bool)
    ensures var t := CleanBatch(table, offset, orphan);
            && Keep(t, orphan) == Keep(table, orphan)
            && |t| == |table| - Orphans(Batch(table, offset), orphan)
            && Orphans(t, orphan) == Orphans(table, orphan) - Orphans(Batch(table, offset), orphan)
  {
    var lo, hi := Min(offset, |table|), Min(offset + ROW_BATCH_SIZE, |table|);
    var a, b, c := table[..lo], table[lo..hi], table[hi..];
    assert table == a + b + c;
    KeepSplits(b, orphan);
    Concat(a, b, orphan);
    Concat(a + b, c, orphan);
    Concat(a, Keep(b, orphan), orphan);
    Concat(a + Keep(b, orphan), c, orphan);
  }

  // A pass deletes only orphans, and keeps everyone else in order.
  lemma {:induction false} PassDeletesOnlyOrphans<T>(table: seq<T>, offset: nat, orphan: T -> bool)
    ensures var t := CleanFrom(table, offset, orphan);
            && Keep(t, orphan) == Keep(table, orphan)
            && |t| <= |table|
            && Orphans(table, orphan) - Orphans(t, orphan) == |table| - |t|
    decreases |table| + 1 - Min(offset, |table| + 1)
  {
    if offset < |table| {
      BatchDeletes(table, offset, orphan);
      PassDeletesOnlyOrphans(CleanBatch(table, offset, orphan), offset + ROW_BATCH_SIZE, orphan);
    }
  }

  // Rows below the offset that are orphans slipped under it; each deletion lets at most one slip.
  lemma {:induction false} SkippedNeverOutnumberDeleted<T>(table: seq<T>, offset: nat, orphan: T -> bool)
    ensures var t := CleanFrom(table, offset, orphan);
            Orphans(t, orphan) <= Orphans(table[..Min(offset, |table|)], orphan) + (|table| - |t|)
    decreases |table| + 1 - Min(offset, |table| + 1)
  {
    if offset >= |table| {
      assert table[..Min(offset, |table|)] == table;
    } else {
      var hi := Min(offset + ROW_BATCH_SIZE, |table|);
      var a, b, c := table[..offset], table[offset..hi], table[hi..];
      var t := CleanBatch(table, offset, orphan);
      var kept := Keep(b, orphan);
      assert Batch(table, offset) == b;
      BatchDeletes(table, offset, orphan);
      PassDeletesOnlyOrphans(t, offset + ROW_BATCH_SIZE, orphan);
      SkippedNeverOutnumberDeleted(t, offset + ROW_BATCH_SIZE, orphan);
      KeepSplits(b, orphan);
      var slipped := t[..Min(offset + ROW_BATCH_SIZE, |t|)];
      var extra := |slipped| - |a| - |kept|;
      assert slipped == a + kept + c[..extra];
      Concat(a, kept, orphan);
      Concat(a + kept, c[..extra], orphan);
      OrphansBound(c[..extra], orphan);
    }
  }

  // The halving bound: a pass deletes at least half of the orphans it started with.
  lemma HalvingBound<T>(table: seq<T>, orphan: T -> bool)
    ensures 2 * Orphans(CleanPass(table, orphan), orphan) <= Orphans(table, orphan)
  {
    SkippedNeverOutnumberDeleted(table, 0, orphan);
    PassDeletesOnlyOrphans(table, 0, orphan);
  }

  function Passes<T>(table: seq<T>, orphan: T -> bool, n: nat): seq<T>
    decreases n
  {
    if n == 0 then table else Passes(CleanPass(table, orphan), orphan, n - 1)
  }

  function Pow2(n: nat): nat {
    if n == 0 then 1 else 2 * Pow2(n - 1)
  }

  // Fewer than 2^n orphans are gone after n passes, and nobody else is.
  lemma {:induction false} RepeatedPassesReachZero<T>(table: seq<T>, orphan: T -> bool, n: nat)
    requires Orphans(table, orphan) < Pow2(n)
    ensures Orphans(Passes(table, orphan, n), orphan) == 0
    ensures Passes(table, orphan, n) == Keep(table, orphan)
    decreases n
  {
    if n == 0 {
      NoOrphansKeepsAll(table, orphan);
    } else {
      HalvingBound(table, orphan);
      PassDeletesOnlyOrphans(table, 0, orphan);
      RepeatedPassesReachZero(CleanPass(table, orphan), orphan, n - 1);
    }
  }

  lemma NoOrphansKeepsAll<T>(rows: seq<T>, orphan: T -> bool)
    requires Orphans(rows, orphan) == 0
    ensures Keep(rows, orphan) == rows
  {
  }

  // ---- the same pass seen from the original table ----

  // A window of a full batch is cleaned, then as many rows are passed over as it had orphans.
  function Windows<T>(rows: seq<T>, orphan: T -> bool): seq<T> {
    if rows == [] then []
    else
      var size := Min(ROW_BATCH_SIZE, |rows|);
      var gap := Gap(rows, orphan);
      Keep(rows[..size], orphan) + rows[size..size + gap] + Windows(rows[size + gap..], orphan)
  }

  function Gap<T>(rows: seq<T>, orphan: T -> bool): nat {
    var size := Min(ROW_BATCH_SIZE, |rows|);
    Min(Orphans(rows[..size], orphan), |rows| - size)
  }

  lemma CutAt<T>(a: seq<T>, k: seq<T>, c: seq<T>, gap: nat)
    requires gap <= |c|
    ensures (a + k + c)[..|a| + |k| + gap] == a + k + c[..gap]
    ensures (a + k + c)[|a| + |k| + gap..] == c[gap..]
  {
  }

  lemma Regroup<T>(a: seq<T>, k: seq<T>, g: seq<T>, w: seq<T>)
    ensures (a + k + g) + w == a + (k + g + w)
  {
  }

  lemma BatchAt<T>(table: seq<T>, offset: nat, orphan: T -> bool)
    requires offset < |table|
    ensures var rows := table[offset..];
            var size := Min(ROW_BATCH_SIZE, |rows|);
            CleanBatch(table, offset, orphan) == table[..offset] + Keep(rows[..size], orphan) + rows[size..]
  {
    var rows := table[offset..];
    var hi := Min(offset + ROW_BATCH_SIZE, |table|);
    assert table[offset..hi] == rows[..hi - offset] && table[hi..] == rows[hi - offset..];
  }

  lemma WindowsUnfold<T>(rows: seq<T>, orphan: T -> bool)
    requires rows != []
    ensures var size := Min(ROW_BATCH_SIZE, |rows|);
            var c, gap := rows[size..], Gap(rows, orphan);
            Windows(rows, orphan) == Keep(rows[..size], orphan) + c[..gap] + Windows(c[gap..], orphan)
  {
    var size := Min(ROW_BATCH_SIZE, |rows|);
    var c, gap := rows[size..], Gap(rows, orphan);
    assert rows[size..size + gap] == c[..gap] && rows[size + gap..] == c[gap..];
  }

  lemma {:induction false} PassIsWindows<T>(table: seq<T>, offset: nat, orphan: T -> bool)
    requires offset <= |table|
    ensures CleanFrom(table, offset, orphan) == table[..offset] + Windows(table[offset..], orphan)
    decreases |table| - offset
  {
    if offset < |table| {
      var rows := table[offset..];
      var size, gap := Min(ROW_BATCH_SIZE, |rows|), Gap(rows, orphan);
      var a, k, c := table[..offset], Keep(rows[..size], orphan), rows[size..];
      var t := CleanBatch(table, offset, orphan);
      BatchAt(table, offset, orphan);
      WindowsUnfold(rows, orphan);
      KeepSplits(rows[..size], orphan);
      CutAt(a, k, c, gap);
      Regroup(a, k, c[..gap], Windows(c[gap..], orphan));
      assert table[offset..Min(offset + ROW_BATCH_SIZE, |table|)] == rows[..size];
      assert CleanFrom(table, offset, orphan) == CleanFrom(t, offset + ROW_BATCH_SIZE, orphan);
      if offset + ROW_BATCH_SIZE <= |t| {
        PassIsWindows(t, offset + ROW_BATCH_SIZE, orphan);
        assert |a| + |k| + gap == offset + ROW_BATCH_SIZE;
      } else {
        assert gap == |c| && c[..gap] == c && c[gap..] == [];
      }
    }
  }

  // The rows a pass never looks at hold no orphan.
  ghost predicate GapsClean<T>(rows: seq<T>, orphan: T -> bool)
    decreases |rows|
  {
    rows == [] ||
    var size := Min(ROW_BATCH_SIZE, |rows|);
    Orphans(rows[size..size + Gap(rows, orphan)], orphan) == 0 && GapsClean(rows[size + Gap(rows, orphan)..], orphan)
  }

  // One pass processes every orphan exactly when none of them sits in a gap.
  lemma {:induction false} WindowsClearIffGapsClean<T>(rows: seq<T>, orphan: T -> bool)
    ensures Orphans(Windows(rows, orphan), orphan) == 0 <==> GapsClean(rows, orphan)
    decreases |rows|
  {
    if rows != [] {
      var size, gap := Min(ROW_BATCH_SIZE, |rows|), Gap(rows, orphan);
      WindowsClearIffGapsClean(rows[size + gap..], orphan);
      KeepSplits(rows[..size], orphan);
      Concat(Keep(rows[..size], orphan), rows[size..size + gap], orphan);
      Concat(Keep(rows[..size], orphan) + rows[size..size + gap], Windows(rows[size + gap..], orphan), orphan);
    }
  }

  lemma OnePassClearsIff<T>(table: seq<T>, orphan: T -> bool)
    ensures Orphans(CleanPass(table, orphan), orphan) == 0 <==> GapsClean(table, orphan)
  {
    PassIsWindows(table, 0, orphan);
    assert table[..0] + Windows(table[0..], orphan) == Windows(table, orphan) by {
      assert table[0..] == table;
    }
    WindowsClearIffGapsClean(table, orphan);
  }

  lemma AllOrphans<T>(rows: seq<T>, orphan: T -> bool)
    requires forall i :: 0 <= i < |rows| ==> orphan(rows[i])
    ensures Orphans(rows, orphan) == |rows| && Keep(rows, orphan) == []
  {
  }

  // "Until all entries are processed" does not hold: two batches of orphans leave one of them, so
  // the halving bound is also the best one.
  lemma TwoFullBatchesLeaveOne<T>(table: seq<T>, orphan: T -> bool)
    requires |table| == 200 && forall i :: 0 <= i < |table| ==> orphan(table[i])
    ensures Orphans(table, orphan) == 200 && Orphans(CleanPass(table, orphan), orphan) == 100
  {
    AllOrphans(table, orphan);
    AllOrphans(table[..ROW_BATCH_SIZE], orphan);
    AllOrphans(table[ROW_BATCH_SIZE..], orphan);
    var t := CleanBatch(table, 0, orphan);
    assert table[0..ROW_BATCH_SIZE] == table[..ROW_BATCH_SIZE];
    assert t == table[ROW_BATCH_SIZE..];
    assert CleanPass(table, orphan) == CleanFrom(t, ROW_BATCH_SIZE, orphan) == t;
  }
}
