/**
  A model of `ChangeTracker` from `db_manager/tracker.py`.

  The tracker stages records in three "current" buffers (inserts, updates,
  deletes) and keeps three append-only "all" history lists.  `BulkApply`
  pushes the buffers through a database session.  The session is an oracle:
  the call at position `k` of the session trace (a merge, a delete or a
  commit) answers `session(k)`.  Rollback and close always succeed.  The
  result of `BulkApply` is the new tracker, the trace of session calls and
  whether an exception escapes (the Python method itself returns `None`).
*/
module Tracker {

  /** What a session call does: succeed, raise an `SQLAlchemyError`, or raise anything else. */
  datatype Outcome = Ok | DbError | OtherError

  /** One call made on the session. */
  datatype Call<T> = Merge(obj: T) | Delete(obj: T) | Commit | Rollback | Close

  /** The session oracle: the answer to the call at a given trace position. */
  type Session = nat -> Outcome

  datatype Tracker<T> = Tracker(
    currentInserts: seq<T>,
    currentUpdates: seq<T>,
    currentDeletes: seq<T>,
    allInserts: seq<T>,
    allUpdates: seq<T>,
    allDeletes: seq<T>)

  /** The outcome of one `bulk_apply`: the new state, the session calls in order,
      and whether an exception propagates to the caller. */
  datatype Run<T> = Run(tracker: Tracker<T>, calls: seq<Call<T>>, raised: bool)

  /** Every history list of `t` is a prefix of the matching list of `t'`. */
  ghost predicate HistoryPrefix<T>(t: Tracker<T>, t': Tracker<T>) {
    && t.allInserts <= t'.allInserts
    && t.allUpdates <= t'.allUpdates
    && t.allDeletes <= t'.allDeletes
  }

  /** The session accepts every call at positions `from .. from + n`. */
  predicate AllOk(session: Session, from: nat, n: nat) {
    forall k: nat :: from <= k < from + n ==> session(k) == Ok
  }

  /** No call at positions `from .. from + n` raises a non-database exception. */
  predicate NoOtherError(session: Session, from: nat, n: nat) {
    forall k: nat :: from <= k < from + n ==> session(k) != OtherError
  }

  function MergeCalls<T>(objs: seq<T>): (r: seq<Call<T>>)
    ensures |r| == |objs|
    ensures forall i :: 0 <= i < |r| ==> r[i] == Merge(objs[i])
  {
    seq(|objs|, i requires 0 <= i < |objs| => Merge(objs[i]))
  }

  function DeleteCalls<T>(objs: seq<T>): (r: seq<Call<T>>)
    ensures |r| == |objs|
    ensures forall i :: 0 <= i < |r| ==> r[i] == Delete(objs[i])
  {
    seq(|objs|, i requires 0 <= i < |objs| => Delete(objs[i]))
  }

  /** `ChangeTracker.__init__`: six empty lists. */
  function New<T>(): (t: Tracker<T>)
    ensures t.currentInserts == t.currentUpdates == t.currentDeletes == []
    ensures t.allInserts == t.allUpdates == t.allDeletes == []
  {
    Tracker([], [], [], [], [], [])
  }

  function AddInsert<T>(t: Tracker<T>, obj: T): (t': Tracker<T>)
    ensures t'.currentInserts == t.currentInserts + [obj]
    ensures t'.currentUpdates == t.currentUpdates && t'.currentDeletes == t.currentDeletes
    ensures t'.allInserts == t.allInserts && t'.allUpdates == t.allUpdates && t'.allDeletes == t.allDeletes
  {
    t.(currentInserts := t.currentInserts + [obj])
  }

  function AddUpdate<T>(t: Tracker<T>, obj: T): (t': Tracker<T>)
    ensures t'.currentUpdates == t.currentUpdates + [obj]
    ensures t'.currentInserts == t.currentInserts && t'.currentDeletes == t.currentDeletes
    ensures t'.allInserts == t.allInserts && t'.allUpdates == t.allUpdates && t'.allDeletes == t.allDeletes
  {
    t.(currentUpdates := t.currentUpdates + [obj])
  }

  function AddDelete<T>(t: Tracker<T>, obj: T): (t': Tracker<T>)
    ensures t'.currentDeletes == t.currentDeletes + [obj]
    ensures t'.currentInserts == t.currentInserts && t'.currentUpdates == t.currentUpdates
    ensures t'.allInserts == t.allInserts && t'.allUpdates == t.allUpdates && t'.allDeletes == t.allDeletes
  {
    t.(currentDeletes := t.currentDeletes + [obj])
  }

  /** The merge loop, for merges made from trace position `start` on: merges
      `objs` in order and stops at the first call that raises.  Returns how
      many merges were made and the loop's outcome (`Ok`, or the exception
      that stopped it). */
  function MergeLoop<T>(objs: seq<T>, session: Session, start: nat): (r: (nat, Outcome))
    ensures r.0 <= |objs|
    ensures r.1 == Ok <==> AllOk(session, start, |objs|)
    ensures r.1 == Ok ==> r.0 == |objs|
    ensures r.1 != Ok ==> 0 < r.0 && AllOk(session, start, r.0 - 1) && session(start + r.0 - 1) == r.1
    decreases |objs|
  {
    if objs == [] then (0, Ok)
    else if session(start) != Ok then (1, session(start))
    else
      var r := MergeLoop(objs[1..], session, start + 1);
      (r.0 + 1, r.1)
  }

  /** The delete loop, for deletes made from trace position `start` on:
      attempts every delete in order.  A database error on one delete is
      swallowed; any other exception stops the loop.  Returns how many
      deletes were attempted and the loop's outcome. */
  function DeleteLoop<T>(objs: seq<T>, session: Session, start: nat): (r: (nat, Outcome))
    ensures r.0 <= |objs|
    ensures r.1 != DbError
    ensures r.1 == Ok <==> NoOtherError(session, start, |objs|)
    ensures r.1 == Ok ==> r.0 == |objs|
    ensures r.1 == OtherError ==>
              0 < r.0 && NoOtherError(session, start, r.0 - 1) && session(start + r.0 - 1) == OtherError
    decreases |objs|
  {
    if objs == [] then (0, Ok)
    else if session(start) == OtherError then (1, OtherError)
    else
      var r := DeleteLoop(objs[1..], session, start + 1);
      (r.0 + 1, r.1)
  }

  /** The `finally` block: the three buffers emptied, history kept. */
  function ClearCurrent<T>(t: Tracker<T>): (t': Tracker<T>)
    ensures t'.currentInserts == t'.currentUpdates == t'.currentDeletes == []
    ensures t'.allInserts == t.allInserts && t'.allUpdates == t.allUpdates && t'.allDeletes == t.allDeletes
  {
    t.(currentInserts := [], currentUpdates := [], currentDeletes := [])
  }

  /** The calls that end `bulk_apply` after a merge raised `e`: a rollback
      for a database error, then close. */
  function AbortCalls<T>(e: Outcome): seq<Call<T>> {
    if e == DbError then [Rollback, Close] else [Close]
  }

  /** The calls that end `bulk_apply` from the commit on, when the commit
      answers `committed`: a database error is rolled back, then close. */
  function CommitCalls<T>(committed: Outcome): seq<Call<T>> {
    if committed == DbError then [Commit, Rollback, Close] else [Commit, Close]
  }

  /** `ChangeTracker.bulk_apply`. */
  function BulkApply<T>(t: Tracker<T>, session: Session): (r: Run<T>)
    // the buffers are empty on every exit path
    ensures r.tracker.currentInserts == r.tracker.currentUpdates == r.tracker.currentDeletes == []
    // history only ever grows, and only by the whole matching buffer
    ensures HistoryPrefix(t, r.tracker)
    ensures r.tracker.allInserts == t.allInserts || r.tracker.allInserts == t.allInserts + t.currentInserts
    ensures r.tracker.allUpdates == t.allUpdates || r.tracker.allUpdates == t.allUpdates + t.currentUpdates
    ensures r.tracker.allDeletes == t.allDeletes || r.tracker.allDeletes == t.allDeletes + t.currentDeletes
  {
    var objs := t.currentInserts + t.currentUpdates;
    var (merges, merged) := MergeLoop(objs, session, 0);
    var afterMerge := MergeCalls(objs[..merges]);
    var cleared := ClearCurrent(t);
    if merged != Ok then
      Run(cleared, afterMerge + AbortCalls(merged), merged == OtherError)
    else
      var extended := cleared.(allInserts := t.allInserts + t.currentInserts,
                               allUpdates := t.allUpdates + t.currentUpdates);
      var (deletes, deleted) := DeleteLoop(t.currentDeletes, session, |afterMerge|);
      var afterDelete := afterMerge + DeleteCalls(t.currentDeletes[..deletes]);
      if deleted == OtherError then
        Run(extended, afterDelete + [Close], true)
      else
        var recorded := extended.(allDeletes := t.allDeletes + t.currentDeletes);
        var committed := session(|afterDelete|);
        Run(recorded, afterDelete + CommitCalls(committed), committed == OtherError)
  }

  /** Appending a tail that ends with its only close to calls without a close
      gives calls whose only close is the last. */
  lemma CloseOnlyLast<T>(pre: seq<Call<T>>, tail: seq<Call<T>>)
    requires Close !in pre
    requires |tail| > 0 && tail[|tail| - 1] == Close
    requires forall i :: 0 <= i < |tail| - 1 ==> tail[i] != Close
    ensures var s := pre + tail;
            |s| > 0 && s[|s| - 1] == Close && forall i :: 0 <= i < |s| - 1 ==> s[i] != Close
  {
    var s := pre + tail;
    forall i | 0 <= i < |s| - 1
      ensures s[i] != Close
    {
      if i < |pre| {
        assert s[i] == pre[i] && pre[i] in pre;
      } else {
        assert s[i] == tail[i - |pre|];
      }
    }
  }

  /** On every exit path of `bulk_apply`, close is the last session call and
      is made exactly once. */
  lemma CloseOnceAtEnd<T>(t: Tracker<T>, session: Session)
    ensures var r := BulkApply(t, session);
            && |r.calls| > 0 && r.calls[|r.calls| - 1] == Close
            && forall i :: 0 <= i < |r.calls| - 1 ==> r.calls[i] != Close
  {
    var objs := t.currentInserts + t.currentUpdates;
    var m := MergeLoop(objs, session, 0);
    var afterMerge := MergeCalls(objs[..m.0]);
    if m.1 != Ok {
      CloseOnlyLast(afterMerge, AbortCalls(m.1));
    } else {
      var d := DeleteLoop(t.currentDeletes, session, |afterMerge|);
      var afterDelete := afterMerge + DeleteCalls(t.currentDeletes[..d.0]);
      if d.1 == OtherError {
        CloseOnlyLast(afterDelete, [Close]);
      } else {
        CloseOnlyLast(afterDelete, CommitCalls(session(|afterDelete|)));
      }
    }
  }

  /** A database error that triggers a rollback is swallowed. */
  lemma RollbackSwallowed<T>(t: Tracker<T>, session: Session)
    ensures var r := BulkApply(t, session);
            Rollback in r.calls ==> !r.raised
  {
    var objs := t.currentInserts + t.currentUpdates;
    var m := MergeLoop(objs, session, 0);
    var afterMerge := MergeCalls(objs[..m.0]);
    var d := DeleteLoop(t.currentDeletes, session, |afterMerge|);
    var afterDelete := afterMerge + DeleteCalls(t.currentDeletes[..d.0]);
    assert Rollback !in afterDelete;
  }

  /** Calls that start with merges of a prefix of `objs` and make no merge
      after them. */
  lemma MergePrefixFirst<T>(objs: seq<T>, k: nat, rest: seq<Call<T>>)
    requires k <= |objs|
    requires forall c :: c in rest ==> !c.Merge?
    ensures var s := MergeCalls(objs[..k]) + rest;
            && (forall i :: 0 <= i < |s| && s[i].Merge? ==> i < |objs| && s[i] == Merge(objs[i]))
            && (forall i, j :: 0 <= i < j < |s| && s[j].Merge? ==> s[i].Merge?)
  {
    var pre := MergeCalls(objs[..k]);
    var s := pre + rest;
    forall i | 0 <= i < |s| && s[i].Merge?
      ensures i < k && s[i] == Merge(objs[i])
    {
      if i >= k {
        assert false;
      }
    }
  }

  /** All merges come first, one per staged insert then update, in staging order. */
  lemma MergesFirstInStagingOrder<T>(t: Tracker<T>, session: Session)
    ensures var r := BulkApply(t, session);
            var objs := t.currentInserts + t.currentUpdates;
            && (forall i :: 0 <= i < |r.calls| && r.calls[i].Merge? ==> i < |objs| && r.calls[i] == Merge(objs[i]))
            && (forall i, j :: 0 <= i < j < |r.calls| && r.calls[j].Merge? ==> r.calls[i].Merge?)
            && (AllOk(session, 0, |objs|) ==> r.calls[..|objs|] == MergeCalls(objs))
  {
    var objs := t.currentInserts + t.currentUpdates;
    var m := MergeLoop(objs, session, 0);
    var afterMerge := MergeCalls(objs[..m.0]);
    if m.1 != Ok {
      MergePrefixFirst(objs, m.0, AbortCalls<T>(m.1));
    } else {
      var d := DeleteLoop(t.currentDeletes, session, |afterMerge|);
      var deletes := DeleteCalls(t.currentDeletes[..d.0]);
      var rest := if d.1 == OtherError then deletes + [Close] else deletes + CommitCalls(session(|afterMerge + deletes|));
      assert forall c :: c in deletes ==> c.Delete?;
      MergePrefixFirst(objs, m.0, rest);
      assert BulkApply(t, session).calls == afterMerge + rest;
      assert objs[..m.0] == objs;
      assert (afterMerge + rest)[..|objs|] == afterMerge;
    }
  }

  /** A merge that raises stops the apply: no further merge, no delete, no
      commit, the history untouched; a database error is rolled back and
      swallowed, any other exception propagates without rollback. */
  lemma MergeFailureAborts<T>(t: Tracker<T>, session: Session, j: nat)
    requires j < |t.currentInserts + t.currentUpdates|
    requires AllOk(session, 0, j) && session(j) != Ok
    ensures var r := BulkApply(t, session);
            var objs := t.currentInserts + t.currentUpdates;
            && r.calls == MergeCalls(objs[..j + 1]) + (if session(j) == DbError then [Rollback, Close] else [Close])
            && Commit !in r.calls
            && r.raised == (session(j) == OtherError)
            && r.tracker == ClearCurrent(t)
  {
    var objs := t.currentInserts + t.currentUpdates;
    var (merges, merged) := MergeLoop(objs, session, 0);
    assert merges == j + 1;
  }

  /** Once every merge succeeds and no delete raises a non-database
      exception, every staged delete is attempted exactly once, in order,
      whatever database errors the deletes raise; the whole delete buffer
      enters the history; then the commit is made, a database error on it is
      rolled back and swallowed, and any other exception propagates. */
  lemma DeletesAllAttempted<T>(t: Tracker<T>, session: Session)
    requires AllOk(session, 0, |t.currentInserts + t.currentUpdates|)
    requires NoOtherError(session, |t.currentInserts + t.currentUpdates|, |t.currentDeletes|)
    ensures var r := BulkApply(t, session);
            var n := |t.currentInserts + t.currentUpdates| + |t.currentDeletes|;
            && r.calls == MergeCalls(t.currentInserts + t.currentUpdates) + DeleteCalls(t.currentDeletes)
                          + CommitCalls(session(n))
            && r.raised == (session(n) == OtherError)
            && r.tracker.allDeletes == t.allDeletes + t.currentDeletes
  {
    var objs := t.currentInserts + t.currentUpdates;
    var (merges, merged) := MergeLoop(objs, session, 0);
    assert objs[..merges] == objs;
    var (deletes, deleted) := DeleteLoop(t.currentDeletes, session, |objs|);
    assert t.currentDeletes[..deletes] == t.currentDeletes;
  }

  /** When every merge, delete and the commit succeed, the apply makes
      exactly the merges, the deletes, a commit and a close, raises nothing,
      and extends each history list by its whole buffer. */
  lemma AllOkCommitsCleanly<T>(t: Tracker<T>, session: Session)
    requires AllOk(session, 0, |t.currentInserts + t.currentUpdates| + |t.currentDeletes| + 1)
    ensures var r := BulkApply(t, session);
            && r.calls == MergeCalls(t.currentInserts + t.currentUpdates) + DeleteCalls(t.currentDeletes) + [Commit, Close]
            && !r.raised
            && r.tracker == Tracker([], [], [], t.allInserts + t.currentInserts,
                                    t.allUpdates + t.currentUpdates, t.allDeletes + t.currentDeletes)
  {
    var objs := t.currentInserts + t.currentUpdates;
    DeletesAllAttempted(t, session);
    MergedHistoryKept(t, session);
    assert session(|objs| + |t.currentDeletes|) == Ok;
  }

  /** A delete that raises a non-database exception stops the apply: the
      deletes after it are not attempted, nothing is committed or rolled
      back, the exception propagates after close, and the delete history is
      not extended although the insert and update history already are. */
  lemma DeleteFailurePropagates<T>(t: Tracker<T>, session: Session, j: nat)
    requires AllOk(session, 0, |t.currentInserts + t.currentUpdates|)
    requires j < |t.currentDeletes|
    requires NoOtherError(session, |t.currentInserts + t.currentUpdates|, j)
    requires session(|t.currentInserts + t.currentUpdates| + j) == OtherError
    ensures var r := BulkApply(t, session);
            && r.calls == MergeCalls(t.currentInserts + t.currentUpdates) + DeleteCalls(t.currentDeletes[..j + 1]) + [Close]
            && r.raised
            && Commit !in r.calls && Rollback !in r.calls
            && r.tracker.allInserts == t.allInserts + t.currentInserts
            && r.tracker.allUpdates == t.allUpdates + t.currentUpdates
            && r.tracker.allDeletes == t.allDeletes
  {
    var objs := t.currentInserts + t.currentUpdates;
    var (merges, merged) := MergeLoop(objs, session, 0);
    assert objs[..merges] == objs;
    var (deletes, deleted) := DeleteLoop(t.currentDeletes, session, |objs|);
    assert deletes == j + 1;
  }

  /** Once every merge succeeds, the insert and update history grow by exactly
      the staged buffers, even if the commit later fails; a database error on
      the commit is followed by a rollback. */
  lemma MergedHistoryKept<T>(t: Tracker<T>, session: Session)
    requires AllOk(session, 0, |t.currentInserts + t.currentUpdates|)
    ensures var r := BulkApply(t, session);
            && r.tracker.allInserts == t.allInserts + t.currentInserts
            && r.tracker.allUpdates == t.allUpdates + t.currentUpdates
    ensures var r := BulkApply(t, session);
            var objs := t.currentInserts + t.currentUpdates;
            NoOtherError(session, |objs|, |t.currentDeletes|) && session(|objs| + |t.currentDeletes|) == DbError ==>
              && r.calls == MergeCalls(objs) + DeleteCalls(t.currentDeletes) + [Commit, Rollback, Close]
              && r.tracker.allDeletes == t.allDeletes + t.currentDeletes
              && !r.raised
  {
    var objs := t.currentInserts + t.currentUpdates;
    assert objs[..|objs|] == objs;
    assert t.currentDeletes[..|t.currentDeletes|] == t.currentDeletes;
  }

  /** With nothing staged, applying makes no merge or delete call, commits,
      and leaves the tracker as it was. */
  lemma EmptyApplyOnlyCommits<T>(t: Tracker<T>, session: Session)
    requires t.currentInserts == t.currentUpdates == t.currentDeletes == []
    ensures var r := BulkApply(t, session);
            && r.tracker == t
            && r.calls[0] == Commit
            && (forall c :: c in r.calls ==> !c.Merge? && !c.Delete?)
            && (session(0) == Ok ==> r.calls == [Commit, Close] && !r.raised)
  {
  }

  /** The session is committed exactly when every merge succeeds and no delete
      raises a non-database exception. */
  lemma CommitIffNoFatalError<T>(t: Tracker<T>, session: Session)
    ensures var r := BulkApply(t, session);
            var objs := t.currentInserts + t.currentUpdates;
            Commit in r.calls <==> AllOk(session, 0, |objs|) && NoOtherError(session, |objs|, |t.currentDeletes|)
  {
  }

  /** A caller-visible tracker operation. */
  datatype Op<T> = StageInsert(obj: T) | StageUpdate(obj: T) | StageDelete(obj: T) | ApplyWith(session: Session)

  function Step<T>(t: Tracker<T>, op: Op<T>): Tracker<T> {
    match op
    case StageInsert(x) => AddInsert(t, x)
    case StageUpdate(x) => AddUpdate(t, x)
    case StageDelete(x) => AddDelete(t, x)
    case ApplyWith(session) => BulkApply(t, session).tracker
  }

  function Replay<T>(t: Tracker<T>, ops: seq<Op<T>>): Tracker<T>
    decreases |ops|
  {
    if ops == [] then t else Replay(Step(t, ops[0]), ops[1..])
  }

  /** The history lists are append-only across any sequence of operations. */
  lemma {:induction false} HistoryAppendOnly<T>(t: Tracker<T>, ops: seq<Op<T>>)
    ensures HistoryPrefix(t, Replay(t, ops))
    decreases |ops|
  {
    if ops != [] {
      var t' := Step(t, ops[0]);
      assert HistoryPrefix(t, t');
      HistoryAppendOnly(t', ops[1..]);
    }
  }
}
