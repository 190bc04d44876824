// What a run of the task retry loop may look like, and what follows from that for every run.
module RetryLog {
  import opened Wrappers
  import opened ExponentialBackoffs

  const MAX_ACTIVE_RUNNERS: nat := 20

  datatype TaskName = TaskName(text: string)

  datatype Record =
    | Queued(name: TaskName, tries: nat, backoff: Backoff, rand: real, at: real, due: Option<real>)
    | Duplicate(name: TaskName)
    | Started(name: TaskName, at: real)
    | Completed(name: TaskName, retry: bool)
    | NotFound(name: TaskName)  // a completion of a task that is not running

  // The names that were queued and not started since.
  function Waiting(log: seq<Record>): set<TaskName> {
    if log == [] then {}
    else
      var before, r := Waiting(log[..|log| - 1]), log[|log| - 1];
      match r
      case Queued(_, _, _, _, _, _) => before + {r.name}
      case Started(_, _) => before - {r.name}
      case _ => before
  }

  // The names that were started and not completed since.
  function Running(log: seq<Record>): set<TaskName> {
    if log == [] then {}
    else
      var before, r := Running(log[..|log| - 1]), log[|log| - 1];
      match r
      case Started(_, _) => before + {r.name}
      case Completed(_, _) => before - {r.name}
      case _ => before
  }

  function LastQueued(log: seq<Record>, name: TaskName): (r: Option<Record>)
    ensures r.Some? ==> r.value.Queued? && r.value.name == name
  {
    if log == [] then None
    else if log[|log| - 1].Queued? && log[|log| - 1].name == name then Some(log[|log| - 1])
    else LastQueued(log[..|log| - 1], name)
  }

  // A completion that asked for a retry and has not been queued again yet.
  ghost predicate Unsettled(log: seq<Record>) {
    log != [] && log[|log| - 1].Completed? && log[|log| - 1].retry
  }

  ghost predicate Allowed(prev: seq<Record>, r: Record) {
    && (Unsettled(prev) ==> (r.Queued? || r.Duplicate?) && r.name == prev[|prev| - 1].name)
    && match r
       case Queued(name, tries, backoff, rand, at, due) =>
         && name !in Waiting(prev)
         && (if tries == 0 then due.None? else Unsettled(prev) && RetryOf(LastQueued(prev, name), r))
       case Duplicate(name) => name in Waiting(prev)
       case Started(name, at) =>
         && name in Waiting(prev) && name !in Running(prev) && |Running(prev)| < MAX_ACTIVE_RUNNERS
         && DueBefore(LastQueued(prev, name), at)
       case Completed(name, _) => name in Running(prev)
       case NotFound(name) => name !in Running(prev)
  }

  ghost predicate RetryOf(last: Option<Record>, r: Record)
    requires r.Queued? && (last.Some? ==> last.value.Queued?)
  {
    && last.Some?
    && r.tries == last.value.tries + 1
    && 0.0 <= r.rand < 1.0
    && r.backoff == Increased(last.value.backoff, r.rand)
    && r.due == Some(r.at + r.backoff.curr.value)
  }

  ghost predicate DueBefore(last: Option<Record>, now: real)
    requires last.Some? ==> last.value.Queued?
  {
    last.Some? && (last.value.due.Some? ==> last.value.due.value < now)
  }

  ghost predicate Legal(log: seq<Record>) {
    log == [] || (Legal(log[..|log| - 1]) && Allowed(log[..|log| - 1], log[|log| - 1]))
  }

  lemma Extended(log: seq<Record>, r: Record)
    ensures Legal(log + [r]) <==> Legal(log) && Allowed(log, r)
    ensures Waiting(log + [r]) ==
              if r.Queued? then Waiting(log) + {r.name} else if r.Started? then Waiting(log) - {r.name} else Waiting(log)
    ensures Running(log + [r]) ==
              if r.Started? then Running(log) + {r.name} else if r.Completed? then Running(log) - {r.name} else Running(log)
    ensures forall n :: LastQueued(log + [r], n) == if r.Queued? && r.name == n then Some(r) else LastQueued(log, n)
  {
    assert (log + [r])[..|log|] == log;
  }

  lemma {:induction false} LegalAt(log: seq<Record>, i: nat)
    requires Legal(log) && i < |log|
    ensures Legal(log[..i]) && Allowed(log[..i], log[i])
    decreases |log|
  {
    if i < |log| - 1 {
      LegalAt(log[..|log| - 1], i);
      assert log[..|log| - 1][..i] == log[..i];
    }
  }

  ghost predicate StartedBetween(log: seq<Record>, name: TaskName, i: nat, j: nat)
    requires j <= |log|
  {
    exists k :: i < k < j && log[k].Started? && log[k].name == name
  }

  // No lost work: whoever asked for a task, also for one that was already waiting, either still
  // finds its name waiting or is followed by a run of it.
  lemma {:induction false} EveryAddIsFollowedByARun(log: seq<Record>, i: nat)
    requires Legal(log) && i < |log| && (log[i].Queued? || log[i].Duplicate?)
    ensures log[i].name in Waiting(log) || StartedBetween(log, log[i].name, i, |log|)
    decreases |log|
  {
    var n := |log| - 1;
    if i < n {
      EveryAddIsFollowedByARun(log[..n], i);
      if StartedBetween(log[..n], log[i].name, i, n) {
        var k :| i < k < n && log[..n][k].Started? && log[..n][k].name == log[i].name;
        assert log[k].Started? && log[k].name == log[i].name;
      }
    }
  }

  // A task was asked for from `start` on, and waits, or runs of it started since.
  ghost predicate Served(log: seq<Record>, start: nat, name: TaskName) {
    exists i :: start <= i < |log| && (log[i].Queued? || log[i].Duplicate?) && log[i].name == name
      && (name in Waiting(log) || StartedBetween(log, name, i, |log|))
  }

  lemma ServedStays(log: seq<Record>, log': seq<Record>, start: nat, name: TaskName)
    requires Served(log, start, name) && Legal(log') && log <= log'
    ensures Served(log', start, name)
  {
    var i :| start <= i < |log| && (log[i].Queued? || log[i].Duplicate?) && log[i].name == name
      && (name in Waiting(log) || StartedBetween(log, name, i, |log|));
    assert log'[i] == log[i];
    EveryAddIsFollowedByARun(log', i);
  }

  // A completion that asked for a retry leaves its name waiting as soon as its message is handled.
  lemma {:induction false} RetryLeavesNameWaiting(log: seq<Record>, i: nat)
    requires Legal(log) && i < |log| && log[i].Completed? && log[i].retry && !Unsettled(log)
    ensures i + 1 < |log| && log[i].name in Waiting(log[..i + 2])
    ensures log[i].name in Waiting(log) || StartedBetween(log, log[i].name, i, |log|)
  {
    LegalAt(log, i + 1);
    assert log[..i + 2][..i + 1] == log[..i + 1];
    EveryAddIsFollowedByARun(log, i + 1);
  }

  // A run starts only for a name queued since its previous start.
  lemma {:induction false} EveryRunWasAskedFor(log: seq<Record>, name: TaskName)
    requires Legal(log) && name in Waiting(log)
    ensures exists i :: 0 <= i < |log| && log[i].Queued? && log[i].name == name && !StartedBetween(log, name, i, |log|)
    decreases |log|
  {
    var n := |log| - 1;
    if log[n].Queued? && log[n].name == name {
      assert !StartedBetween(log, name, n, |log|);
    } else {
      EveryRunWasAskedFor(log[..n], name);
      var i :| 0 <= i < n && log[..n][i].Queued? && log[..n][i].name == name && !StartedBetween(log[..n], name, i, n);
      assert !StartedBetween(log, name, i, |log|) by {
        forall k | i < k < |log| ensures !(log[k].Started? && log[k].name == name) {
          assert k < n ==> log[..n][k] == log[k];
        }
      }
      assert log[i].Queued?;
    }
  }

  lemma {:induction false} RunningUntilCompleted(log: seq<Record>, i: nat)
    requires Legal(log) && i < |log| && log[i].Started?
    ensures log[i].name in Running(log) || exists k :: i < k < |log| && log[k].Completed? && log[k].name == log[i].name
    decreases |log|
  {
    var n := |log| - 1;
    if i < n {
      RunningUntilCompleted(log[..n], i);
      if k :| i < k < n && log[..n][k].Completed? && log[..n][k].name == log[i].name {
        assert log[k].Completed? && log[k].name == log[i].name;
      }
    }
  }

  // Two runs of one name never overlap: the first is completed before the second starts.
  lemma {:induction false} RunsOfOneNameNeverOverlap(log: seq<Record>, i: nat, j: nat)
    requires Legal(log) && i < j < |log| && log[i].Started? && log[j].Started? && log[i].name == log[j].name
    ensures exists k :: i < k < j && log[k].Completed? && log[k].name == log[i].name
  {
    LegalAt(log, j);
    RunningUntilCompleted(log[..j], i);
    var k :| i < k < j && log[..j][k].Completed? && log[..j][k].name == log[i].name;
    assert log[k].Completed?;
  }

  lemma {:induction false} AtMostTwentyRunning(log: seq<Record>)
    requires Legal(log)
    ensures |Running(log)| <= MAX_ACTIVE_RUNNERS
  {
    if log != [] {
      var n := |log| - 1;
      AtMostTwentyRunning(log[..n]);
      if log[n].Completed? {
        assert Running(log) <= Running(log[..n]);
        CardinalityOfSubset(Running(log), Running(log[..n]));
      }
    }
  }

  lemma {:induction false} CardinalityOfSubset<T>(a: set<T>, b: set<T>)
    requires a <= b
    ensures |a| <= |b|
  {
    if a != {} {
      var x :| x in a;
      CardinalityOfSubset(a - {x}, b - {x});
    }
  }

  lemma {:induction false} LastQueuedIs(log: seq<Record>, i: nat)
    requires i < |log| && log[i].Queued?
    requires forall k :: i < k < |log| && log[k].Queued? ==> log[k].name != log[i].name
    ensures LastQueued(log, log[i].name) == Some(log[i])
    decreases |log|
  {
    if i < |log| - 1 {
      LastQueuedIs(log[..|log| - 1], i);
    }
  }

  // A name cannot be queued twice without being started in between.
  lemma {:induction false} NotQueuedTwice(log: seq<Record>, i: nat, j: nat)
    requires Legal(log) && i < j < |log| && log[i].Queued? && log[j].Queued? && log[i].name == log[j].name
    ensures StartedBetween(log, log[i].name, i, j)
  {
    LegalAt(log, j);
    EveryAddIsFollowedByARun(log[..j], i);
    var k :| i < k < j && log[..j][k].Started? && log[..j][k].name == log[i].name;
    assert log[k].Started?;
  }

  // No retry starts before its scheduled time.
  lemma {:induction false} NoEarlyRetry(log: seq<Record>, i: nat, j: nat)
    requires Legal(log) && i < j < |log| && log[i].Queued? && log[j].Started? && log[i].name == log[j].name
    requires !StartedBetween(log, log[i].name, i, j)
    ensures log[i].due.Some? ==> log[i].due.value < log[j].at
  {
    forall k | i < k < j && log[k].Queued? ensures log[k].name != log[i].name {
      if log[k].name == log[i].name {
        NotQueuedTwice(log, i, k);
      }
    }
    LastQueuedIs(log[..j], i);
    LegalAt(log, j);
  }

  // Every AddTaskIfNotPresent passes a struct whose private `curr` was never touched.
  ghost predicate FreshBackoffs(log: seq<Record>) {
    forall i :: 0 <= i < |log| && log[i].Queued? && log[i].tries == 0 ==> Sane(log[i].backoff) && log[i].backoff.curr.None?
  }

  lemma {:induction false} LastQueuedIndex(log: seq<Record>, name: TaskName)
    requires LastQueued(log, name).Some?
    ensures exists i :: 0 <= i < |log| && LastQueued(log, name) == Some(log[i])
  {
    var n := |log| - 1;
    if log[n].Queued? && log[n].name == name {
      assert LastQueued(log, name) == Some(log[n]);
    } else {
      LastQueuedIndex(log[..n], name);
      var i :| 0 <= i < n && LastQueued(log[..n], name) == Some(log[..n][i]);
      assert LastQueued(log, name) == Some(log[i]);
    }
  }

  // The backoff law: the n-th retry in a row is scheduled a delay on the n-th point of the
  // exponential curve after the completion that asked for it.
  lemma {:induction false} DelayLaw(log: seq<Record>, i: nat)
    requires Legal(log) && FreshBackoffs(log) && i < |log| && log[i].Queued? && log[i].tries > 0
    ensures var r := log[i]; var b := r.backoff; var n := r.tries - 1;
            && Sane(b) && OnCurve(b, n)
            && r.due == Some(r.at + b.curr.value)
            && b.min <= b.curr.value <= b.max
            && (!b.jitter ==> b.curr.value == Min(b.max, Geometric(b.min, b.factor, n)))
    decreases i
  {
    var r := log[i];
    LegalAt(log, i);
    LastQueuedIndex(log[..i], r.name);
    var p :| 0 <= p < i && LastQueued(log[..i], r.name) == Some(log[..i][p]);
    if r.tries > 1 {
      DelayLaw(log, p);
      IncreaseMovesAlongCurve(log[p].backoff, r.tries - 2, r.rand);
    }
    assert !r.backoff.jitter ==> LowerDelay(r.backoff, r.tries - 1) == UpperDelay(r.backoff, r.tries - 1);
  }

  // ---- reports ----

  // How many completions were reported, and how many of them for a task that was not running.
  function Reports(log: seq<Record>): nat {
    if log == [] then 0
    else Reports(log[..|log| - 1]) + if log[|log| - 1].Completed? || log[|log| - 1].NotFound? then 1 else 0
  }

  function Strays(log: seq<Record>): nat {
    if log == [] then 0 else Strays(log[..|log| - 1]) + if log[|log| - 1].NotFound? then 1 else 0
  }

  // `reports` completions were reported between two logs, `strays` of them for no running task.
  ghost predicate Tally(before: seq<Record>, log: seq<Record>, reports: int, strays: int) {
    Reports(log) == Reports(before) + reports && Strays(log) == Strays(before) + strays
  }

  lemma TallyOne(log: seq<Record>, r: Record)
    ensures Tally(log, log + [r], if r.Completed? || r.NotFound? then 1 else 0, if r.NotFound? then 1 else 0)
  {
    assert (log + [r])[..|log|] == log;
  }

  // A completion is reported as not found exactly if no run of its name is going on.
  lemma {:induction false} StrayIff(log: seq<Record>, i: nat)
    requires Legal(log) && i < |log| && (log[i].Completed? || log[i].NotFound?)
    ensures log[i].NotFound? <==> log[i].name !in Running(log[..i])
  {
    LegalAt(log, i);
  }
}
