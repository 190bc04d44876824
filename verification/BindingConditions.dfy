// The list of conditions in the status of a SnapshotEnvironmentBinding.
module BindingConditions {
  import opened Wrappers

  datatype Status = True | False | Unknown
  datatype Kind = ErrorOccurred | Reconciled | OtherKind(name: Name)
  datatype Condition = Condition(kind: Kind, status: Status, reason: Text, message: Text, transition: nat)

  // ---- what the list says ----

  ghost predicate OnePerKind(cs: seq<Condition>) {
    forall i, j :: 0 <= i < j < |cs| ==> cs[i].kind != cs[j].kind
  }

  // The position of the first condition of a kind, or the length of the list.
  function Find(cs: seq<Condition>, kind: Kind): (i: nat)
    ensures i <= |cs| && (i < |cs| ==> cs[i].kind == kind)
    ensures forall j :: 0 <= j < i ==> cs[j].kind != kind
  {
    if cs == [] then 0
    else if cs[0].kind == kind then 0
    else
      var i := Find(cs[1..], kind);
      assert forall j :: 0 < j <= i ==> cs[j] == cs[1..][j - 1];
      i + 1
  }

  predicate SameContent(a: Condition, b: Condition) {
    a.status == b.status && a.reason == b.reason && a.message == b.message
  }

  // The list after a condition was reported at time `now`.
  function Reported(cs: seq<Condition>, c: Condition, now: nat): seq<Condition> {
    var i := Find(cs, c.kind);
    if i == |cs| then cs + [c.(transition := now)]
    else if SameContent(cs[i], c) then cs
    else cs[i := c.(transition := now)]
  }

  method InsertOrUpdate(newCondition: Condition, existing: seq<Condition>, now: nat)
    returns (changed: bool, conditions: seq<Condition>)
    ensures conditions == Reported(existing, newCondition, now)
    ensures changed <==> conditions != existing
  {
    var index := 0;
    while index < |existing| && existing[index].kind != newCondition.kind
      invariant 0 <= index <= |existing|
      invariant forall j :: 0 <= j < index ==> existing[j].kind != newCondition.kind
    {
      index := index + 1;
    }
    assert index == Find(existing, newCondition.kind);
    conditions, changed := existing, false;
    if index == |existing| {
      conditions, changed := existing + [newCondition.(transition := now)], true;
      assert |conditions| != |existing|;
    } else if existing[index].message != newCondition.message || existing[index].reason != newCondition.reason
              || existing[index].status != newCondition.status {
      conditions, changed := existing[index := newCondition.(transition := now)], true;
      assert conditions[index] != existing[index];
    }
  }

  function Opposite(status: Status): Status {
    match status
    case True => False
    case False => True
    case Unknown => Unknown
  }

  // One report on the reconcile: Reconciled gets the status, ErrorOccurred the opposite one.
  datatype Report = Report(status: Status, reason: Text, message: Text, now: nat)

  const ERROR_OCCURRED_REASON := Text("ErrorOccurred")

  function Updated(cs: seq<Condition>, r: Report): seq<Condition> {
    var error := Condition(ErrorOccurred, Opposite(r.status), ERROR_OCCURRED_REASON, r.message, 0);
    var reconciled := Condition(Reconciled, r.status, r.reason, r.message, 0);
    Reported(Reported(cs, error, r.now), reconciled, r.now)
  }

  // The second report does not undo the first one.
  lemma FirstChangeShows(cs: seq<Condition>, c: Condition, d: Condition, now: nat)
    requires c.kind != d.kind && Reported(cs, c, now) != cs
    ensures Reported(Reported(cs, c, now), d, now) != cs
  {
    var i, between := Find(cs, c.kind), Reported(cs, c, now);
    if i < |cs| {
      assert between[i] != cs[i] && Reported(between, d, now)[i] == between[i];
    } else {
      assert |Reported(between, d, now)| > |cs|;
    }
  }

  method UpdateReconciledCondition(cs: seq<Condition>, r: Report) returns (conditions: seq<Condition>, written: bool)
    ensures conditions == Updated(cs, r)
    ensures written <==> conditions != cs
  {
    var error := Condition(ErrorOccurred, Opposite(r.status), ERROR_OCCURRED_REASON, r.message, 0);
    var reconciled := Condition(Reconciled, r.status, r.reason, r.message, 0);
    var changed1, conditions1 := InsertOrUpdate(error, cs, r.now);
    var changed2, conditions2 := InsertOrUpdate(reconciled, conditions1, r.now);
    written := changed1 || changed2;
    conditions := if written then conditions2 else cs;
    if changed1 {
      FirstChangeShows(cs, error, reconciled, r.now);
    }
  }

  function UpdatedAll(cs: seq<Condition>, reports: seq<Report>): seq<Condition> {
    if reports == [] then cs else Updated(UpdatedAll(cs, reports[..|reports| - 1]), reports[|reports| - 1])
  }

  // ---- any sequence of updates ----

  // Reconciled has the status, ErrorOccurred the opposite one.
  ghost predicate Opposed(cs: seq<Condition>, status: Status) {
    && (exists c :: c in cs && c.kind.ErrorOccurred? && c.status == Opposite(status))
    && (exists c :: c in cs && c.kind.Reconciled? && c.status == status)
  }

  // A report leaves every position alone but that of its kind, which keeps its time if the content
  // is the same; a new kind comes last.
  lemma ReportedAt(cs: seq<Condition>, c: Condition, now: nat, i: nat)
    requires OnePerKind(cs) && i < |cs|
    ensures OnePerKind(Reported(cs, c, now)) && |cs| <= |Reported(cs, c, now)| <= |cs| + 1
    ensures Reported(cs, c, now)[i] ==
              if cs[i].kind == c.kind && !SameContent(cs[i], c) then c.(transition := now) else cs[i]
  {
  }

  lemma ReportedHas(cs: seq<Condition>, c: Condition, now: nat)
    requires OnePerKind(cs)
    ensures OnePerKind(Reported(cs, c, now))
    ensures var r := Reported(cs, c, now);
            exists i :: 0 <= i < |r| && r[i].kind == c.kind && SameContent(r[i], c)
  {
    var i, r := Find(cs, c.kind), Reported(cs, c, now);
    assert r[i].kind == c.kind && SameContent(r[i], c);
  }

  // What one report does to the rest of the list.
  ghost predicate KeepsOthers(cs: seq<Condition>, r: seq<Condition>) {
    && OnePerKind(r) && |cs| <= |r|
    && (forall i :: 0 <= i < |cs| ==> r[i].kind == cs[i].kind && (cs[i].kind.OtherKind? ==> r[i] == cs[i]))
    && (forall i :: |cs| <= i < |r| ==> !r[i].kind.OtherKind?)
  }

  lemma ReportedKeepsOthers(cs: seq<Condition>, c: Condition, now: nat)
    requires OnePerKind(cs) && !c.kind.OtherKind?
    ensures KeepsOthers(cs, Reported(cs, c, now))
  {
  }

  lemma UpdateKeeps(cs: seq<Condition>, report: Report)
    requires OnePerKind(cs)
    ensures KeepsOthers(cs, Updated(cs, report)) && Opposed(Updated(cs, report), report.status)
  {
    var error := Condition(ErrorOccurred, Opposite(report.status), ERROR_OCCURRED_REASON, report.message, 0);
    var reconciled := Condition(Reconciled, report.status, report.reason, report.message, 0);
    var between := Reported(cs, error, report.now);
    ReportedKeepsOthers(cs, error, report.now);
    ReportedKeepsOthers(between, reconciled, report.now);
    BothReported(cs, error, reconciled, report.now);
  }

  lemma BothReported(cs: seq<Condition>, error: Condition, reconciled: Condition, now: nat)
    requires OnePerKind(cs) && error.kind.ErrorOccurred? && reconciled.kind.Reconciled?
    requires error.status == Opposite(reconciled.status)
    ensures Opposed(Reported(Reported(cs, error, now), reconciled, now), reconciled.status)
  {
    var between := Reported(cs, error, now);
    var r := Reported(between, reconciled, now);
    ReportedHas(cs, error, now);
    ReportedHas(between, reconciled, now);
    var i :| 0 <= i < |between| && between[i].kind == ErrorOccurred && SameContent(between[i], error);
    ReportedAt(between, reconciled, now, i);
    var j :| 0 <= j < |r| && r[j].kind == Reconciled && SameContent(r[j], reconciled);
    assert r[i] in r && r[j] in r;
  }

  // The list has a condition with this kind, status, reason and message.
  ghost predicate Says(cs: seq<Condition>, kind: Kind, status: Status, reason: Text, message: Text) {
    exists c :: c in cs && c.kind == kind && c.status == status && c.reason == reason && c.message == message
  }

  // After a report, Reconciled says what was reported, and ErrorOccurred the opposite with the same
  // message.
  lemma UpdateSays(cs: seq<Condition>, report: Report)
    requires OnePerKind(cs)
    ensures Says(Updated(cs, report), Reconciled, report.status, report.reason, report.message)
    ensures Says(Updated(cs, report), ErrorOccurred,
                 if report.status == True then False else if report.status == False then True else report.status,
                 Text("ErrorOccurred"), report.message)
  {
    var error := Condition(ErrorOccurred, Opposite(report.status), ERROR_OCCURRED_REASON, report.message, 0);
    var reconciled := Condition(Reconciled, report.status, report.reason, report.message, 0);
    var between := Reported(cs, error, report.now);
    var r := Updated(cs, report);
    ReportedHas(cs, error, report.now);
    ReportedHas(between, reconciled, report.now);
    var i :| 0 <= i < |between| && between[i].kind == ErrorOccurred && SameContent(between[i], error);
    ReportedAt(between, reconciled, report.now, i);
    var j :| 0 <= j < |r| && r[j].kind == Reconciled && SameContent(r[j], reconciled);
    assert r[i] in r && r[j] in r;
  }

  // Whatever is reported, there is one condition per kind, conditions of other kinds stay where
  // they are as they are, and after a report ErrorOccurred and Reconciled are there, and opposite.
  lemma {:induction false} UpdatesKeepTheList(cs: seq<Condition>, reports: seq<Report>)
    requires OnePerKind(cs)
    ensures KeepsOthers(cs, UpdatedAll(cs, reports))
    ensures reports != [] ==> Opposed(UpdatedAll(cs, reports), reports[|reports| - 1].status)
  {
    if reports != [] {
      UpdatesKeepTheList(cs, reports[..|reports| - 1]);
      UpdateKeeps(UpdatedAll(cs, reports[..|reports| - 1]), reports[|reports| - 1]);
    }
  }

  // The transition time moves exactly when the content of the condition does.
  lemma TransitionMovesWithContent(cs: seq<Condition>, report: Report, i: nat)
    requires OnePerKind(cs) && i < |cs|
    ensures var r := Updated(cs, report);
            && i < |r|
            && (r[i].transition != cs[i].transition ==> r[i].transition == report.now)
            && (r[i].status != cs[i].status || r[i].reason != cs[i].reason || r[i].message != cs[i].message ==>
                 r[i].transition == report.now)
            && (r[i].status == cs[i].status && r[i].reason == cs[i].reason && r[i].message == cs[i].message ==> r[i] == cs[i])
  {
    var error := Condition(ErrorOccurred, Opposite(report.status), ERROR_OCCURRED_REASON, report.message, 0);
    var reconciled := Condition(Reconciled, report.status, report.reason, report.message, 0);
    ReportedAt(cs, error, report.now, i);
    ReportedAt(Reported(cs, error, report.now), reconciled, report.now, i);
  }
}
