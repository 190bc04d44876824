// The two cleaners of backend/eventloop/db_reconciler.go that decide from other tables which rows
// are no longer in use, with the paged collectors they rely on.
module DbReconciler {
  import opened Paging

  type Id = string
  const SPECIAL_CLUSTER_USER: Id := "cluster-agent-application-sync-user"
  const WAIT_TIME_FOR_ROW_DELETE: int := 3600 // seconds

  datatype ClusterUser = ClusterUser(id: Id, createdOn: int)
  datatype ClusterCredentials = ClusterCredentials(id: Id, createdOn: int)
  datatype ClusterAccess = ClusterAccess(userId: Id)
  datatype RepositoryCredentials = RepositoryCredentials(id: Id, userId: Id)
  datatype Operation = Operation(id: Id, ownerUserId: Id)
  datatype ManagedEnvironment = ManagedEnvironment(id: Id, credentialsId: Id)
  datatype GitopsEngineCluster = GitopsEngineCluster(id: Id, credentialsId: Id)

  function Column<T>(rows: seq<T>, column: T -> Id): seq<Id> {
    if rows == [] then [] else Column(rows[..|rows| - 1], column) + [column(rows[|rows| - 1])]
  }

  lemma {:induction false} ColumnHas<T>(rows: seq<T>, column: T -> Id)
    ensures forall x :: x in Column(rows, column) <==> exists i :: 0 <= i < |rows| && column(rows[i]) == x
  {
    if rows != [] {
      var n := |rows| - 1;
      ColumnHas(rows[..n], column);
      forall x | x in Column(rows, column) ensures exists i :: 0 <= i < |rows| && column(rows[i]) == x {
        if x in Column(rows[..n], column) {
          var i :| 0 <= i < n && column(rows[..n][i]) == x;
          assert column(rows[i]) == x;
        } else {
          assert column(rows[n]) == x;
        }
      }
      forall i | 0 <= i < |rows| ensures column(rows[i]) in Column(rows, column) {
        if i < n {
          assert column(rows[..n][i]) in Column(rows[..n], column);
        }
      }
    }
  }

  ghost predicate DistinctKeys<T>(rows: seq<T>, key: T -> Id) {
    forall i, j :: 0 <= i < j < |rows| ==> key(rows[i]) != key(rows[j])
  }

  // DELETE ... WHERE key = id
  function DeleteById<T>(rows: seq<T>, key: T -> Id, id: Id): seq<T> {
    if rows == [] then []
    else if key(rows[0]) == id then DeleteById(rows[1..], key, id)
    else [rows[0]] + DeleteById(rows[1..], key, id)
  }

  lemma {:induction false} DeleteConcat<T>(a: seq<T>, b: seq<T>, key: T -> Id, id: Id)
    ensures DeleteById(a + b, key, id) == DeleteById(a, key, id) + DeleteById(b, key, id)
  {
    if a == [] {
      assert a + b == b;
    } else {
      DeleteConcat(a[1..], b, key, id);
      assert (a + b)[1..] == a[1..] + b;
    }
  }

  lemma DeleteAbsent<T>(rows: seq<T>, key: T -> Id, id: Id)
    requires forall i :: 0 <= i < |rows| ==> key(rows[i]) != id
    ensures DeleteById(rows, key, id) == rows
  {
  }

  lemma DeleteOne<T>(a: seq<T>, x: T, b: seq<T>, key: T -> Id)
    requires DistinctKeys(a + [x] + b, key)
    ensures DeleteById(a + [x] + b, key, key(x)) == a + b
  {
    var all := a + [x] + b;
    assert all[|a|] == x;
    forall i | 0 <= i < |a| ensures key(a[i]) != key(x) { assert all[i] == a[i]; }
    forall i | 0 <= i < |b| ensures key(b[i]) != key(x) { assert all[|a| + 1 + i] == b[i]; }
    DeleteAbsent(a, key, key(x));
    DeleteAbsent(b, key, key(x));
    DeleteConcat(a + [x], b, key, key(x));
    DeleteConcat(a, [x], key, key(x));
  }

  lemma DistinctWithoutOne<T>(a: seq<T>, x: T, b: seq<T>, key: T -> Id)
    requires DistinctKeys(a + [x] + b, key)
    ensures DistinctKeys(a + b, key)
  {
    var all := a + [x] + b;
    forall i, j | 0 <= i < j < |a + b| ensures key((a + b)[i]) != key((a + b)[j]) {
      assert (a + b)[i] == all[if i < |a| then i else i + 1];
      assert (a + b)[j] == all[if j < |a| then j else j + 1];
    }
  }

  lemma KeepOneMore<T>(rows: seq<T>, i: nat, orphan: T -> bool)
    requires i < |rows|
    ensures Keep(rows[..i + 1], orphan) == Keep(rows[..i], orphan) + (if orphan(rows[i]) then [] else [rows[i]])
  {
    assert rows[..i + 1] == rows[..i] + [rows[i]];
    Concat(rows[..i], [rows[i]], orphan);
  }

  // A paged read of a table nobody changes meanwhile returns the column of the whole table.
  method Collect<T>(rows: seq<T>, column: T -> Id) returns (ids: seq<Id>)
    ensures ids == Column(rows, column)
  {
    ids := [];
    var offset: nat := 0;
    while true
      invariant ids == Column(rows[..Min(offset, |rows|)], column)
      decreases |rows| + 1 - Min(offset, |rows| + 1)
    {
      var batch := Batch(rows, offset);
      if |batch| == 0 {
        assert rows[..Min(offset, |rows|)] == rows;
        break;
      }
      for i := 0 to |batch|
        invariant ids == Column(rows[..offset + i], column)
      {
        assert rows[..offset + i + 1][..offset + i] == rows[..offset + i];
        ids := ids + [column(batch[i])];
      }
      offset := offset + ROW_BATCH_SIZE;
    }
  }

  // ---- the table with its primary key, and the paging delete over it ----

  // Orphans whose DELETE succeeds; the others are tried and stay.
  function Removable<T>(orphan: T -> bool, key: T -> Id, failing: set<Id>): T -> bool {
    r => orphan(r) && key(r) !in failing
  }

  // The table once the first i rows of a batch have been dealt with.
  function HalfCleaned<T>(below: seq<T>, batch: seq<T>, above: seq<T>, i: nat, removable: T -> bool): seq<T>
    requires i <= |batch|
  {
    below + Keep(batch[..i], removable) + batch[i..] + above
  }

  lemma CleanOneRow<T>(below: seq<T>, batch: seq<T>, above: seq<T>, i: nat, removable: T -> bool, key: T -> Id)
    requires i < |batch| && DistinctKeys(HalfCleaned(below, batch, above, i, removable), key)
    ensures var rows := HalfCleaned(below, batch, above, i, removable);
            && HalfCleaned(below, batch, above, i + 1, removable) ==
                 (if removable(batch[i]) then DeleteById(rows, key, key(batch[i])) else rows)
            && DistinctKeys(HalfCleaned(below, batch, above, i + 1, removable), key)
  {
    var row, kept := batch[i], Keep(batch[..i], removable);
    KeepOneMore(batch, i, removable);
    assert batch[i..] == [row] + batch[i + 1..];
    Shuffle(below + kept, row, batch[i + 1..], above);
    if removable(row) {
      DeleteOne(below + kept, row, batch[i + 1..] + above, key);
      DistinctWithoutOne(below + kept, row, batch[i + 1..] + above, key);
    } else {
      assert below + kept + [row] == below + (kept + [row]);
    }
  }

  lemma Shuffle<T>(a: seq<T>, x: T, b: seq<T>, c: seq<T>)
    ensures a + ([x] + b) + c == a + [x] + (b + c) == a + [x] + b + c
    ensures a + b + c == a + (b + c)
  {
  }

  lemma {:induction false} KeepSame<T>(rows: seq<T>, f: T -> bool, g: T -> bool)
    requires forall i :: 0 <= i < |rows| ==> f(rows[i]) == g(rows[i])
    ensures Keep(rows, f) == Keep(rows, g)
  {
    if rows != [] {
      KeepSame(rows[1..], f, g);
    }
  }

  // The DELETE of some orphan among the rows fails.
  ghost predicate Fails<T>(rows: seq<T>, orphan: T -> bool, key: T -> Id, failing: set<Id>) {
    exists i :: 0 <= i < |rows| && orphan(rows[i]) && key(rows[i]) in failing
  }

  // A batch without a failing DELETE is cleaned of all its orphans.
  lemma NothingFailed<T>(batch: seq<T>, orphan: T -> bool, key: T -> Id, failing: set<Id>)
    requires !Fails(batch, orphan, key, failing)
    ensures Keep(batch, Removable(orphan, key, failing)) == Keep(batch, orphan)
  {
    KeepSame(batch, Removable(orphan, key, failing), orphan);
  }

  // Where the outer loop is: what is left to do leaves what a pass over all leaves, and an error has
  // been reported exactly if that may differ from what a pass without failures leaves.
  ghost predicate Cleaning<T>(was: seq<T>, rows: seq<T>, offset: nat, orphan: T -> bool, key: T -> Id, failing: set<Id>, res: bool) {
    && CleanFrom(rows, offset, Removable(orphan, key, failing)) == CleanPass(was, Removable(orphan, key, failing))
    && (forall r :: r in rows ==> r in was)
    && (if res then Fails(was, orphan, key, failing) else CleanFrom(rows, offset, orphan) == CleanPass(was, orphan))
  }

  lemma BatchSplits<T>(rows: seq<T>, offset: nat)
    ensures |Batch(rows, offset)| == 0 <==> offset >= |rows|
    ensures offset < |rows| ==>
              var n := offset + |Batch(rows, offset)|;
              n <= |rows| && rows == rows[..offset] + Batch(rows, offset) + rows[n..]
  {
  }

  lemma CleaningGoesOn<T>(was: seq<T>, rows: seq<T>, offset: nat, rows': seq<T>, orphan: T -> bool, key: T -> Id,
                          failing: set<Id>, res: bool, err: bool)
    requires Cleaning(was, rows, offset, orphan, key, failing, res) && offset < |rows|
    requires offset + |Batch(rows, offset)| <= |rows|
    requires var batch := Batch(rows, offset);
             && rows' == rows[..offset] + Keep(batch, Removable(orphan, key, failing)) + rows[offset + |batch|..]
             && (err <==> Fails(batch, orphan, key, failing))
    ensures Cleaning(was, rows', offset + ROW_BATCH_SIZE, orphan, key, failing, res || err) && |rows'| <= |rows|
  {
    var batch, removable := Batch(rows, offset), Removable(orphan, key, failing);
    KeepSplits(batch, removable);
    KeepSplits(batch, orphan);
    forall r | r in rows' ensures r in rows {
      KeepHas(batch, removable, r);
    }
    if err {
      var i :| 0 <= i < |batch| && orphan(batch[i]) && key(batch[i]) in failing;
      assert batch[i] in rows;
      var j :| 0 <= j < |was| && was[j] == batch[i];
    } else {
      NothingFailed(batch, orphan, key, failing);
    }
  }

  class Table<T> {
    var rows: seq<T>
    const key: T -> Id

    ghost predicate Valid()
      reads this
    {
      DistinctKeys(rows, key)
    }

    constructor (rows: seq<T>, key: T -> Id)
      requires DistinctKeys(rows, key)
      ensures Valid() && this.rows == rows && this.key == key
    {
      this.rows, this.key := rows, key;
    }

    // `failing` are the ids whose DELETE the database refuses.
    method DeleteDbEntry(id: Id, failing: set<Id>) returns (err: bool)
      modifies this
      ensures err == (id in failing)
      ensures rows == if err then old(rows) else DeleteById(old(rows), key, id)
    {
      if id in failing {
        return true;
      }
      rows := DeleteById(rows, key, id);
      return false;
    }

    // The inner loop over one batch.
    method CleanRows(batch: seq<T>, orphan: T -> bool, failing: set<Id>, ghost below: seq<T>, ghost above: seq<T>) returns (res: bool)
      requires Valid() && rows == below + batch + above
      modifies this
      ensures Valid()
      ensures rows == below + Keep(batch, Removable(orphan, key, failing)) + above
      ensures res <==> Fails(batch, orphan, key, failing)
    {
      res := false;
      ghost var removable := Removable(orphan, key, failing);
      assert batch[0..] == batch;
      for i := 0 to |batch|
        invariant Valid()
        invariant rows == HalfCleaned(below, batch, above, i, removable)
        invariant res <==> exists j :: 0 <= j < i && orphan(batch[j]) && key(batch[j]) in failing
      {
        var row := batch[i];
        CleanOneRow(below, batch, above, i, removable, key);
        if orphan(row) {
          var err := DeleteDbEntry(key(row), failing);
          if err {
            res := true;
          }
        }
      }
      assert batch[..|batch|] == batch;
    }

    method CleanOrphans(orphan: T -> bool, failing: set<Id>) returns (res: bool)
      requires Valid()
      modifies this
      ensures Valid()
      ensures rows == CleanPass(old(rows), Removable(orphan, key, failing))
      ensures res ==> Fails(old(rows), orphan, key, failing)
      ensures !res ==> rows == CleanPass(old(rows), orphan)
    {
      res := false;
      var offset: nat := 0;
      while true
        invariant Valid()
        invariant Cleaning(old(rows), rows, offset, orphan, key, failing, res)
        decreases |rows| + 1 - Min(offset, |rows| + 1)
      {
        BatchSplits(rows, offset);
        var batch := Batch(rows, offset);
        if |batch| == 0 {
          break;
        }
        ghost var before, above := rows, rows[offset + |batch|..];
        var err := CleanRows(batch, orphan, failing, rows[..offset], above);
        CleaningGoesOn(old(rows), before, offset, rows, orphan, key, failing, res, err);
        res := res || err;
        offset := offset + ROW_BATCH_SIZE;
      }
    }
  }

  lemma {:induction false} KeepHas<T>(rows: seq<T>, orphan: T -> bool, x: T)
    ensures x in Keep(rows, orphan) <==> x in rows && !orphan(x)
  {
    if rows != [] {
      KeepHas(rows[1..], orphan, x);
      assert rows == [rows[0]] + rows[1..];
    }
  }

  // Whatever a pass deletes is an orphan; whoever is no orphan stays, as often as before.
  lemma DeletedRowsAreOrphans<T>(rows: seq<T>, orphan: T -> bool, x: T)
    requires x in rows && x !in CleanPass(rows, orphan)
    ensures orphan(x)
  {
    PassDeletesOnlyOrphans(rows, 0, orphan);
    KeepHas(rows, orphan, x);
    KeepHas(CleanPass(rows, orphan), orphan, x);
  }

  class Database {
    const clusterUsers: Table<ClusterUser>
    const clusterCredentials: Table<ClusterCredentials>
    var clusterAccess: seq<ClusterAccess>
    var repositoryCredentials: seq<RepositoryCredentials>
    var operations: seq<Operation>
    var managedEnvironments: seq<ManagedEnvironment>
    var gitopsEngineClusters: seq<GitopsEngineCluster>

    ghost predicate Valid()
      reads this, clusterUsers, clusterCredentials
    {
      && clusterUsers.Valid() && (forall u :: clusterUsers.key(u) == u.id)
      && clusterCredentials.Valid() && (forall c :: clusterCredentials.key(c) == c.id)
    }

    constructor (users: Table<ClusterUser>, credentials: Table<ClusterCredentials>, access: seq<ClusterAccess>,
                 repositories: seq<RepositoryCredentials>, operations: seq<Operation>,
                 environments: seq<ManagedEnvironment>, engines: seq<GitopsEngineCluster>)
      requires users.Valid() && (forall u :: users.key(u) == u.id)
      requires credentials.Valid() && (forall c :: credentials.key(c) == c.id)
      ensures Valid() && clusterUsers == users && clusterCredentials == credentials
      ensures clusterAccess == access && repositoryCredentials == repositories && this.operations == operations
      ensures managedEnvironments == environments && gitopsEngineClusters == engines
    {
      clusterUsers, clusterCredentials := users, credentials;
      clusterAccess, repositoryCredentials, this.operations := access, repositories, operations;
      managedEnvironments, gitopsEngineClusters := environments, engines;
    }

    ghost predicate UserInUse(id: Id)
      reads this
    {
      || (exists i :: 0 <= i < |clusterAccess| && clusterAccess[i].userId == id)
      || (exists i :: 0 <= i < |repositoryCredentials| && repositoryCredentials[i].userId == id)
      || (exists i :: 0 <= i < |operations| && operations[i].ownerUserId == id)
    }

    ghost predicate DisposableUser(u: ClusterUser, now: int)
      reads this
    {
      !UserInUse(u.id) && u.id != "cluster-agent-application-sync-user" && now - u.createdOn > 3600
    }

    ghost predicate CredentialsInUse(id: Id)
      reads this
    {
      || (exists i :: 0 <= i < |managedEnvironments| && managedEnvironments[i].credentialsId == id)
      || (exists i :: 0 <= i < |gitopsEngineClusters| && gitopsEngineClusters[i].credentialsId == id)
    }

    ghost predicate DisposableCredentials(c: ClusterCredentials, now: int)
      reads this
    {
      !CredentialsInUse(c.id) && now - c.createdOn > 3600
    }

    // Deletes at least half of the users that nobody refers to, and nobody else.
    method CleanClusterUsers(now: int, failing: set<Id>) returns (res: bool, ghost orphan: ClusterUser -> bool)
      requires Valid()
      modifies clusterUsers
      ensures Valid()
      ensures forall u :: orphan(u) <==> DisposableUser(u, now) && u.id !in failing
      ensures clusterUsers.rows == CleanPass(old(clusterUsers.rows), orphan)
      ensures forall u :: u in old(clusterUsers.rows) && u !in clusterUsers.rows ==> DisposableUser(u, now)
      ensures 2 * Orphans(clusterUsers.rows, orphan) <= Orphans(old(clusterUsers.rows), orphan)
      ensures failing == {} ==> !res
    {
      var fromAccess := Collect(clusterAccess, (a: ClusterAccess) => a.userId);
      var fromRepositories := Collect(repositoryCredentials, (r: RepositoryCredentials) => r.userId);
      var fromOperations := Collect(operations, (o: Operation) => o.ownerUserId);
      ColumnHas(clusterAccess, (a: ClusterAccess) => a.userId);
      ColumnHas(repositoryCredentials, (r: RepositoryCredentials) => r.userId);
      ColumnHas(operations, (o: Operation) => o.ownerUserId);
      var unused := (u: ClusterUser) =>
        && !(u.id in fromAccess || u.id in fromRepositories || u.id in fromOperations)
        && u.id != SPECIAL_CLUSTER_USER
        && now - u.createdOn > WAIT_TIME_FOR_ROW_DELETE;
      orphan := Removable(unused, clusterUsers.key, failing);
      HalvingBound(clusterUsers.rows, orphan);
      forall u | u in clusterUsers.rows && u !in CleanPass(clusterUsers.rows, orphan) ensures orphan(u) {
        DeletedRowsAreOrphans(clusterUsers.rows, orphan, u);
      }
      res := clusterUsers.CleanOrphans(unused, failing);
    }

    // The same for credentials, which two other tables refer to.
    method CleanClusterCredentials(now: int, failing: set<Id>) returns (res: bool, ghost orphan: ClusterCredentials -> bool)
      requires Valid()
      modifies clusterCredentials
      ensures Valid()
      ensures forall c :: orphan(c) <==> DisposableCredentials(c, now) && c.id !in failing
      ensures clusterCredentials.rows == CleanPass(old(clusterCredentials.rows), orphan)
      ensures forall c :: c in old(clusterCredentials.rows) && c !in clusterCredentials.rows ==> DisposableCredentials(c, now)
      ensures 2 * Orphans(clusterCredentials.rows, orphan) <= Orphans(old(clusterCredentials.rows), orphan)
      ensures failing == {} ==> !res
    {
      var fromEnvironments := Collect(managedEnvironments, (m: ManagedEnvironment) => m.credentialsId);
      var fromEngines := Collect(gitopsEngineClusters, (g: GitopsEngineCluster) => g.credentialsId);
      ColumnHas(managedEnvironments, (m: ManagedEnvironment) => m.credentialsId);
      ColumnHas(gitopsEngineClusters, (g: GitopsEngineCluster) => g.credentialsId);
      var unused := (c: ClusterCredentials) =>
        && !(c.id in fromEnvironments || c.id in fromEngines)
        && now - c.createdOn > WAIT_TIME_FOR_ROW_DELETE;
      orphan := Removable(unused, clusterCredentials.key, failing);
      HalvingBound(clusterCredentials.rows, orphan);
      forall c | c in clusterCredentials.rows && c !in CleanPass(clusterCredentials.rows, orphan) ensures orphan(c) {
        DeletedRowsAreOrphans(clusterCredentials.rows, orphan, c);
      }
      res := clusterCredentials.CleanOrphans(unused, failing);
    }
  }
}
