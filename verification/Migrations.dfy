/** Bringing a database to a schema version, up or down, one numbered step at a time. */
module Migrations {
  /** The names of the tables, and of the indexes with the table each belongs to. */
  datatype Schema = Schema(tables: set<string>, indexes: map<string, string>)

  datatype Migration = Migration(version: int, up: Schema -> Schema, down: Schema -> Schema)

  predicate Precedes(a: Migration, b: Migration, up: bool) {
    if up then a.version <= b.version else b.version <= a.version
  }

  function Insert(m: Migration, sorted: seq<Migration>, up: bool): (r: seq<Migration>)
    ensures |r| == |sorted| + 1
  {
    if sorted == [] || Precedes(m, sorted[0], up) then [m] + sorted else [sorted[0]] + Insert(m, sorted[1..], up)
  }

  function Sort(ms: seq<Migration>, up: bool): (sorted: seq<Migration>)
    ensures |sorted| == |ms|
  {
    if ms == [] then [] else Insert(ms[0], Sort(ms[1..], up), up)
  }

  predicate IsPending(version: int, current: int, target: int) {
    if current < target then current < version <= target else target < version <= current
  }

  function Filter(ms: seq<Migration>, current: int, target: int): (pending: seq<Migration>)
    ensures forall i :: 0 <= i < |pending| ==> IsPending(pending[i].version, current, target)
  {
    if ms == [] then []
    else (if IsPending(ms[0].version, current, target) then [ms[0]] else []) + Filter(ms[1..], current, target)
  }

  /** The schema and the version the database says it has. */
  datatype Stored = Stored(schema: Schema, version: int)

  function Applied(db: Stored, m: Migration, up: bool): Stored {
    if up then Stored(m.up(db.schema), m.version) else Stored(m.down(db.schema), m.version - 1)
  }

  function AppliedAll(db: Stored, ms: seq<Migration>, up: bool): Stored {
    if ms == [] then db else Applied(AppliedAll(db, ms[..|ms| - 1], up), ms[|ms| - 1], up)
  }

  lemma {:induction false} AppliedOneMore(db: Stored, ms: seq<Migration>, i: nat, up: bool)
    requires i < |ms|
    ensures AppliedAll(db, ms[..i + 1], up) == Applied(AppliedAll(db, ms[..i], up), ms[i], up)
  {
    assert ms[..i + 1][..i] == ms[..i];
  }

  /** Every pending step is taken. */
  function Migrated(ms: seq<Migration>, db: Stored, target: int): Stored {
    if db.version == target then db
    else
      var up := db.version < target;
      AppliedAll(db, Filter(Sort(ms, up), db.version, target), up)
  }

  class Database {
    var schema: Schema
    var userVersion: int

    constructor (schema: Schema)
      ensures this.schema == schema && userVersion == 0
    {
      this.schema := schema;
      userVersion := 0;
    }

    function Current(): Stored
      reads this
    {
      Stored(schema, userVersion)
    }
  }

  /** The guard inside the loop compares with the version read at the start; no pending step fails it. */
  method MigrateDatabase(migrations: seq<Migration>, targetVersion: int, db: Database)
    modifies db
    ensures db.Current() == Migrated(migrations, old(db.Current()), targetVersion)
  {
    var currentVersion := db.userVersion;
    if currentVersion == targetVersion {
      return;
    }
    var up := currentVersion < targetVersion;
    var pending := Filter(Sort(migrations, up), currentVersion, targetVersion);
    if |pending| == 0 {
      return;
    }
    for i := 0 to |pending|
      invariant db.Current() == AppliedAll(old(db.Current()), pending[..i], up)
    {
      var migration := pending[i];
      AppliedOneMore(old(db.Current()), pending, i, up);
      if (up && migration.version > currentVersion) || (!up && migration.version <= currentVersion) {
        if up {
          db.schema := migration.up(db.schema);
          db.userVersion := migration.version;
        } else {
          db.schema := migration.down(db.schema);
          db.userVersion := migration.version - 1;
        }
      }
    }
    assert pending[..|pending|] == pending;
  }

  // ----- Sorting a permutation of 1..n -----

  ghost predicate Distinct(ms: seq<Migration>) {
    forall i, j :: 0 <= i < j < |ms| ==> ms[i].version != ms[j].version
  }

  /** The versions are 1 to n, stored in any order. */
  ghost predicate Contiguous(ms: seq<Migration>) {
    Distinct(ms) && forall i :: 0 <= i < |ms| ==> 1 <= ms[i].version <= |ms|
  }

  ghost predicate InOrder(ms: seq<Migration>, up: bool) {
    forall i, j :: 0 <= i < j < |ms| ==> Precedes(ms[i], ms[j], up)
  }

  ghost predicate From(ms: seq<Migration>, all: seq<Migration>) {
    forall m :: m in ms ==> m in all
  }

  lemma {:induction false} InsertKeepsOrder(m: Migration, sorted: seq<Migration>, up: bool)
    requires InOrder(sorted, up)
    ensures InOrder(Insert(m, sorted, up), up) && From(Insert(m, sorted, up), [m] + sorted)
    ensures Distinct([m] + sorted) ==> Distinct(Insert(m, sorted, up))
    decreases |sorted|
  {
    if sorted == [] || Precedes(m, sorted[0], up) {
    } else {
      InsertKeepsOrder(m, sorted[1..], up);
      InsertBehindTheHead(m, sorted, Insert(m, sorted[1..], up), up);
    }
  }

  lemma {:induction false} InsertBehindTheHead(m: Migration, sorted: seq<Migration>, tail: seq<Migration>, up: bool)
    requires sorted != [] && InOrder(sorted, up) && !Precedes(m, sorted[0], up)
    requires InOrder(tail, up) && From(tail, [m] + sorted[1..]) && (Distinct([m] + sorted[1..]) ==> Distinct(tail))
    ensures InOrder([sorted[0]] + tail, up) && From([sorted[0]] + tail, [m] + sorted)
    ensures Distinct([m] + sorted) ==> Distinct([sorted[0]] + tail)
  {
    forall i | 0 <= i < |tail| ensures Precedes(sorted[0], tail[i], up) {
      assert tail[i] in [m] + sorted[1..];
    }
    if Distinct([m] + sorted) {
      assert Distinct([m] + sorted[1..]) by {
        assert [m] + sorted[1..] == ([m] + sorted)[..1] + ([m] + sorted)[2..];
      }
      forall i | 0 <= i < |tail| ensures sorted[0].version != tail[i].version {
        assert tail[i] in [m] + sorted[1..];
        assert ([m] + sorted)[0] == m && ([m] + sorted)[1] == sorted[0];
        if tail[i] != m {
          var k :| 0 <= k < |sorted[1..]| && sorted[1..][k] == tail[i];
          assert ([m] + sorted)[k + 2] == tail[i];
        }
      }
    }
  }

  lemma {:induction false} SortSorts(ms: seq<Migration>, up: bool)
    ensures InOrder(Sort(ms, up), up) && From(Sort(ms, up), ms) && (Distinct(ms) ==> Distinct(Sort(ms, up)))
    decreases |ms|
  {
    if ms == [] {
    } else {
      var tail := Sort(ms[1..], up);
      SortSorts(ms[1..], up);
      InsertKeepsOrder(ms[0], tail, up);
      if Distinct(ms) {
        forall i | 0 <= i < |tail| ensures ms[0].version != tail[i].version {
          assert tail[i] in ms[1..];
        }
        assert Distinct([ms[0]] + tail);
      }
    }
  }

  lemma {:induction false} AscendingVersions(ms: seq<Migration>, i: nat)
    requires Contiguous(ms) && InOrder(ms, true) && i < |ms|
    ensures ms[i].version >= i + 1
  {
    if i == 0 {
    } else {
      AscendingVersions(ms, i - 1);
      assert Precedes(ms[i - 1], ms[i], true);
    }
  }

  lemma {:induction false} AscendingVersionsFromTheEnd(ms: seq<Migration>, i: nat)
    requires Contiguous(ms) && InOrder(ms, true) && i < |ms|
    ensures ms[i].version <= i + 1
    decreases |ms| - i
  {
    if i + 1 == |ms| {
    } else {
      AscendingVersionsFromTheEnd(ms, i + 1);
      assert Precedes(ms[i], ms[i + 1], true);
    }
  }

  lemma {:induction false} DescendingVersions(ms: seq<Migration>, i: nat)
    requires Contiguous(ms) && InOrder(ms, false) && i < |ms|
    ensures ms[i].version <= |ms| - i
  {
    if i == 0 {
    } else {
      DescendingVersions(ms, i - 1);
      assert Precedes(ms[i - 1], ms[i], false);
    }
  }

  lemma {:induction false} DescendingVersionsFromTheEnd(ms: seq<Migration>, i: nat)
    requires Contiguous(ms) && InOrder(ms, false) && i < |ms|
    ensures ms[i].version >= |ms| - i
    decreases |ms| - i
  {
    if i + 1 == |ms| {
    } else {
      DescendingVersionsFromTheEnd(ms, i + 1);
      assert Precedes(ms[i], ms[i + 1], false);
    }
  }

  /** The migration to version `v`, wherever it is stored. */
  ghost function Find(ms: seq<Migration>, v: int): Migration
    requires exists i :: 0 <= i < |ms| && ms[i].version == v
  {
    var i :| 0 <= i < |ms| && ms[i].version == v;
    ms[i]
  }

  ghost predicate Has(ms: seq<Migration>, v: int) {
    exists i :: 0 <= i < |ms| && ms[i].version == v
  }

  /** Sorting puts the migration to version k + 1 at k when going up, and at n - 1 - k when going down. */
  lemma {:induction false} SortedByVersion(ms: seq<Migration>, up: bool, k: nat)
    requires Contiguous(ms) && k < |ms|
    ensures Has(ms, k + 1) && Sort(ms, up)[if up then k else |ms| - 1 - k] == Find(ms, k + 1)
  {
    SortSorts(ms, up);
    var sorted := Sort(ms, up);
    forall i | 0 <= i < |sorted| ensures 1 <= sorted[i].version <= |ms| {
      assert sorted[i] in ms;
    }
    var i := if up then k else |ms| - 1 - k;
    if up {
      AscendingVersions(sorted, i);
      AscendingVersionsFromTheEnd(sorted, i);
    } else {
      DescendingVersions(sorted, i);
      DescendingVersionsFromTheEnd(sorted, i);
    }
    assert sorted[i] in ms;
  }

  // ----- Taking the pending steps -----

  lemma {:induction false} FilterOfSum(a: seq<Migration>, b: seq<Migration>, current: int, target: int)
    ensures Filter(a + b, current, target) == Filter(a, current, target) + Filter(b, current, target)
  {
    if a == [] {
      assert a + b == b;
    } else {
      FilterOfSum(a[1..], b, current, target);
      assert (a + b)[1..] == a[1..] + b;
    }
  }

  lemma {:induction false} FilterAll(ms: seq<Migration>, current: int, target: int)
    requires forall i :: 0 <= i < |ms| ==> IsPending(ms[i].version, current, target)
    ensures Filter(ms, current, target) == ms
  {
    if ms == [] {
    } else {
      FilterAll(ms[1..], current, target);
    }
  }

  lemma {:induction false} FilterNone(ms: seq<Migration>, current: int, target: int)
    requires forall i :: 0 <= i < |ms| ==> !IsPending(ms[i].version, current, target)
    ensures Filter(ms, current, target) == []
  {
    if ms == [] {
    } else {
      FilterNone(ms[1..], current, target);
    }
  }

  /** When the steps from `from` to `to` are the pending ones, they are what is left of the list. */
  lemma {:induction false} ThreeParts(ms: seq<Migration>, start: nat, end: nat)
    requires start <= end <= |ms|
    ensures ms == ms[..start] + (ms[start..end] + ms[end..])
  {
  }

  lemma {:induction false} FilterMiddle(ms: seq<Migration>, start: nat, end: nat, current: int, target: int)
    requires start <= end <= |ms|
    requires forall i :: 0 <= i < |ms| ==> (IsPending(ms[i].version, current, target) <==> start <= i < end)
    ensures Filter(ms, current, target) == ms[start..end]
  {
    ThreeParts(ms, start, end);
    FilterNone(ms[..start], current, target);
    FilterAll(ms[start..end], current, target);
    FilterNone(ms[end..], current, target);
    FilterOfSum(ms[start..end], ms[end..], current, target);
    FilterOfSum(ms[..start], ms[start..end] + ms[end..], current, target);
  }

  /** The schema that the first `v` steps make of the schema `s0`. */
  ghost function SchemaAt(ms: seq<Migration>, s0: Schema, v: nat): Schema
    requires Contiguous(ms) && v <= |ms|
  {
    if v == 0 then s0
    else
      SortedByVersion(ms, true, v - 1);
      Find(ms, v).up(SchemaAt(ms, s0, v - 1))
  }

  /** Taking a step down gives back the schema before the step up. */
  ghost predicate Invertible(ms: seq<Migration>, s0: Schema)
    requires Contiguous(ms)
  {
    forall v :: 0 < v <= |ms| ==> Has(ms, v) && Find(ms, v).down(SchemaAt(ms, s0, v)) == SchemaAt(ms, s0, v - 1)
  }

  ghost function At(ms: seq<Migration>, s0: Schema, v: nat): Stored
    requires Contiguous(ms) && v <= |ms|
  {
    Stored(SchemaAt(ms, s0, v), v)
  }

  lemma {:induction false} GoingUp(ms: seq<Migration>, s0: Schema, start: nat, end: nat)
    requires Contiguous(ms) && start <= end <= |ms|
    ensures AppliedAll(At(ms, s0, start), Sort(ms, true)[start..end], true) == At(ms, s0, end)
    decreases end
  {
    if start == end {
    } else {
      GoingUp(ms, s0, start, end - 1);
      SortedByVersion(ms, true, end - 1);
      VersionOfFound(ms, end);
      OneStepLater(At(ms, s0, start), Sort(ms, true), start, end - 1, end, At(ms, s0, end - 1), At(ms, s0, end), true);
    }
  }

  lemma {:induction false} NoneApplied(db: Stored, steps: seq<Migration>, start: nat, end: nat, up: bool)
    requires start == end <= |steps|
    ensures AppliedAll(db, steps[start..end], up) == db
  {
  }

  /** The last of a slice of steps is taken after the others. */
  lemma {:induction false} OneStepLater(
    db: Stored, steps: seq<Migration>, start: nat, last: nat, end: nat, before: Stored, after: Stored, up: bool)
    requires start <= last < |steps| && end == last + 1
    requires AppliedAll(db, steps[start..last], up) == before && Applied(before, steps[last], up) == after
    ensures AppliedAll(db, steps[start..end], up) == after
  {
    assert steps[start..end][..last - start] == steps[start..last];
    assert steps[start..end][last - start] == steps[last];
  }

  lemma {:induction false} GoingDown(ms: seq<Migration>, s0: Schema, start: nat, end: nat)
    requires Contiguous(ms) && Invertible(ms, s0) && end <= start <= |ms|
    ensures AppliedAll(At(ms, s0, start), Sort(ms, false)[|ms| - start..|ms| - end], false) == At(ms, s0, end)
  {
    GoingDownFrom(ms, s0, start, end, Sort(ms, false), At(ms, s0, start), |ms| - start, |ms| - end);
  }

  lemma {:induction false} GoingDownFrom(
    ms: seq<Migration>, s0: Schema, start: nat, end: nat, steps: seq<Migration>, db: Stored, first: nat, last: nat)
    requires Contiguous(ms) && Invertible(ms, s0) && end <= start <= |ms|
    requires steps == Sort(ms, false) && db == At(ms, s0, start) && first == |ms| - start && last == |ms| - end
    ensures AppliedAll(db, steps[first..last], false) == At(ms, s0, end)
    decreases start - end
  {
    if end == start {
      NoneApplied(db, steps, first, last, false);
    } else {
      GoingDownFrom(ms, s0, start, end + 1, steps, db, first, last - 1);
      SortedStepUndone(ms, s0, end + 1, last - 1);
      OneStepLater(db, steps, first, last - 1, last, At(ms, s0, end + 1), At(ms, s0, end), false);
    }
  }

  lemma {:induction false} SortedStepUndone(ms: seq<Migration>, s0: Schema, v: nat, i: nat)
    requires Contiguous(ms) && Invertible(ms, s0) && 0 < v <= |ms| && i == |ms| - v
    ensures Applied(At(ms, s0, v), Sort(ms, false)[i], false) == At(ms, s0, v - 1)
  {
    SortedByVersion(ms, false, v - 1);
    OneStepUndone(ms, s0, v);
  }

  lemma {:induction false} OneStepUndone(ms: seq<Migration>, s0: Schema, v: nat)
    requires Contiguous(ms) && Invertible(ms, s0) && 0 < v <= |ms|
    ensures Has(ms, v) && Applied(At(ms, s0, v), Find(ms, v), false) == At(ms, s0, v - 1)
  {
    VersionOfFound(ms, v);
  }

  function Clamped(target: int, n: nat): nat {
    if target < 0 then 0 else if target > n then n else target
  }

  lemma {:induction false} PendingGoingUp(ms: seq<Migration>, current: nat, target: int)
    requires Contiguous(ms) && current <= |ms| && current < target
    ensures Filter(Sort(ms, true), current, target) == Sort(ms, true)[current..Clamped(target, |ms|)]
  {
    forall i | 0 <= i < |ms| ensures Sort(ms, true)[i].version == i + 1 {
      SortedByVersion(ms, true, i);
    }
    FilterMiddle(Sort(ms, true), current, Clamped(target, |ms|), current, target);
  }

  lemma {:induction false} PendingGoingDown(ms: seq<Migration>, current: nat, target: int)
    requires Contiguous(ms) && current <= |ms| && target < current
    ensures Filter(Sort(ms, false), current, target) == Sort(ms, false)[|ms| - current..|ms| - Clamped(target, |ms|)]
  {
    forall i | 0 <= i < |ms| ensures Sort(ms, false)[i].version == |ms| - i {
      SortedByVersion(ms, false, |ms| - 1 - i);
    }
    FilterMiddle(Sort(ms, false), |ms| - current, |ms| - Clamped(target, |ms|), current, target);
  }

  lemma {:induction false} MigratedToTarget(ms: seq<Migration>, s0: Schema, current: nat, target: int)
    requires Contiguous(ms) && current <= |ms| && (Invertible(ms, s0) || current <= target)
    ensures Migrated(ms, At(ms, s0, current), target) == At(ms, s0, Clamped(target, |ms|))
  {
    if current < target {
      PendingGoingUp(ms, current, target);
      GoingUp(ms, s0, current, Clamped(target, |ms|));
    } else if target < current {
      PendingGoingDown(ms, current, target);
      GoingDown(ms, s0, current, Clamped(target, |ms|));
    }
  }

  // ----- Paths -----

  function Path(ms: seq<Migration>, db: Stored, targets: seq<int>): Stored {
    if targets == [] then db else Migrated(ms, Path(ms, db, targets[..|targets| - 1]), targets[|targets| - 1])
  }

  /** A new database migrated straight to the last target. */
  function Fresh(ms: seq<Migration>, s0: Schema, target: int): Stored {
    Migrated(ms, Stored(s0, 0), target)
  }

  ghost predicate PathsDoNotMatter(ms: seq<Migration>, s0: Schema) {
    forall targets: seq<int> :: targets != [] ==>
      Path(ms, Stored(s0, 0), targets) == Fresh(ms, s0, Clamped(targets[|targets| - 1], |ms|))
  }

  lemma {:induction false} PathEndsAtTheLastTarget(ms: seq<Migration>, s0: Schema, targets: seq<int>)
    requires Contiguous(ms) && Invertible(ms, s0)
    ensures Path(ms, Stored(s0, 0), targets) ==
              At(ms, s0, if targets == [] then 0 else Clamped(targets[|targets| - 1], |ms|))
    decreases |targets|
  {
    if targets == [] {
    } else {
      var init := targets[..|targets| - 1];
      PathEndsAtTheLastTarget(ms, s0, init);
      MigratedToTarget(ms, s0, if init == [] then 0 else Clamped(init[|init| - 1], |ms|), targets[|targets| - 1]);
    }
  }

  lemma {:induction false} PathOfTwo(ms: seq<Migration>, db: Stored, first: int, second: int)
    ensures Path(ms, db, [first, second]) == Migrated(ms, Migrated(ms, db, first), second)
  {
    assert [first, second][..1] == [first] && [first][..0] == [];
    assert Path(ms, db, [first]) == Migrated(ms, db, first);
  }

  lemma {:induction false} OneStepDown(ms: seq<Migration>, s0: Schema, v: nat)
    requires Contiguous(ms) && 0 < v <= |ms|
    ensures Has(ms, v) && Migrated(ms, At(ms, s0, v), v - 1) == Stored(Find(ms, v).down(SchemaAt(ms, s0, v)), v - 1)
  {
    OneStepPendingDown(ms, v);
    AppliedOne(At(ms, s0, v), Find(ms, v), false);
    VersionOfFound(ms, v);
  }

  lemma {:induction false} VersionOfFound(ms: seq<Migration>, v: int)
    requires Has(ms, v)
    ensures Find(ms, v).version == v
  {
  }

  lemma {:induction false} AppliedOne(db: Stored, m: Migration, up: bool)
    ensures AppliedAll(db, [m], up) == Applied(db, m, up)
  {
    assert [m][..0] == [] && AppliedAll(db, [], up) == db;
  }

  lemma {:induction false} OneStepPendingDown(ms: seq<Migration>, v: nat)
    requires Contiguous(ms) && 0 < v <= |ms|
    ensures Has(ms, v) && Filter(Sort(ms, false), v, v - 1) == [Find(ms, v)]
  {
    PendingGoingDown(ms, v, v - 1);
    SortedByVersion(ms, false, v - 1);
    OneElement(Sort(ms, false), |ms| - v);
  }

  lemma {:induction false} OneElement(ms: seq<Migration>, i: nat)
    requires i < |ms|
    ensures ms[i..i + 1] == [ms[i]]
  {
  }

  lemma {:induction false} StepDownAndUp(ms: seq<Migration>, s0: Schema, v: nat)
    requires Contiguous(ms) && 0 < v <= |ms| && PathsDoNotMatter(ms, s0)
    ensures Has(ms, v) && Find(ms, v).down(SchemaAt(ms, s0, v)) == SchemaAt(ms, s0, v - 1)
  {
    PathUpAndDown(ms, s0, v, v - 1);
    LastOfTwo(ms, s0, v, v - 1);
    FreshIsAtTarget(ms, s0, v - 1);
    OneStepDown(ms, s0, v);
    assert Stored(Find(ms, v).down(SchemaAt(ms, s0, v)), v - 1) == At(ms, s0, v - 1);
  }

  lemma {:induction false} PathUpAndDown(ms: seq<Migration>, s0: Schema, v: nat, w: nat)
    requires Contiguous(ms) && v <= |ms|
    ensures Path(ms, Stored(s0, 0), [v, w]) == Migrated(ms, At(ms, s0, v), w)
  {
    PathOfTwo(ms, Stored(s0, 0), v, w);
    FreshIsAtTarget(ms, s0, v);
  }

  lemma {:induction false} LastOfTwo(ms: seq<Migration>, s0: Schema, first: nat, second: nat)
    requires PathsDoNotMatter(ms, s0) && second <= |ms|
    ensures Path(ms, Stored(s0, 0), [first, second]) == Fresh(ms, s0, second)
  {
    var targets := [first, second];
    assert Path(ms, Stored(s0, 0), targets) == Fresh(ms, s0, Clamped(targets[|targets| - 1], |ms|));
  }

  /**
   * However the steps are stored, migrating through any targets ends with the version of the
   * last one (or the nearest there is) and the schema of a fresh database migrated straight
   * there, exactly when every step down undoes its step up.
   */
  lemma {:induction false} PathsDoNotMatterExactlyWhen(ms: seq<Migration>, s0: Schema)
    requires Contiguous(ms)
    ensures PathsDoNotMatter(ms, s0) <==> Invertible(ms, s0)
    ensures forall target: int :: Fresh(ms, s0, target).version == Clamped(target, |ms|)
  {
    forall target: int ensures Fresh(ms, s0, target) == At(ms, s0, Clamped(target, |ms|)) {
      FreshIsAtTarget(ms, s0, target);
    }
    if Invertible(ms, s0) {
      forall targets: seq<int> | targets != []
        ensures Path(ms, Stored(s0, 0), targets) == Fresh(ms, s0, Clamped(targets[|targets| - 1], |ms|))
      {
        PathEndsAtTheLastTarget(ms, s0, targets);
      }
    }
    if PathsDoNotMatter(ms, s0) {
      forall v | 0 < v <= |ms| ensures Has(ms, v) && Find(ms, v).down(SchemaAt(ms, s0, v)) == SchemaAt(ms, s0, v - 1) {
        StepDownAndUp(ms, s0, v);
      }
    }
  }

  lemma {:induction false} FreshIsAtTarget(ms: seq<Migration>, s0: Schema, target: int)
    requires Contiguous(ms)
    ensures Fresh(ms, s0, target) == At(ms, s0, Clamped(target, |ms|))
  {
    if target < 0 {
      PendingGoingDown(ms, 0, target);
      assert Sort(ms, false)[|ms|..|ms|] == [];
    } else {
      MigratedToTarget(ms, s0, 0, target);
    }
  }

  // ----- The steps of the repository -----

  function WithoutTable(s: Schema, table: string): Schema {
    Schema(s.tables - {table}, map i | i in s.indexes && s.indexes[i] != table :: s.indexes[i])
  }

  function Unchanged(s: Schema): Schema {
    s
  }

  function AddEvents(s: Schema): Schema {
    s.(tables := s.tables + {"events"})
  }

  /** Dropping a table drops its indexes. */
  function DropEvents(s: Schema): Schema {
    WithoutTable(s, "events")
  }

  function AddIndexes(s: Schema): Schema {
    s.(indexes := s.indexes["idx_events_userToken" := "events"]["idx_events_ip" := "events"])
  }

  function DropIndexes(s: Schema): Schema {
    s.(indexes := s.indexes - {"idx_events_userToken", "idx_events_ip"})
  }

  const MIGRATIONS: seq<Migration> := [
    Migration(1, Unchanged, Unchanged), Migration(2, AddEvents, DropEvents), Migration(3, AddIndexes, DropIndexes)]

  lemma {:induction false} RepositoryMigrationsAreContiguous(v: nat)
    requires 0 < v <= 3
    ensures Contiguous(MIGRATIONS) && |MIGRATIONS| == 3 && Has(MIGRATIONS, v) && Find(MIGRATIONS, v) == MIGRATIONS[v - 1]
  {
    assert MIGRATIONS[v - 1].version == v;
  }

  lemma {:induction false} NextSchema(ms: seq<Migration>, s0: Schema, v: nat)
    requires Contiguous(ms) && 0 < v <= |ms|
    ensures Has(ms, v) && SchemaAt(ms, s0, v) == Find(ms, v).up(SchemaAt(ms, s0, v - 1))
  {
    SortedByVersion(ms, true, v - 1);
  }

  lemma {:induction false} DroppingUndoesAdding(s: Schema)
    requires "events" !in s.tables && "events" !in s.indexes.Values
    requires "idx_events_userToken" !in s.indexes && "idx_events_ip" !in s.indexes
    ensures DropEvents(AddEvents(s)) == s
    ensures DropIndexes(AddIndexes(AddEvents(s))) == AddEvents(s)
  {
    assert forall i :: i in s.indexes ==> s.indexes[i] in s.indexes.Values;
    assert DropEvents(AddEvents(s)).tables == s.tables;
    assert DropEvents(AddEvents(s)).indexes == s.indexes;
    assert DropIndexes(AddIndexes(s)).indexes == s.indexes;
  }

  /** On a database without an events table, the repository's own steps can be taken in any path. */
  lemma {:induction false} RepositoryMigrationsArePathIndependent(s0: Schema)
    requires "events" !in s0.tables && "events" !in s0.indexes.Values
    requires "idx_events_userToken" !in s0.indexes && "idx_events_ip" !in s0.indexes
    ensures PathsDoNotMatter(MIGRATIONS, s0)
  {
    RepositoryMigrationsAreContiguous(1);
    RepositoryMigrationsAreContiguous(2);
    RepositoryMigrationsAreContiguous(3);
    NextSchema(MIGRATIONS, s0, 1);
    NextSchema(MIGRATIONS, s0, 2);
    NextSchema(MIGRATIONS, s0, 3);
    DroppingUndoesAdding(s0);
    forall v | 0 < v <= |MIGRATIONS|
      ensures Has(MIGRATIONS, v) && Find(MIGRATIONS, v).down(SchemaAt(MIGRATIONS, s0, v)) == SchemaAt(MIGRATIONS, s0, v - 1)
    {
      assert v == 1 || v == 2 || v == 3;
    }
    PathsDoNotMatterExactlyWhen(MIGRATIONS, s0);
  }

  /** What a database holds at a version: from two on a table of events, from three on its two indexes. */
  ghost predicate HoldsAt(s0: Schema, version: int, s: Schema) {
    && s.tables == (if version >= 2 then s0.tables + {"events"} else s0.tables)
    && s.indexes == (if version >= 3 then s0.indexes["idx_events_userToken" := "events"]["idx_events_ip" := "events"] else s0.indexes)
  }

  /**
   * On a database without an events table, the repository's own steps lead from any target to the next: the last one,
   * or the nearest of the versions 0 to 3, says what the database holds.
   */
  lemma {:induction false} RepositorySchemas(s0: Schema, targets: seq<int>, last: int, end: int)
    requires "events" !in s0.tables && "events" !in s0.indexes.Values
    requires "idx_events_userToken" !in s0.indexes && "idx_events_ip" !in s0.indexes
    requires targets != [] && last == targets[|targets| - 1]
    requires end == if last <= 0 then 0 else if last >= 3 then 3 else last
    ensures Path(MIGRATIONS, Stored(s0, 0), targets).version == end
    ensures HoldsAt(s0, end, Path(MIGRATIONS, Stored(s0, 0), targets).schema)
  {
    RepositoryMigrationsAreContiguous(1);
    RepositoryMigrationsArePathIndependent(s0);
    assert Path(MIGRATIONS, Stored(s0, 0), targets) == Fresh(MIGRATIONS, s0, Clamped(last, |MIGRATIONS|));
    FreshIsAtTarget(MIGRATIONS, s0, end);
    SchemaAtVersion(s0, end);
  }

  lemma {:induction false} SchemaAtVersion(s0: Schema, v: nat)
    requires v <= 3
    ensures Contiguous(MIGRATIONS) && |MIGRATIONS| == 3 && HoldsAt(s0, v, SchemaAt(MIGRATIONS, s0, v))
  {
    RepositoryMigrationsAreContiguous(1);
    if v > 0 {
      SchemaAtVersion(s0, v - 1);
      RepositoryMigrationsAreContiguous(v);
      NextSchema(MIGRATIONS, s0, v);
    }
  }
}
