/**
 The nightly job that physically removes rows whose tombstone is older than the retention period.

 Both tables are one map from keys to rows; a session row names the user row it references.  The
 job's two DELETE statements are separate steps, interleaved with every other writer.
 */
module Purge {
  import opened Wrappers

  datatype Target = UserSession | User

  datatype Key = Key(target: Target, id: nat)

  datatype Row = Row(data: nat, deletedAt: Option<int>, parent: Option<Key>)

  type Rows = map<Key, Row>

  const SECONDS_PER_DAY: nat := 86400

  const DEFAULT_RETENTION_DAYS: nat := 30

  const MIGRATION_TARGETS: seq<Target> := [UserSession, User]

  // ----- one DELETE -----

  predicate Expired(row: Row, cutoff: int) {
    row.deletedAt.Some? && row.deletedAt.value < cutoff
  }

  function Doomed(rows: Rows, target: Target, cutoff: int): set<Key> {
    set k | k in rows && k.target == target && Expired(rows[k], cutoff)
  }

  /** A row that stays refers to a row that would go: the foreign key forbids the whole statement. */
  predicate Restricted(rows: Rows, doomed: set<Key>) {
    exists k :: k in rows && k !in doomed && rows[k].parent.Some? && rows[k].parent.value in doomed
  }

  function Delete(rows: Rows, target: Target, cutoff: int): Option<Rows> {
    var doomed := Doomed(rows, target, cutoff);
    if Restricted(rows, doomed) then None else Some(rows - doomed)
  }

  function AfterDelete(rows: Rows, target: Target, cutoff: int): Rows {
    var deleted := Delete(rows, target, cutoff);
    if deleted.Some? then deleted.value else rows
  }

  // ----- the job beside every other writer -----

  /** What is left to do of a job that has computed its cutoff. */
  datatype Job = Job(cutoff: int, targets: seq<Target>)

  datatype World = World(now: int, rows: Rows, jobs: map<nat, Job>)

  datatype Action =
    | Tick(seconds: nat)
    | Create(key: Key, row: Row)
    | Stamp(keys: set<Key>)
    | Restore(keys: set<Key>)
    | Update(keys: set<Key>, data: nat)
    | StartJob(job: nat)
    | StepJob(job: nat)

  predicate HasItsParent(rows: Rows, key: Key, row: Row) {
    if key.target.User? then row.parent.None?
    else row.parent.Some? && row.parent.value.target.User? && row.parent.value in rows
  }

  predicate Enabled(w: World, a: Action) {
    match a
    case Create(key, row) => key !in w.rows && row.deletedAt.None? && HasItsParent(w.rows, key, row)
    case StartJob(job) => job !in w.jobs
    case StepJob(job) => job in w.jobs && w.jobs[job].targets != []
    case _ => true
  }

  function Marked(rows: Rows, keys: set<Key>, deletedAt: Option<int>): Rows {
    map k | k in rows :: if k in keys then rows[k].(deletedAt := deletedAt) else rows[k]
  }

  function Do(w: World, a: Action, days: nat): World
    requires Enabled(w, a)
  {
    match a
    case Tick(seconds) => w.(now := w.now + seconds)
    case Create(key, row) => w.(rows := w.rows[key := row])
    case Stamp(keys) => w.(rows := Marked(w.rows, keys, Some(w.now)))
    case Restore(keys) => w.(rows := Marked(w.rows, keys, None))
    case Update(keys, data) =>
      w.(rows := map k | k in w.rows :: if k in keys then w.rows[k].(data := data) else w.rows[k])
    case StartJob(job) => w.(jobs := w.jobs[job := Job(w.now - days * SECONDS_PER_DAY, MIGRATION_TARGETS)])
    case StepJob(job) =>
      var j := w.jobs[job];
      w.(rows := AfterDelete(w.rows, j.targets[0], j.cutoff), jobs := w.jobs[job := j.(targets := j.targets[1..])])
  }

  const EMPTY: World := World(0, map[], map[])

  ghost predicate Follows(ws: seq<World>, days: nat, i: nat)
    requires i + 1 < |ws|
  {
    exists a :: Enabled(ws[i], a) && ws[i + 1] == Do(ws[i], a, days)
  }

  ghost predicate IsRun(ws: seq<World>, days: nat) {
    && |ws| > 0
    && ws[0] == EMPTY
    && forall i: nat {:trigger Follows(ws, days, i)} :: i + 1 < |ws| ==> Follows(ws, days, i)
  }

  lemma StepAt(ws: seq<World>, days: nat, i: nat) returns (a: Action)
    requires IsRun(ws, days) && i + 1 < |ws|
    ensures Enabled(ws[i], a) && ws[i + 1] == Do(ws[i], a, days)
  {
    assert Follows(ws, days, i);
    a :| Enabled(ws[i], a) && ws[i + 1] == Do(ws[i], a, days);
  }

  // ----- invariants -----

  /** Every session row has its user row. */
  predicate ParentsPresent(rows: Rows) {
    forall k <- rows.Keys :: HasItsParent(rows, k, rows[k])
  }

  /** No job's cutoff is less than the retention period ago. */
  predicate CutoffsOld(w: World, days: nat) {
    forall j <- w.jobs.Keys :: w.jobs[j].cutoff <= w.now - days * SECONDS_PER_DAY
  }

  lemma DeleteKeepsParents(rows: Rows, target: Target, cutoff: int)
    requires ParentsPresent(rows)
    ensures ParentsPresent(AfterDelete(rows, target, cutoff))
  {
    var after, doomed := AfterDelete(rows, target, cutoff), Doomed(rows, target, cutoff);
    forall k <- after.Keys
      ensures HasItsParent(after, k, after[k])
    {
      assert HasItsParent(rows, k, rows[k]);
    }
  }

  lemma DoKeeps(w: World, a: Action, days: nat)
    requires Enabled(w, a) && ParentsPresent(w.rows) && CutoffsOld(w, days)
    ensures ParentsPresent(Do(w, a, days).rows) && CutoffsOld(Do(w, a, days), days)
  {
    if a.StepJob? {
      DeleteKeepsParents(w.rows, w.jobs[a.job].targets[0], w.jobs[a.job].cutoff);
    } else {
      var rows := Do(w, a, days).rows;
      forall k <- rows.Keys
        ensures HasItsParent(rows, k, rows[k])
      {
        assert k in w.rows ==> HasItsParent(w.rows, k, w.rows[k]);
      }
    }
  }

  /** At every moment of every run no session lacks its user, and no cutoff is too recent. */
  lemma {:induction false} RunKeeps(ws: seq<World>, days: nat, i: nat)
    requires IsRun(ws, days) && i < |ws|
    ensures ParentsPresent(ws[i].rows) && CutoffsOld(ws[i], days)
  {
    if i > 0 {
      RunKeeps(ws, days, i - 1);
      var a := StepAt(ws, days, i - 1);
      DoKeeps(ws[i - 1], a, days);
    }
  }

  // ----- purge safety -----

  predicate StampedWith(w: World, k: Key, at: int) {
    k in w.rows && w.rows[k].deletedAt == Some(at)
  }

  /** What the writers do to a row: mark it with the present instant, unmark it, change its data. */
  lemma WritersSpelled(w: World, keys: set<Key>, data: nat, days: nat, k: Key)
    requires k in w.rows
    ensures var row := w.rows[k];
      var stamped, restored := Do(w, Stamp(keys), days), Do(w, Restore(keys), days);
      var updated := Do(w, Update(keys, data), days);
      && k in stamped.rows && stamped.rows[k] == (if k in keys then Row(row.data, Some(w.now), row.parent) else row)
      && k in restored.rows && restored.rows[k] == (if k in keys then Row(row.data, None, row.parent) else row)
      && k in updated.rows && updated.rows[k] == (if k in keys then Row(data, row.deletedAt, row.parent) else row)
  {
  }

  /** A tombstone was set at the moment it bears, and has stood unchanged ever since. */
  lemma {:induction false} StampHistory(ws: seq<World>, days: nat, i: nat, k: Key) returns (m: nat)
    requires IsRun(ws, days) && i < |ws|
    requires k in ws[i].rows && ws[i].rows[k].deletedAt.Some?
    ensures m < i && ws[m].now == ws[i].rows[k].deletedAt.value
    ensures forall j :: m < j <= i ==> StampedWith(ws[j], k, ws[m].now)
  {
    assert i != 0;
    var at := ws[i].rows[k].deletedAt.value;
    var a := StepAt(ws, days, i - 1);
    if StampedWith(ws[i - 1], k, at) {
      m := StampHistory(ws, days, i - 1, k);
    } else {
      m := i - 1;
    }
  }

  /**
   A row that disappears was marked deleted more than the retention period earlier, and at no moment
   in between was it restored, marked again, or recreated.
   */
  lemma PurgeSafety(ws: seq<World>, days: nat, i: nat, k: Key) returns (m: nat)
    requires IsRun(ws, days) && i + 1 < |ws|
    requires k in ws[i].rows && k !in ws[i + 1].rows
    ensures m < i && ws[m].now < ws[i].now - days * SECONDS_PER_DAY
    ensures forall j :: m < j <= i ==> StampedWith(ws[j], k, ws[m].now)
  {
    RunKeeps(ws, days, i);
    var a := StepAt(ws, days, i);
    assert a.StepJob? && ws[i].jobs[a.job].cutoff <= ws[i].now - days * SECONDS_PER_DAY;
    m := StampHistory(ws, days, i, k);
  }

  function Live(rows: Rows): Rows {
    map k | k in rows && rows[k].deletedAt.None? :: rows[k]
  }

  /** What a caller can see is the same before and after either DELETE, whether it succeeds or not. */
  lemma PurgeKeepsLiveView(w: World, job: nat, days: nat)
    requires Enabled(w, StepJob(job))
    ensures Live(Do(w, StepJob(job), days).rows) == Live(w.rows)
  {
  }

  // ----- what the job fails to remove -----

  /** Session s is never marked deleted. */
  ghost predicate SessionUnmarked(ws: seq<World>, from: nat, s: Key) {
    forall j :: from <= j < |ws| && s in ws[j].rows ==> ws[j].rows[s].deletedAt.None?
  }

  lemma UnmarkedStep(ws: seq<World>, days: nat, i: nat, s: Key)
    requires IsRun(ws, days) && i + 1 < |ws|
    requires s in ws[i].rows && ws[i].rows[s].deletedAt.None?
    ensures s in ws[i + 1].rows && ws[i + 1].rows[s].parent == ws[i].rows[s].parent
  {
    var a := StepAt(ws, days, i);
  }

  /**
   Deleting a user marks the user row but none of its sessions.  Such a session, for as long as
   nothing marks it, keeps its user's row in the table for ever, and with it every other user's
   row: once that user has expired, the statement for the user table removes nothing at all.
   */
  lemma {:induction false} SessionPinsUser(ws: seq<World>, days: nat, from: nat, i: nat, s: Key)
    requires IsRun(ws, days) && from <= i < |ws|
    requires s in ws[from].rows && s.target.UserSession? && SessionUnmarked(ws, from, s)
    ensures s in ws[i].rows && ws[i].rows[s].parent == ws[from].rows[s].parent
    ensures HasItsParent(ws[i].rows, s, ws[i].rows[s])
    ensures forall cutoff :: Expired(ws[i].rows[ws[i].rows[s].parent.value], cutoff) ==>
      AfterDelete(ws[i].rows, User, cutoff) == ws[i].rows
    decreases i - from
  {
    if i > from {
      SessionPinsUser(ws, days, from, i - 1, s);
      UnmarkedStep(ws, days, i - 1, s);
    }
    RunKeeps(ws, days, i);
    var rows := ws[i].rows;
    assert HasItsParent(rows, s, rows[s]);
    forall cutoff | Expired(rows[rows[s].parent.value], cutoff)
      ensures AfterDelete(rows, User, cutoff) == rows
    {
      assert rows[s].parent.value in Doomed(rows, User, cutoff);
      assert Restricted(rows, Doomed(rows, User, cutoff));
    }
  }

  /** The two statements in order, those in `down` failing for a reason of their own. */
  function PurgeAll(rows: Rows, targets: seq<Target>, cutoff: int, down: set<Target>): Rows {
    if targets == [] then rows
    else PurgeAll(if targets[0] in down then rows else AfterDelete(rows, targets[0], cutoff), targets[1..], cutoff, down)
  }

  predicate ParentExpired(rows: Rows, k: Key, cutoff: int)
    requires k in rows
  {
    && rows[k].parent.Some?
    && rows[k].parent.value in rows
    && Expired(rows[rows[k].parent.value], cutoff)
  }

  predicate OldUserHasYoungSession(rows: Rows, cutoff: int) {
    exists k :: k in rows && k.target.UserSession? && !Expired(rows[k], cutoff) && ParentExpired(rows, k, cutoff)
  }

  /**
   An undisturbed job removes exactly the expired sessions, and either all expired users or, if a
   single one of them has a session that has not expired, none of them.
   */
  lemma JobRemovesExactly(rows: Rows, cutoff: int)
    requires ParentsPresent(rows)
    ensures var users := if OldUserHasYoungSession(rows, cutoff) then {} else Doomed(rows, User, cutoff);
      PurgeAll(rows, MIGRATION_TARGETS, cutoff, {}) == rows - Doomed(rows, UserSession, cutoff) - users
  {
    var sessions := Doomed(rows, UserSession, cutoff);
    assert !Restricted(rows, sessions) by {
      assert forall k <- rows.Keys :: HasItsParent(rows, k, rows[k]);
    }
    var left := rows - sessions;
    assert AfterDelete(rows, UserSession, cutoff) == left;
    assert Doomed(left, User, cutoff) == Doomed(rows, User, cutoff);
    RestrictedByYoungSession(rows, cutoff);
    assert PurgeAll(left, [User], cutoff, {}) == AfterDelete(left, User, cutoff);
    assert MIGRATION_TARGETS[1..] == [User];
  }

  lemma RestrictedByYoungSession(rows: Rows, cutoff: int)
    requires ParentsPresent(rows)
    ensures Restricted(rows - Doomed(rows, UserSession, cutoff), Doomed(rows, User, cutoff))
      <==> OldUserHasYoungSession(rows, cutoff)
  {
    var left, users := rows - Doomed(rows, UserSession, cutoff), Doomed(rows, User, cutoff);
    if OldUserHasYoungSession(rows, cutoff) {
      var k :| k in rows && k.target.UserSession? && !Expired(rows[k], cutoff) && ParentExpired(rows, k, cutoff);
      assert HasItsParent(rows, k, rows[k]);
      assert k in left && left[k].parent.value in users;
    }
    if Restricted(left, users) {
      var k :| k in left && k !in users && left[k].parent.Some? && left[k].parent.value in users;
      assert HasItsParent(rows, k, rows[k]);
      assert ParentExpired(rows, k, cutoff);
    }
  }

  ghost predicate DeletedBefore(rows: Rows, k: Key, cutoff: int) {
    k in rows && rows[k].deletedAt.Some? && rows[k].deletedAt.value < cutoff
  }

  /**
   The same, row by row, for a job at time `now`: a session goes if it was deleted more than so many
   days before; a user goes if it was, unless some session that stays belongs to a user that was.
   */
  lemma JobLeaves(rows: Rows, now: int, days: nat, k: Key)
    requires ParentsPresent(rows)
    ensures var cutoff := now - days * 86400;
      var after := PurgeAll(rows, MIGRATION_TARGETS, cutoff, {});
      var blocked := exists j :: j in rows && j.target == UserSession && !DeletedBefore(rows, j, cutoff)
                                 && rows[j].parent.Some? && DeletedBefore(rows, rows[j].parent.value, cutoff);
      && (k in after <==> k in rows && !(DeletedBefore(rows, k, cutoff) && (k.target == UserSession || !blocked)))
      && (k in after ==> after[k] == rows[k])
  {
    var cutoff := now - days * 86400;
    JobRemovesExactly(rows, cutoff);
    forall j <- rows.Keys
      ensures (rows[j].parent.Some? && DeletedBefore(rows, rows[j].parent.value, cutoff)) <==> ParentExpired(rows, j, cutoff)
      ensures DeletedBefore(rows, j, cutoff) <==> Expired(rows[j], cutoff)
    {
    }
  }

  /** In the interleaved machine a job that nothing interrupts does the same. */
  lemma JobIsTwoSteps(w: World, job: nat, days: nat)
    requires job !in w.jobs
    ensures var w1 := Do(w, StartJob(job), days);
      var w2 := Do(w1, StepJob(job), days);
      && Enabled(w2, StepJob(job))
      && Do(w2, StepJob(job), days).rows
        == PurgeAll(w.rows, MIGRATION_TARGETS, w.now - days * SECONDS_PER_DAY, {})
  {
    var cutoff := w.now - days * SECONDS_PER_DAY;
    var left := AfterDelete(w.rows, UserSession, cutoff);
    assert MIGRATION_TARGETS[1..] == [User];
    assert PurgeAll(left, [User], cutoff, {}) == AfterDelete(left, User, cutoff);
  }

  lemma RemovedCount(rows: Rows, ks: set<Key>)
    requires ks <= rows.Keys
    ensures |rows - ks| == |rows| - |ks|
  {
    assert (rows - ks).Keys == rows.Keys - ks;
    assert |(rows - ks).Keys| == |rows.Keys| - |ks|;
  }

  class DeleteMigrationService {
    var enabled: bool
    var retentionDays: nat
    /** The database. */
    var rows: Rows

    constructor (rows: Rows)
      ensures !enabled && retentionDays == 30 && this.rows == rows
    {
      enabled := false;
      retentionDays := DEFAULT_RETENTION_DAYS;
      this.rows := rows;
    }

    /** `parsed` is the setting read as a number, None where it is unset, empty or no number. */
    method OnModuleInit(mode: Option<string>, parsed: Option<int>)
      modifies this`enabled, this`retentionDays
      ensures enabled <==> mode.None? || mode == Some("internal")
      ensures parsed.Some? && parsed.value > 0 ==> retentionDays == parsed.value
      ensures parsed.None? || parsed.value <= 0 ==> retentionDays == old(retentionDays)
    {
      var setting := if mode.Some? then mode.value else "internal";
      enabled := setting == "internal";
      if parsed.Some? {
        if parsed.value > 0 {
          retentionDays := parsed.value;
        }
      }
    }

    /** The job: what it leaves of the tables, and that it counts exactly the rows it removed. */
    method HandleDeleteMigration(now: int, down: set<Target>) returns (totalDeleted: nat)
      modifies this`rows
      ensures rows == if enabled
                      then PurgeAll(old(rows), MIGRATION_TARGETS, now - retentionDays * 86400, down)
                      else old(rows)
      ensures totalDeleted == |old(rows)| - |rows|
      ensures Live(rows) == Live(old(rows))
    {
      totalDeleted := 0;
      if !enabled {
        return;
      }
      var cutoffDate := now - retentionDays * SECONDS_PER_DAY;
      for i := 0 to |MIGRATION_TARGETS|
        invariant PurgeAll(rows, MIGRATION_TARGETS[i..], cutoffDate, down)
          == PurgeAll(old(rows), MIGRATION_TARGETS, cutoffDate, down)
        invariant totalDeleted == |old(rows)| - |rows|
        invariant Live(rows) == Live(old(rows))
      {
        var deleted := MigrateModel(MIGRATION_TARGETS[i], cutoffDate, MIGRATION_TARGETS[i] in down);
        if deleted.Some? {
          totalDeleted := totalDeleted + deleted.value;
        }
      }
    }

    /** None where the statement fails: for the foreign key, or because the database is down. */
    method MigrateModel(target: Target, cutoffDate: int, down: bool) returns (deleted: Option<nat>)
      modifies this`rows
      ensures rows == if down then old(rows) else AfterDelete(old(rows), target, cutoffDate)
      ensures deleted.Some? <==> !down && Delete(old(rows), target, cutoffDate).Some?
      ensures deleted.Some? ==> deleted.value == |old(rows)| - |rows|
      ensures deleted.None? ==> rows == old(rows)
      ensures Live(rows) == Live(old(rows))
    {
      var result := if down then None else Delete(rows, target, cutoffDate);
      if result.None? {
        return None;
      }
      RemovedCount(rows, Doomed(rows, target, cutoffDate));
      deleted := Some(|Doomed(rows, target, cutoffDate)|);
      rows := result.value;
    }
  }
}
