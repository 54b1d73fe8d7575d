/** `MigrationRunner.apply_to_memory_store` of src/aether_forge/migrations.py on a store of rows. */
module Migrations {
  import opened Results

  /** A row's stored schema version is text, or null. */
  datatype Row = Row(id: string, version: Option<string>, body: int)

  /** One entry of a transform's output dictionary. */
  datatype Field = Absent | Null | Text(s: string)

  /** What a transform makes of a row: it may raise or return something that is not a dictionary. */
  datatype Output =
    | Raised
    | NotADict
    | Dict(id: string, schemaVersion: Field, schema_version: Field, body: int)

  datatype Contract = Contract(
    fromVersion: string, toVersion: string, lossyFields: seq<string>, lossyOk: bool, transformRef: Option<string>)

  datatype Key = Key(fromVersion: string, toVersion: string, target: string)

  /** `TransformRegistry`. */
  type Registry = map<Key, Row -> Output>

  datatype Issue =
    | LossyRefused
    | DocumentationOnly
    | NoTransform
    | BackupFailed
    | TransformRaised(id: string)
    | MustReturnDict(id: string)
    | VersionMismatch(id: string)

  datatype Report = Report(scanned: nat, migrated: nat, skipped: nat, issues: seq<Issue>, backedUp: bool)

  /** The store has no database file, its file can be copied, or copying it raises. */
  datatype Backup = NoDatabase | Works | Fails

  const EMPTY := Report(0, 0, 0, [], false)
  const TARGET: string := "memory-record"
  const CURRENT_SCHEMA: string := "1.0.0"

  // ----- versions of a transform's output -----

  function Read(f: Field): Option<string> {
    if f.Text? then Some(f.s) else None
  }

  /** The version the runner checks: an empty camel-case entry falls through to the snake-case one. */
  function CheckedVersion(d: Output): Option<string>
    requires d.Dict?
  {
    if d.schemaVersion.Text? && d.schemaVersion.s != "" then Some(d.schemaVersion.s) else Read(d.schema_version)
  }

  /** The version the stored row gets: the camel-case entry whenever there is one. */
  function WrittenVersion(d: Output): Option<string>
    requires d.Dict?
  {
    if d.schemaVersion != Absent then Read(d.schemaVersion)
    else if d.schema_version != Absent then Read(d.schema_version)
    else Some(CURRENT_SCHEMA)
  }

  function Written(d: Output): Row
    requires d.Dict?
  {
    Row(d.id, WrittenVersion(d), d.body)
  }

  // ----- the store -----

  function Upsert(store: seq<Row>, row: Row): seq<Row> {
    if store == [] then [row]
    else if store[0].id == row.id then [row] + store[1..]
    else [store[0]] + Upsert(store[1..], row)
  }

  function Candidates(store: seq<Row>, version: string): seq<Row> {
    if store == [] then []
    else (if store[0].version == Some(version) then [store[0]] else []) + Candidates(store[1..], version)
  }

  ghost predicate DistinctIds(store: seq<Row>) {
    forall i, j :: 0 <= i < j < |store| ==> store[i].id != store[j].id
  }

  // ----- the run -----

  /** The issue a row meets, if any. */
  function Problem(transform: Row -> Output, toVersion: string, row: Row): Option<Issue> {
    var out := transform(row);
    match out
    case Raised => Some(TransformRaised(row.id))
    case NotADict => Some(MustReturnDict(row.id))
    case Dict(_, _, _, _) => if CheckedVersion(out) == Some(toVersion) then None else Some(VersionMismatch(row.id))
  }

  predicate Migrates(transform: Row -> Output, toVersion: string, row: Row) {
    Problem(transform, toVersion, row).None?
  }

  datatype Progress = Progress(report: Report, store: seq<Row>, aborted: bool)

  /** One iteration of the loop. `accepts` says whether the store's write path takes the row; when it does
      not, the exception leaves the loop. */
  function Visit(p: Progress, transform: Row -> Output, toVersion: string, accepts: Row -> bool, dryRun: bool, row: Row): Progress {
    if p.aborted then p
    else
      var problem := Problem(transform, toVersion, row);
      if problem.Some? then
        p.(report := p.report.(issues := p.report.issues + [problem.value], skipped := p.report.skipped + 1))
      else
        var q := p.(report := p.report.(migrated := p.report.migrated + 1));
        var row' := Written(transform(row));
        if dryRun then q
        else if accepts(row') then q.(store := Upsert(q.store, row'))
        else q.(aborted := true)
  }

  function VisitAll(p: Progress, transform: Row -> Output, toVersion: string, accepts: Row -> bool, dryRun: bool, rows: seq<Row>): Progress {
    if rows == [] then p
    else
      var before := VisitAll(p, transform, toVersion, accepts, dryRun, rows[..|rows| - 1]);
      Visit(before, transform, toVersion, accepts, dryRun, rows[|rows| - 1])
  }

  /** The transform that will run, or the issue that stops the run before any row. */
  function Preflight(registry: Registry, c: Contract, dryRun: bool, lossyOk: bool, backup: Backup): (Option<Row -> Output>, Option<Issue>) {
    if c.lossyFields != [] && !c.lossyOk && !lossyOk then (None, Some(LossyRefused))
    else if c.transformRef.GetOr("") == "" then (None, Some(DocumentationOnly))
    else if Key(c.fromVersion, c.toVersion, TARGET) !in registry then (None, Some(NoTransform))
    else if !dryRun && backup == Fails then (None, Some(BackupFailed))
    else (Some(registry[Key(c.fromVersion, c.toVersion, TARGET)]), None)
  }

  /** `apply_to_memory_store`. */
  function Migrate(registry: Registry, store: seq<Row>, c: Contract, dryRun: bool, lossyOk: bool,
                   backup: Backup, accepts: Row -> bool): Progress {
    var (transform, stop) := Preflight(registry, c, dryRun, lossyOk, backup);
    match transform
    case None => Progress(EMPTY.(issues := if stop.Some? then [stop.value] else []), store, false)
    case Some(f) =>
      var rows := Candidates(store, c.fromVersion);
      VisitAll(Progress(EMPTY.(scanned := |rows|, backedUp := !dryRun && backup == Works), store, false), f, c.toVersion, accepts, dryRun, rows)
  }

  // ----- the runner object -----

  class MigrationRunner {
    const registry: Registry

    constructor (registry: Registry)
      ensures this.registry == registry
    {
      this.registry := registry;
    }

    method ApplyToMemoryStore(store: seq<Row>, c: Contract, dryRun: bool, lossyOk: bool, backup: Backup, accepts: Row -> bool)
      returns (report: Report, after: seq<Row>, aborted: bool)
      ensures Progress(report, after, aborted) == Migrate(registry, store, c, dryRun, lossyOk, backup, accepts)
    {
      report, after, aborted := EMPTY, store, false;
      if c.lossyFields != [] && !c.lossyOk && !lossyOk {
        report := report.(issues := [LossyRefused]);
        return;
      }
      if c.transformRef.GetOr("") == "" {
        report := report.(issues := [DocumentationOnly]);
        return;
      }
      var key := Key(c.fromVersion, c.toVersion, TARGET);
      if key !in registry {
        report := report.(issues := [NoTransform]);
        return;
      }
      var transform := registry[key];
      if !dryRun && backup != NoDatabase {
        if backup == Fails {
          report := report.(issues := [BackupFailed]);
          return;
        }
        report := report.(backedUp := true);
      }
      var rows := Candidates(store, c.fromVersion);
      report := report.(scanned := |rows|);
      var p := VisitRows(Progress(report, store, false), transform, c.toVersion, accepts, dryRun, rows);
      return p.report, p.store, p.aborted;
    }

    method VisitRows(start: Progress, transform: Row -> Output, toVersion: string, accepts: Row -> bool, dryRun: bool, rows: seq<Row>)
      returns (p: Progress)
      requires !start.aborted
      ensures p == VisitAll(start, transform, toVersion, accepts, dryRun, rows)
    {
      p := start;
      for k := 0 to |rows|
        invariant !p.aborted
        invariant p == VisitAll(start, transform, toVersion, accepts, dryRun, rows[..k])
      {
        assert rows[..k + 1][..k] == rows[..k];
        p := VisitRow(p, transform, toVersion, accepts, dryRun, rows[k]);
        if p.aborted {
          AbortedStays(p, start, transform, toVersion, accepts, dryRun, rows, k + 1);
          return;
        }
      }
      assert rows[..|rows|] == rows;
    }

    /** The body of the loop over the rows. */
    method VisitRow(before: Progress, transform: Row -> Output, toVersion: string, accepts: Row -> bool, dryRun: bool, row: Row)
      returns (p: Progress)
      requires !before.aborted
      ensures p == Visit(before, transform, toVersion, accepts, dryRun, row)
    {
      var report := before.report;
      var out := transform(row);
      if out.Raised? {
        report := report.(issues := report.issues + [TransformRaised(row.id)], skipped := report.skipped + 1);
        return before.(report := report);
      }
      if out.NotADict? {
        report := report.(issues := report.issues + [MustReturnDict(row.id)], skipped := report.skipped + 1);
        return before.(report := report);
      }
      if CheckedVersion(out) != Some(toVersion) {
        report := report.(issues := report.issues + [VersionMismatch(row.id)], skipped := report.skipped + 1);
        return before.(report := report);
      }
      report := report.(migrated := report.migrated + 1);
      if dryRun {
        return before.(report := report);
      }
      if !accepts(Written(out)) {
        return before.(report := report, aborted := true);
      }
      return Progress(report, Upsert(before.store, Written(out)), false);
    }
  }

  lemma {:induction false} AbortedStays(p: Progress, start: Progress, transform: Row -> Output, toVersion: string,
                                        accepts: Row -> bool, dryRun: bool, rows: seq<Row>, k: nat)
    requires k <= |rows| && p.aborted
    requires p == VisitAll(start, transform, toVersion, accepts, dryRun, rows[..k])
    ensures p == VisitAll(start, transform, toVersion, accepts, dryRun, rows)
    decreases |rows|
  {
    if k == |rows| {
      assert rows[..k] == rows;
    } else {
      var n := |rows| - 1;
      assert rows[..n][..k] == rows[..k];
      AbortedStays(p, start, transform, toVersion, accepts, dryRun, rows[..n], k);
    }
  }

  // ----- dry run predicts apply -----

  /** The writes the run would make, in order. */
  function Outputs(transform: Row -> Output, toVersion: string, rows: seq<Row>): seq<Row> {
    if rows == [] then []
    else
      var last := rows[|rows| - 1];
      Outputs(transform, toVersion, rows[..|rows| - 1]) +
      if Migrates(transform, toVersion, last) then [Written(transform(last))] else []
  }

  function UpsertAll(store: seq<Row>, writes: seq<Row>): seq<Row> {
    if writes == [] then store else Upsert(UpsertAll(store, writes[..|writes| - 1]), writes[|writes| - 1])
  }

  ghost predicate AllAccepted(accepts: Row -> bool, writes: seq<Row>) {
    forall i :: 0 <= i < |writes| ==> accepts(writes[i])
  }

  /** The same report but for the backup, and a count of rows and issues since `start`. */
  ghost predicate SameReport(start: Report, dry: Report, applied: Report, rows: nat) {
    && dry == applied.(backedUp := dry.backedUp)
    && dry.backedUp == start.backedUp && dry.scanned == start.scanned
    && dry.migrated + dry.skipped == start.migrated + start.skipped + rows
    && |dry.issues| - |start.issues| == dry.skipped - start.skipped
  }

  /** A dry run and an apply after the same rows. */
  ghost predicate Abreast(p: Progress, q: Progress, dry: Progress, applied: Progress, writes: seq<Row>, rows: nat) {
    && SameReport(p.report, dry.report, applied.report, rows) && applied.report.backedUp == q.report.backedUp
    && !dry.aborted && !applied.aborted
    && dry.store == p.store && applied.store == UpsertAll(q.store, writes)
  }

  lemma VisitAgrees(p: Progress, q: Progress, dry: Progress, applied: Progress, writes: seq<Row>, rows: nat,
                    transform: Row -> Output, toVersion: string, accepts: Row -> bool, row: Row)
    requires Abreast(p, q, dry, applied, writes, rows)
    requires Migrates(transform, toVersion, row) ==> accepts(Written(transform(row)))
    ensures Abreast(p, q, Visit(dry, transform, toVersion, accepts, true, row), Visit(applied, transform, toVersion, accepts, false, row),
                    writes + (if Migrates(transform, toVersion, row) then [Written(transform(row))] else []), rows + 1)
  {
    if Migrates(transform, toVersion, row) {
      var w := Written(transform(row));
      assert (writes + [w])[..|writes|] == writes;
    } else {
      assert writes + [] == writes;
    }
  }

  lemma {:induction false} VisitsAgree(p: Progress, q: Progress, transform: Row -> Output, toVersion: string,
                                       accepts: Row -> bool, rows: seq<Row>)
    requires p.report == q.report.(backedUp := p.report.backedUp) && !p.aborted && !q.aborted
    requires AllAccepted(accepts, Outputs(transform, toVersion, rows))
    ensures Abreast(p, q, VisitAll(p, transform, toVersion, accepts, true, rows),
                    VisitAll(q, transform, toVersion, accepts, false, rows), Outputs(transform, toVersion, rows), |rows|)
  {
    if rows != [] {
      var n := |rows| - 1;
      var writes := Outputs(transform, toVersion, rows);
      var earlier := Outputs(transform, toVersion, rows[..n]);
      assert forall i :: 0 <= i < |earlier| ==> earlier[i] == writes[i];
      VisitsAgree(p, q, transform, toVersion, accepts, rows[..n]);
      assert Migrates(transform, toVersion, rows[n]) ==> writes[|earlier|] == Written(transform(rows[n]));
      VisitAgrees(p, q, VisitAll(p, transform, toVersion, accepts, true, rows[..n]),
                  VisitAll(q, transform, toVersion, accepts, false, rows[..n]), earlier, n, transform, toVersion, accepts, rows[n]);
    }
  }

  /** The writes a real run of the contract would make. */
  function Planned(registry: Registry, store: seq<Row>, c: Contract): seq<Row> {
    var key := Key(c.fromVersion, c.toVersion, TARGET);
    if key in registry then Outputs(registry[key], c.toVersion, Candidates(store, c.fromVersion)) else []
  }

  /** Dry run predicts apply: when the backup does not fail and the store accepts the planned writes, both give
      the same counts and the same issues; the dry run leaves the store as it was, and apply leaves it with
      exactly the planned writes. Rows scanned are rows migrated plus rows skipped, one issue each, unless
      the run stopped before any row. */
  lemma DryRunPredictsApply(registry: Registry, store: seq<Row>, c: Contract, lossyOk: bool, backup: Backup, accepts: Row -> bool)
    requires backup != Fails
    requires AllAccepted(accepts, Planned(registry, store, c))
    ensures var dry := Migrate(registry, store, c, true, lossyOk, backup, accepts);
      var applied := Migrate(registry, store, c, false, lossyOk, backup, accepts);
      && dry.report == applied.report.(backedUp := false)
      && dry.store == store && !dry.aborted && !applied.aborted
      && dry.report.scanned == dry.report.migrated + dry.report.skipped
      && (applied.report.scanned > 0 || applied.report.issues == [] ==>
            && |applied.report.issues| == applied.report.skipped
            && applied.store == UpsertAll(store, Planned(registry, store, c)))
  {
    var (transform, stop) := Preflight(registry, c, true, lossyOk, backup);
    if transform.Some? {
      var rows := Candidates(store, c.fromVersion);
      VisitsAgree(Progress(EMPTY.(scanned := |rows|, backedUp := false), store, false),
                  Progress(EMPTY.(scanned := |rows|, backedUp := backup == Works), store, false),
                  transform.value, c.toVersion, accepts, rows);
    }
  }

  // ----- what apply leaves behind -----

  /** The row with an identifier. */
  function Lookup(store: seq<Row>, id: string): Option<Row> {
    if store == [] then None else if store[0].id == id then Some(store[0]) else Lookup(store[1..], id)
  }

  lemma {:induction false} LookupUpsert(store: seq<Row>, row: Row, id: string)
    ensures Lookup(Upsert(store, row), id) == if id == row.id then Some(row) else Lookup(store, id)
  {
    if store != [] {
      LookupUpsert(store[1..], row, id);
      if store[0].id == row.id {
        assert ([row] + store[1..])[1..] == store[1..];
      } else {
        assert Upsert(store, row)[1..] == Upsert(store[1..], row);
      }
    }
  }

  /** The last of the writes under an identifier. */
  function LastWrite(writes: seq<Row>, id: string): Option<Row> {
    if writes == [] then None
    else if writes[|writes| - 1].id == id then Some(writes[|writes| - 1])
    else LastWrite(writes[..|writes| - 1], id)
  }

  lemma {:induction false} LastWriteIs(writes: seq<Row>, id: string)
    ensures LastWrite(writes, id).Some? ==> LastWrite(writes, id).value in writes && LastWrite(writes, id).value.id == id
    ensures LastWrite(writes, id).None? <==> forall w :: w in writes ==> w.id != id
  {
    if writes != [] {
      LastWriteIs(writes[..|writes| - 1], id);
      assert writes == writes[..|writes| - 1] + [writes[|writes| - 1]];
    }
  }

  /** After any writes a row is the last write under its identifier, or else what it was. */
  lemma {:induction false} LookupUpsertAll(store: seq<Row>, writes: seq<Row>, id: string)
    ensures Lookup(UpsertAll(store, writes), id) ==
      if LastWrite(writes, id).Some? then LastWrite(writes, id) else Lookup(store, id)
  {
    if writes != [] {
      var n := |writes| - 1;
      LookupUpsertAll(store, writes[..n], id);
      LookupUpsert(UpsertAll(store, writes[..n]), writes[n], id);
    }
  }

  lemma {:induction false} LookupFinds(store: seq<Row>, row: Row)
    requires DistinctIds(store) && row in store
    ensures Lookup(store, row.id) == Some(row)
  {
    if store[0] != row {
      var i :| 1 <= i < |store| && store[i] == row;
      assert store[0].id != store[i].id;
      assert store[1..][i - 1] == row;
      LookupFinds(store[1..], row);
    }
  }

  lemma {:induction false} LookupIn(store: seq<Row>, id: string)
    requires Lookup(store, id).Some?
    ensures Lookup(store, id).value in store && Lookup(store, id).value.id == id
  {
    if store[0].id != id {
      LookupIn(store[1..], id);
    }
  }

  lemma {:induction false} UpsertKeepsDistinct(store: seq<Row>, row: Row)
    requires DistinctIds(store)
    ensures DistinctIds(Upsert(store, row))
    ensures forall r :: r in Upsert(store, row) ==> r == row || r in store
  {
    if store != [] && store[0].id != row.id {
      UpsertKeepsDistinct(store[1..], row);
      var rest := Upsert(store[1..], row);
      forall j | 0 <= j < |rest| ensures rest[j].id != store[0].id {
        assert rest[j] in rest;
        if rest[j] != row {
          var k :| 0 <= k < |store[1..]| && store[1..][k] == rest[j];
          assert store[k + 1] == rest[j];
        }
      }
    }
  }

  lemma {:induction false} UpsertAllKeepsDistinct(store: seq<Row>, writes: seq<Row>)
    requires DistinctIds(store)
    ensures DistinctIds(UpsertAll(store, writes))
  {
    if writes != [] {
      UpsertAllKeepsDistinct(store, writes[..|writes| - 1]);
      UpsertKeepsDistinct(UpsertAll(store, writes[..|writes| - 1]), writes[|writes| - 1]);
    }
  }

  lemma {:induction false} CandidatesAre(store: seq<Row>, version: string, row: Row)
    ensures row in Candidates(store, version) <==> row in store && row.version == Some(version)
  {
    if store != [] {
      CandidatesAre(store[1..], version, row);
      assert store == [store[0]] + store[1..];
    }
  }

  lemma {:induction false} OutputsAre(transform: Row -> Output, toVersion: string, rows: seq<Row>, w: Row)
    ensures w in Outputs(transform, toVersion, rows) <==>
      exists r :: r in rows && Migrates(transform, toVersion, r) && Written(transform(r)) == w
  {
    if rows != [] {
      var n := |rows| - 1;
      OutputsAre(transform, toVersion, rows[..n], w);
      assert rows == rows[..n] + [rows[n]];
    }
  }

  /** The store after a run whose writes are all accepted. */
  function Applied(store: seq<Row>, transform: Row -> Output, fromVersion: string, toVersion: string): seq<Row> {
    UpsertAll(store, Outputs(transform, toVersion, Candidates(store, fromVersion)))
  }

  /** A run that starts and whose writes are accepted leaves the store so; every skipped row is an issue. */
  lemma RunIsApplied(registry: Registry, store: seq<Row>, c: Contract, lossyOk: bool, backup: Backup, accepts: Row -> bool)
    requires Preflight(registry, c, false, lossyOk, backup).0.Some?
    requires AllAccepted(accepts, Planned(registry, store, c))
    ensures var run := Migrate(registry, store, c, false, lossyOk, backup, accepts);
      var transform := Preflight(registry, c, false, lossyOk, backup).0.value;
      && !run.aborted && run.store == Applied(store, transform, c.fromVersion, c.toVersion)
      && run.report.scanned == |Candidates(store, c.fromVersion)| == run.report.migrated + run.report.skipped
      && |run.report.issues| == run.report.skipped
  {
    var rows := Candidates(store, c.fromVersion);
    var start := Progress(EMPTY.(scanned := |rows|, backedUp := backup == Works), store, false);
    VisitsAgree(start, start, Preflight(registry, c, false, lossyOk, backup).0.value, c.toVersion, accepts, rows);
  }

  /** Second scan, for any transform: nothing is found exactly when every candidate's identifier was
      rewritten, and no final write is at the old version. */
  lemma SecondScanEmpty(store: seq<Row>, transform: Row -> Output, fromVersion: string, toVersion: string)
    requires DistinctIds(store)
    ensures var rows := Candidates(store, fromVersion);
      var writes := Outputs(transform, toVersion, rows);
      Candidates(Applied(store, transform, fromVersion, toVersion), fromVersion) == [] <==>
        && (forall r :: r in rows ==> LastWrite(writes, r.id).Some?)
        && (forall w :: w in writes && LastWrite(writes, w.id) == Some(w) ==> w.version != Some(fromVersion))
  {
    var rows := Candidates(store, fromVersion);
    var writes := Outputs(transform, toVersion, rows);
    var after := Applied(store, transform, fromVersion, toVersion);
    UpsertAllKeepsDistinct(store, writes);
    if Candidates(after, fromVersion) == [] {
      forall r | r in rows ensures LastWrite(writes, r.id).Some? {
        CandidatesAre(store, fromVersion, r);
        LookupUpsertAll(store, writes, r.id);
        LookupFinds(store, r);
        if LastWrite(writes, r.id).None? {
          FoundIsCandidate(after, fromVersion, r);
        }
      }
      forall w | w in writes && LastWrite(writes, w.id) == Some(w) ensures w.version != Some(fromVersion) {
        LookupUpsertAll(store, writes, w.id);
        if w.version == Some(fromVersion) {
          FoundIsCandidate(after, fromVersion, w);
        }
      }
    } else {
      var r := Candidates(after, fromVersion)[0];
      CandidatesAre(after, fromVersion, r);
      LookupFinds(after, r);
      LookupUpsertAll(store, writes, r.id);
      LastWriteIs(writes, r.id);
      if LastWrite(writes, r.id).None? {
        LookupIn(store, r.id);
        CandidatesAre(store, fromVersion, r);
      }
    }
  }

  lemma FoundIsCandidate(store: seq<Row>, version: string, row: Row)
    requires Lookup(store, row.id) == Some(row) && row.version == Some(version)
    ensures Candidates(store, version) != []
  {
    LookupIn(store, row.id);
    CandidatesAre(store, version, row);
  }

  // ----- transforms that keep identifiers -----

  ghost predicate KeepsIds(transform: Row -> Output, rows: seq<Row>) {
    forall r :: r in rows && transform(r).Dict? ==> transform(r).id == r.id
  }

  /** What a run makes of a row. */
  function After(transform: Row -> Output, fromVersion: string, toVersion: string, row: Row): Row {
    if row.version == Some(fromVersion) && Migrates(transform, toVersion, row) then Written(transform(row)) else row
  }

  /** Apply changes exactly the migrated rows, each to its own output: skipped rows and rows of other
      versions stay as they were, and no row appears or disappears. */
  lemma RowAfter(store: seq<Row>, transform: Row -> Output, fromVersion: string, toVersion: string, id: string)
    requires DistinctIds(store) && KeepsIds(transform, Candidates(store, fromVersion))
    ensures var r := Lookup(store, id);
      Lookup(Applied(store, transform, fromVersion, toVersion), id) ==
        if r.Some? then Some(After(transform, fromVersion, toVersion, r.value)) else None
  {
    var rows := Candidates(store, fromVersion);
    var writes := Outputs(transform, toVersion, rows);
    LookupUpsertAll(store, writes, id);
    LastWriteIs(writes, id);
    if LastWrite(writes, id).Some? {
      var w := LastWrite(writes, id).value;
      OutputsAre(transform, toVersion, rows, w);
      var c :| c in rows && Migrates(transform, toVersion, c) && Written(transform(c)) == w;
      CandidatesAre(store, fromVersion, c);
      LookupFinds(store, c);
    } else if Lookup(store, id).Some? {
      var r := Lookup(store, id).value;
      LookupIn(store, id);
      if After(transform, fromVersion, toVersion, r) != r {
        CandidatesAre(store, fromVersion, r);
        OutputsAre(transform, toVersion, rows, Written(transform(r)));
      }
    }
  }

  // ----- the stored version -----

  /** What the version check should look at: the camel-case entry is missing or right. */
  predicate VersionInPlace(d: Output, toVersion: string)
    requires d.Dict?
  {
    d.schemaVersion == Absent || d.schemaVersion == Text(toVersion)
  }

  /** An output that passes the check is stored at the new version exactly when its camel-case entry is
      missing or right; an empty or a null one passes and is stored as it is. */
  lemma StoredVersionExact(d: Output, toVersion: string)
    requires d.Dict? && CheckedVersion(d) == Some(toVersion)
    ensures WrittenVersion(d) == Some(toVersion) <==> VersionInPlace(d, toVersion)
    ensures !VersionInPlace(d, toVersion) ==> WrittenVersion(d) == Some("") || WrittenVersion(d) == None
  {
  }

  /** The row after a run is at the new version exactly when it migrated with its version in place, or was
      there before. */
  lemma MigratedVersionExact(store: seq<Row>, transform: Row -> Output, fromVersion: string, toVersion: string, row: Row)
    requires DistinctIds(store) && KeepsIds(transform, Candidates(store, fromVersion)) && row in store
    ensures var r := Lookup(Applied(store, transform, fromVersion, toVersion), row.id);
      && r.Some?
      && (r.value.version == Some(toVersion) <==>
            if row.version == Some(fromVersion) && Migrates(transform, toVersion, row)
            then VersionInPlace(transform(row), toVersion) else row.version == Some(toVersion))
  {
    LookupFinds(store, row);
    RowAfter(store, transform, fromVersion, toVersion, row.id);
    if row.version == Some(fromVersion) && Migrates(transform, toVersion, row) {
      StoredVersionExact(transform(row), toVersion);
    }
  }

  /** A row the second scan finds again: it was skipped, or it was stored at an empty version that is also
      the old one. */
  predicate Remains(transform: Row -> Output, fromVersion: string, toVersion: string, row: Row) {
    || !Migrates(transform, toVersion, row)
    || (fromVersion == "" && transform(row).schemaVersion == Text(""))
  }

  /** Second scan, with or without issues: between different versions it finds exactly the rows that
      remain, which are the skipped candidates unless the old version is the empty one. */
  lemma SecondScanFindsRemaining(store: seq<Row>, transform: Row -> Output, fromVersion: string, toVersion: string, row: Row)
    requires DistinctIds(store) && KeepsIds(transform, Candidates(store, fromVersion)) && fromVersion != toVersion
    ensures row in Candidates(Applied(store, transform, fromVersion, toVersion), fromVersion) <==>
      exists r :: r in Candidates(store, fromVersion) && Remains(transform, fromVersion, toVersion, r)
                  && After(transform, fromVersion, toVersion, r) == row
  {
    var rows := Candidates(store, fromVersion);
    var after := Applied(store, transform, fromVersion, toVersion);
    UpsertAllKeepsDistinct(store, Outputs(transform, toVersion, rows));
    CandidatesAre(after, fromVersion, row);
    if row in Candidates(after, fromVersion) {
      LookupFinds(after, row);
      RowAfter(store, transform, fromVersion, toVersion, row.id);
      var r := Lookup(store, row.id).value;
      LookupIn(store, row.id);
      CandidatesAre(store, fromVersion, r);
      assert Remains(transform, fromVersion, toVersion, r);
    }
    if r :| r in rows && Remains(transform, fromVersion, toVersion, r) && After(transform, fromVersion, toVersion, r) == row {
      CandidatesAre(store, fromVersion, r);
      LookupFinds(store, r);
      RowAfter(store, transform, fromVersion, toVersion, r.id);
      LookupIn(after, r.id);
    }
  }

  /** The issue-free case: nothing is left for a second scan exactly when no candidate remains. */
  lemma KeepingIdsMigratesAll(store: seq<Row>, transform: Row -> Output, fromVersion: string, toVersion: string)
    requires DistinctIds(store) && KeepsIds(transform, Candidates(store, fromVersion)) && fromVersion != toVersion
    ensures Candidates(Applied(store, transform, fromVersion, toVersion), fromVersion) == [] <==>
      forall r :: r in Candidates(store, fromVersion) ==> !Remains(transform, fromVersion, toVersion, r)
  {
    var again := Candidates(Applied(store, transform, fromVersion, toVersion), fromVersion);
    if again == [] {
      forall r | r in Candidates(store, fromVersion) ensures !Remains(transform, fromVersion, toVersion, r) {
        SecondScanFindsRemaining(store, transform, fromVersion, toVersion, After(transform, fromVersion, toVersion, r));
      }
    } else {
      SecondScanFindsRemaining(store, transform, fromVersion, toVersion, again[0]);
    }
  }

  /** Two outputs that pass the check, are counted as migrated, and are stored at another version: an empty
      camel-case entry beside a right snake-case one, and a null one. */
  lemma EmptyCamelVersionSlipsThrough(row: Row, toVersion: string)
    requires toVersion != ""
    ensures var empty: Row -> Output := (r: Row) => Dict(r.id, Text(""), Text(toVersion), r.body);
      Migrates(empty, toVersion, row) && Written(empty(row)).version == Some("")
    ensures var null_: Row -> Output := (r: Row) => Dict(r.id, Null, Text(toVersion), r.body);
      Migrates(null_, toVersion, row) && Written(null_(row)).version == None
  {
  }

  // ----- what a run looks at, written out -----

  /** A run starts exactly when nothing is lost against the policy, the contract names a transform and one is
      registered for its versions, and, outside a dry run, the backup does not fail; else it stops with the
      first of these as its issue, before any row. */
  lemma StartsIff(registry: Registry, store: seq<Row>, c: Contract, dryRun: bool, lossyOk: bool, backup: Backup, accepts: Row -> bool)
    ensures var (transform, stop) := Preflight(registry, c, dryRun, lossyOk, backup);
      var key := Key(c.fromVersion, c.toVersion, "memory-record");
      var lossy := c.lossyFields != [] && !c.lossyOk && !lossyOk;
      var named := c.transformRef.Some? && c.transformRef.value != "";
      && (transform.Some? <==> !lossy && named && key in registry && (dryRun || backup != Fails))
      && (transform.Some? ==> key in registry && transform.value == registry[key])
      && (stop == Some(LossyRefused) <==> lossy)
      && (stop == Some(DocumentationOnly) <==> !lossy && !named)
      && (stop == Some(NoTransform) <==> !lossy && named && key !in registry)
      && (stop == Some(BackupFailed) <==> !lossy && named && key in registry && !dryRun && backup == Fails)
      && (transform.None? ==>
            var run := Migrate(registry, store, c, dryRun, lossyOk, backup, accepts);
            && run.store == store && !run.aborted && run.report.issues == [stop.value]
            && run.report.scanned == run.report.migrated == run.report.skipped == 0 && !run.report.backedUp)
  {
  }

  /** A row migrates exactly when its transform returns a dictionary whose camel-case version is the new one, or is
      missing, null or empty beside a snake-case one that is. */
  lemma MigratesIff(transform: Row -> Output, toVersion: string, row: Row)
    ensures Migrates(transform, toVersion, row) <==>
      && transform(row).Dict?
      && var d := transform(row);
      if d.schemaVersion in {Absent, Null, Text("")} then d.schema_version == Text(toVersion)
      else d.schemaVersion == Text(toVersion)
  {
  }

  /** Each skipped row's own issue. */
  lemma IssueOfRow(transform: Row -> Output, toVersion: string, row: Row)
    ensures var issue := Problem(transform, toVersion, row); var out := transform(row);
      && (issue == Some(TransformRaised(row.id)) <==> out == Raised)
      && (issue == Some(MustReturnDict(row.id)) <==> out == NotADict)
      && (issue == Some(VersionMismatch(row.id)) <==> out.Dict? && !Migrates(transform, toVersion, row))
      && (issue.None? <==> Migrates(transform, toVersion, row))
  {
  }

  // ----- a write the store refuses -----

  /** The row migrates, and the store's write path does not take it. */
  ghost predicate Refused(transform: Row -> Output, toVersion: string, accepts: Row -> bool, row: Row) {
    Migrates(transform, toVersion, row) && !accepts(Written(transform(row)))
  }

  ghost predicate NoneRefused(transform: Row -> Output, toVersion: string, accepts: Row -> bool, rows: seq<Row>) {
    forall i :: 0 <= i < |rows| ==> !Refused(transform, toVersion, accepts, rows[i])
  }

  lemma {:induction false} OutputsAccepted(transform: Row -> Output, toVersion: string, accepts: Row -> bool, rows: seq<Row>)
    requires NoneRefused(transform, toVersion, accepts, rows)
    ensures AllAccepted(accepts, Outputs(transform, toVersion, rows))
  {
    if rows != [] {
      OutputsAccepted(transform, toVersion, accepts, rows[..|rows| - 1]);
      assert !Refused(transform, toVersion, accepts, rows[|rows| - 1]);
    }
  }

  /** The first refused write ends the loop: the rows before it are written, and neither it nor any row after is. */
  lemma {:induction false} VisitStops(q: Progress, transform: Row -> Output, toVersion: string, accepts: Row -> bool,
                                      rows: seq<Row>, i: nat)
    requires !q.aborted && i < |rows| && Refused(transform, toVersion, accepts, rows[i])
    requires NoneRefused(transform, toVersion, accepts, rows[..i])
    ensures var p := VisitAll(q, transform, toVersion, accepts, false, rows);
      && p.aborted && p.store == UpsertAll(q.store, Outputs(transform, toVersion, rows[..i]))
      && p.report.migrated + p.report.skipped == q.report.migrated + q.report.skipped + i + 1
  {
    var n := |rows| - 1;
    if i < n {
      assert rows[..n][..i] == rows[..i];
      VisitStops(q, transform, toVersion, accepts, rows[..n], i);
    } else {
      OutputsAccepted(transform, toVersion, accepts, rows[..n]);
      VisitsAgree(q, q, transform, toVersion, accepts, rows[..n]);
    }
  }

  /** A run that starts is aborted exactly when the store refuses a write of it; a dry run never is. */
  lemma AbortedIff(registry: Registry, store: seq<Row>, c: Contract, dryRun: bool, lossyOk: bool, backup: Backup,
                   accepts: Row -> bool)
    requires Preflight(registry, c, dryRun, lossyOk, backup).0.Some?
    ensures var rows := Candidates(store, c.fromVersion);
      var transform := Preflight(registry, c, dryRun, lossyOk, backup).0.value;
      Migrate(registry, store, c, dryRun, lossyOk, backup, accepts).aborted <==>
      !dryRun && exists i :: 0 <= i < |rows| && Refused(transform, c.toVersion, accepts, rows[i])
  {
    var rows := Candidates(store, c.fromVersion);
    var transform := Preflight(registry, c, dryRun, lossyOk, backup).0.value;
    var start := Progress(EMPTY.(scanned := |rows|, backedUp := !dryRun && backup == Works), store, false);
    if dryRun {
      DryNeverAborts(start, transform, c.toVersion, accepts, rows);
    } else if NoneRefused(transform, c.toVersion, accepts, rows) {
      OutputsAccepted(transform, c.toVersion, accepts, rows);
      VisitsAgree(start, start, transform, c.toVersion, accepts, rows);
    } else {
      var i := FirstRefused(transform, c.toVersion, accepts, rows);
      VisitStops(start, transform, c.toVersion, accepts, rows, i);
    }
  }

  lemma {:induction false} FirstRefused(transform: Row -> Output, toVersion: string, accepts: Row -> bool, rows: seq<Row>)
    returns (i: nat)
    requires !NoneRefused(transform, toVersion, accepts, rows)
    ensures i < |rows| && Refused(transform, toVersion, accepts, rows[i])
    ensures NoneRefused(transform, toVersion, accepts, rows[..i])
  {
    i := 0;
    while !Refused(transform, toVersion, accepts, rows[i])
      invariant i < |rows| && NoneRefused(transform, toVersion, accepts, rows[..i])
      decreases |rows| - i
    {
      assert i + 1 == |rows| ==> NoneRefused(transform, toVersion, accepts, rows);
      i := i + 1;
    }
  }

  lemma {:induction false} DryNeverAborts(q: Progress, transform: Row -> Output, toVersion: string, accepts: Row -> bool,
                                          rows: seq<Row>)
    requires !q.aborted
    ensures !VisitAll(q, transform, toVersion, accepts, true, rows).aborted
  {
    if rows != [] {
      DryNeverAborts(q, transform, toVersion, accepts, rows[..|rows| - 1]);
    }
  }
}
