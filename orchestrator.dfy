/**
 * `import_file` and the destination handling of `main`: which tables a job
 * imports, in which order, what happens to the backend when a table fails
 * or the user interrupts, and how files are paired with destinations.
 */
module Orchestrator {
  import opened Common
  import opened Text
  import opened Columns
  import opened Schema
  import opened Storage
  import opened Importer

  // ---------------------------------------------------------------------
  // Table selection (`--only`)
  // ---------------------------------------------------------------------

  function Aliases(kind: TableKind): seq<string> {
    match kind
    case SdTable => ["", "sdtable", "sd_table", "sd"]
    case LinkTable => ["", "linktable", "link_table", "link"]
    case DataTable => ["", "datatable", "data"]
  }

  /** The tables a job imports, in the fixed order the source tries them. */
  function SelectedTables(only: string): (r: seq<TableKind>)
    ensures forall kind :: kind in r <==> Lower(only) in Aliases(kind)
  {
    var o := Lower(only);
    (if o in Aliases(SdTable) then [SdTable] else [])
    + (if o in Aliases(LinkTable) then [LinkTable] else [])
    + (if o in Aliases(DataTable) then [DataTable] else [])
  }

  /** Selection follows the order security descriptors, links, data, and
      never names a table twice. */
  lemma SelectedTablesInOrder(only: string)
    ensures var r := SelectedTables(only);
      forall i, j :: 0 <= i < j < |r| ==> Rank(r[i]) < Rank(r[j])
  {
  }

  function Rank(kind: TableKind): nat {
    match kind
    case SdTable => 0
    case LinkTable => 1
    case DataTable => 2
  }

  /** No filter means every table; a filter names at most one table; and
      the filter ignores letter case. */
  lemma SelectedTablesChoices(only: string)
    ensures SelectedTables("") == [SdTable, LinkTable, DataTable]
    ensures Lower(only) != "" ==> |SelectedTables(only)| <= 1
    ensures SelectedTables(Lower(only)) == SelectedTables(only)
  {
    LowerIdempotent(only);
    assert Lower("") == "";
  }

  // ---------------------------------------------------------------------
  // One job (`import_file`)
  // ---------------------------------------------------------------------

  datatype Settings = Settings(only: string, onlyPostProcessing: bool, noPostProcessing: bool)

  datatype Job = Job(file: string, destination: string)

  /** A user interrupt, arriving while the given table streams its records,
      just before the record at `beforeRecord`. */
  datatype Interrupt = Interrupt(table: TableKind, beforeRecord: nat)

  /** The exceptions that escape `import_file`. */
  datatype JobError =
    | UnreadableFile(file: string)
    | MissingTable(table: string)
    | Resolution(error: Error)

  datatype JobOutcome = Completed | Cancelled | Aborted(error: JobError)

  function InterruptFor(interrupt: Option<Interrupt>, kind: TableKind): Option<nat> {
    if interrupt.Some? && interrupt.value.table == kind then Some(interrupt.value.beforeRecord) else None
  }

  /** The tables of `kinds`, one `create` after another, from the trace `ops`. */
  function ImportTables(kinds: seq<TableKind>, db: EseDb, ops: seq<Op>, interrupt: Option<Interrupt>): (JobOutcome, seq<Op>)
    decreases |kinds|
  {
    if kinds == [] then (Completed, ops)
    else
      var kind := kinds[0];
      var tn := Spec(kind).tableName;
      if tn !in db then (Aborted(MissingTable(tn)), ops)
      else
        var at := InterruptFor(interrupt, kind);
        var ops' := ops + CreateOps(kind, db[tn], |RowsInserted(ops, tn)|, at);
        match CreateOutcome(kind, db[tn], at)
        case Imported => ImportTables(kinds[1..], db, ops', interrupt)
        case Interrupted => (Cancelled, ops')
        case Failed(e) => (Aborted(Resolution(e)), ops')
  }

  function PostProcessing(s: Settings, ops: seq<Op>): seq<Op> {
    if s.noPostProcessing then ops else ops + [Audit(StartPostProcessing), PostProcessAll]
  }

  /** The outcome of a job and everything its backend was asked to do;
      `db` is the opened ESE database, `None` when the file cannot be read. */
  function ImportFileSpec(file: string, db: Option<EseDb>, s: Settings, interrupt: Option<Interrupt>): (JobOutcome, seq<Op>) {
    if s.onlyPostProcessing then (Completed, PostProcessing(s, []))
    else if db.None? then (Aborted(UnreadableFile(file)), [])
    else
      var (outcome, ops) := ImportTables(SelectedTables(s.only), db.value, [Audit(OpenedFile(file))], interrupt);
      if outcome.Completed? then (Completed, PostProcessing(s, ops + [Commit])) else (outcome, ops)
  }

  /** One table of `import_file`: its constructor (which fails when the
      table is missing) and its `create`. `None` means carry on. */
  method ImportTable(b: Backend, kinds: seq<TableKind>, db: EseDb, interrupt: Option<Interrupt>)
    returns (stopped: Option<JobOutcome>)
    requires kinds != []
    modifies b
    ensures stopped.None? ==> ImportTables(kinds, db, old(b.ops), interrupt) == ImportTables(kinds[1..], db, b.ops, interrupt)
    ensures stopped.Some? ==> ImportTables(kinds, db, old(b.ops), interrupt) == (stopped.value, b.ops)
    ensures stopped.Some? ==> !stopped.value.Completed?
  {
    var kind := kinds[0];
    var tn := Spec(kind).tableName;
    if tn !in db {
      return Some(Aborted(MissingTable(tn)));
    }
    var created := Create(b, kind, db[tn], InterruptFor(interrupt, kind));
    match created
    case Imported => stopped := None;
    case Interrupted => stopped := Some(Cancelled);
    case Failed(e) => stopped := Some(Aborted(Resolution(e)));
  }

  /** The tables of `kinds`, one after another, until one stops the job. */
  method ImportSelected(b: Backend, kinds: seq<TableKind>, db: EseDb, interrupt: Option<Interrupt>)
    returns (outcome: JobOutcome)
    modifies b
    ensures (outcome, b.ops) == ImportTables(kinds, db, old(b.ops), interrupt)
  {
    var i := 0;
    while i < |kinds|
      invariant 0 <= i <= |kinds|
      invariant ImportTables(kinds[i..], db, b.ops, interrupt) == ImportTables(kinds, db, old(b.ops), interrupt)
    {
      var stopped := ImportTable(b, kinds[i..], db, interrupt);
      if stopped.Some? {
        return stopped.value;
      }
      assert kinds[i..][1..] == kinds[i + 1..];
      i := i + 1;
    }
    assert kinds[i..] == [];
    return Completed;
  }

  method ImportFile(job: Job, db: Option<EseDb>, s: Settings, interrupt: Option<Interrupt>)
    returns (outcome: JobOutcome, b: Backend)
    ensures fresh(b) && b.connection == job.destination
    ensures (outcome, b.ops) == ImportFileSpec(job.file, db, s, interrupt)
  {
    b := new Backend(job.destination);
    if !s.onlyPostProcessing {
      if db.None? {
        return Aborted(UnreadableFile(job.file)), b;
      }
      b.Audit(OpenedFile(job.file));
      assert b.ops == [Audit(OpenedFile(job.file))];
      outcome := ImportSelected(b, SelectedTables(s.only), db.value, interrupt);
      if !outcome.Completed? {
        return;
      }
      b.Commit();
    }
    ghost var imported := b.ops;
    if !s.noPostProcessing {
      b.Audit(StartPostProcessing);
      b.PostProcessAll();
    }
    assert b.ops == PostProcessing(s, imported);
    outcome := Completed;
  }

  /** Importing tables only appends to the trace, and never commits nor
      post-processes. */
  lemma {:induction false} ImportTablesAppends(kinds: seq<TableKind>, db: EseDb, ops: seq<Op>, interrupt: Option<Interrupt>)
    ensures var after := ImportTables(kinds, db, ops, interrupt).1;
      ops <= after && forall i :: |ops| <= i < |after| ==> !after[i].Commit? && !after[i].PostProcessAll?
    decreases |kinds|
  {
    if kinds != [] {
      var kind := kinds[0];
      var tn := Spec(kind).tableName;
      if tn in db {
        var at := InterruptFor(interrupt, kind);
        var created := CreateOps(kind, db[tn], |RowsInserted(ops, tn)|, at);
        CreateOpsLeaveTheJobToTheCaller(kind, db[tn], |RowsInserted(ops, tn)|, at);
        ImportTablesAppends(kinds[1..], db, ops + created, interrupt);
        forall i | |ops| <= i < |ops + created| ensures !(ops + created)[i].Commit? && !(ops + created)[i].PostProcessAll? {
          assert (ops + created)[i] == created[i - |ops|];
        }
      }
    }
  }

  /** A job commits exactly when all its selected tables were imported, and
      post-processes exactly when it completed and post-processing is on:
      an interrupted or failed job leaves its data uncommitted. */
  lemma ImportFileCommitsOnlyCompletedWork(file: string, db: Option<EseDb>, s: Settings, interrupt: Option<Interrupt>)
    ensures var (outcome, ops) := ImportFileSpec(file, db, s, interrupt);
      && (Commit in ops <==> outcome.Completed? && !s.onlyPostProcessing)
      && (PostProcessAll in ops <==> outcome.Completed? && !s.noPostProcessing)
  {
    if !s.onlyPostProcessing && db.Some? {
      var start := [Audit(OpenedFile(file))];
      ImportTablesAppends(SelectedTables(s.only), db.value, start, interrupt);
      var (outcome, ops) := ImportTables(SelectedTables(s.only), db.value, start, interrupt);
      assert Commit !in ops && PostProcessAll !in ops by {
        forall i | 0 <= i < |ops| ensures !ops[i].Commit? && !ops[i].PostProcessAll? {
          if i < |start| {
            assert ops[i] == start[i];
          }
        }
      }
    }
  }

  // ---------------------------------------------------------------------
  // The sequential run (`map(import_file, jobs)`)
  // ---------------------------------------------------------------------

  function OpenFile(dbs: map<string, EseDb>, file: string): Option<EseDb> {
    if file in dbs then Some(dbs[file]) else None
  }

  function InterruptOf(interrupts: map<nat, Interrupt>, i: nat): Option<Interrupt> {
    if i in interrupts then Some(interrupts[i]) else None
  }

  /** What the `i`-th job yields; `dbs` holds the readable files and
      `interrupts` the jobs the user interrupts. */
  function JobResult(jobs: seq<Job>, dbs: map<string, EseDb>, s: Settings, interrupts: map<nat, Interrupt>, i: nat)
    : (JobOutcome, seq<Op>)
    requires i < |jobs|
  {
    ImportFileSpec(jobs[i].file, OpenFile(dbs, jobs[i].file), s, InterruptOf(interrupts, i))
  }

  /** The jobs run one after another, each on a backend of its own; an
      interrupted job ends quietly and the run goes on, while an exception
      escaping a job ends the run. */
  ghost predicate SequentialRun(jobs: seq<Job>, dbs: map<string, EseDb>, s: Settings, interrupts: map<nat, Interrupt>,
                                outcomes: seq<JobOutcome>, traces: seq<seq<Op>>)
  {
    && |outcomes| == |traces| <= |jobs|
    && (forall i :: 0 <= i < |outcomes| ==> (outcomes[i], traces[i]) == JobResult(jobs, dbs, s, interrupts, i))
    && (forall i :: 0 <= i < |outcomes| - 1 ==> !outcomes[i].Aborted?)
    && (|outcomes| < |jobs| ==> 0 < |outcomes| && outcomes[|outcomes| - 1].Aborted?)
  }

  /** The `i`-th job, on a backend of its own; its trace is what that
      backend was asked to do. */
  method RunJob(jobs: seq<Job>, dbs: map<string, EseDb>, s: Settings, interrupts: map<nat, Interrupt>, i: nat)
    returns (outcome: JobOutcome, trace: seq<Op>)
    requires i < |jobs|
    ensures (outcome, trace) == JobResult(jobs, dbs, s, interrupts, i)
  {
    var b;
    outcome, b := ImportFile(jobs[i], OpenFile(dbs, jobs[i].file), s, InterruptOf(interrupts, i));
    trace := b.ops;
  }

  lemma RunExtends(jobs: seq<Job>, dbs: map<string, EseDb>, s: Settings, interrupts: map<nat, Interrupt>,
                    outcomes: seq<JobOutcome>, traces: seq<seq<Op>>, outcome: JobOutcome, trace: seq<Op>)
    requires |outcomes| == |traces| < |jobs|
    requires forall k :: 0 <= k < |outcomes| ==> (outcomes[k], traces[k]) == JobResult(jobs, dbs, s, interrupts, k)
    requires (outcome, trace) == JobResult(jobs, dbs, s, interrupts, |outcomes|)
    ensures forall k :: 0 <= k < |outcomes| + 1 ==>
      ((outcomes + [outcome])[k], (traces + [trace])[k]) == JobResult(jobs, dbs, s, interrupts, k)
  {
  }

  method RunSequential(jobs: seq<Job>, dbs: map<string, EseDb>, s: Settings, interrupts: map<nat, Interrupt>)
    returns (outcomes: seq<JobOutcome>, traces: seq<seq<Op>>)
    ensures SequentialRun(jobs, dbs, s, interrupts, outcomes, traces)
  {
    outcomes, traces := [], [];
    var i := 0;
    while i < |jobs|
      invariant 0 <= i <= |jobs| && |outcomes| == |traces| == i
      invariant forall k :: 0 <= k < i ==> (outcomes[k], traces[k]) == JobResult(jobs, dbs, s, interrupts, k)
      invariant forall k :: 0 <= k < i ==> !outcomes[k].Aborted?
    {
      var outcome, trace := RunJob(jobs, dbs, s, interrupts, i);
      RunExtends(jobs, dbs, s, interrupts, outcomes, traces, outcome, trace);
      outcomes, traces := outcomes + [outcome], traces + [trace];
      if outcome.Aborted? {
        return;
      }
      i := i + 1;
    }
  }

  /** A run that is not cut short by an exception imports every file, even
      past interrupted jobs; once every job is readable and fully present,
      none is aborted, so the run always reaches the last file. */
  lemma SequentialRunCoversAllUnlessAborted(jobs: seq<Job>, dbs: map<string, EseDb>, s: Settings,
                                            interrupts: map<nat, Interrupt>, outcomes: seq<JobOutcome>, traces: seq<seq<Op>>)
    requires SequentialRun(jobs, dbs, s, interrupts, outcomes, traces)
    requires forall i :: 0 <= i < |jobs| ==> !JobResult(jobs, dbs, s, interrupts, i).0.Aborted?
    ensures |outcomes| == |jobs|
    ensures forall i :: 0 <= i < |jobs| ==> outcomes[i] == JobResult(jobs, dbs, s, interrupts, i).0
  {
  }

  // ---------------------------------------------------------------------
  // Pairing files with destinations (`main`)
  // ---------------------------------------------------------------------

  /** The destination options: `-C` values, `--C-list`, and the filename
      rewrite given by `--C-from-filename` (its format applied to what the
      RPN program makes of each file name). */
  datatype DestinationOptions = DestinationOptions(
    connections: seq<string>,
    connectionList: Option<string>,
    fromFilename: Option<string -> string>)

  datatype ConfigError = NoFiles | IncompatibleDestinations | CountMismatch(files: nat, destinations: nat)

  predicate ListGiven(o: DestinationOptions) {
    o.connectionList.Some? && o.connectionList.value != ""
  }

  /** How many destination modes are given, each counted when truthy. */
  function ModesGiven(o: DestinationOptions): nat {
    (if ListGiven(o) then 1 else 0) + (if o.connections != [] then 1 else 0) + (if o.fromFilename.Some? then 1 else 0)
  }

  /** The destinations after the list is split and the file names rewritten. */
  function Destinations(args: seq<string>, o: DestinationOptions): seq<string> {
    if o.fromFilename.Some? then seq(|args|, i requires 0 <= i < |args| => o.fromFilename.value(args[i]))
    else if ListGiven(o) then Split(o.connectionList.value, ',')
    else o.connections
  }

  function Configuration(args: seq<string>, o: DestinationOptions): Result<seq<Job>, ConfigError> {
    if args == [] then Err(NoFiles)
    else if ModesGiven(o) > 1 then Err(IncompatibleDestinations)
    else
      var destinations := Destinations(args, o);
      if |args| != |destinations| then Err(CountMismatch(|args|, |destinations|))
      else Ok(seq(|args|, i requires 0 <= i < |args| => Job(args[i], destinations[i])))
  }

  method Configure(args: seq<string>, o: DestinationOptions) returns (r: Result<seq<Job>, ConfigError>)
    ensures r == Configuration(args, o)
  {
    if args == [] {
      return Err(NoFiles);
    }
    var given := 0;
    if ListGiven(o) { given := given + 1; }
    if o.connections != [] { given := given + 1; }
    if o.fromFilename.Some? { given := given + 1; }
    if given > 1 {
      return Err(IncompatibleDestinations);
    }
    var connections := o.connections;
    if ListGiven(o) {
      connections := Split(o.connectionList.value, ',');
    }
    if o.fromFilename.Some? {
      var rewrite := o.fromFilename.value;
      connections := [];
      for i := 0 to |args|
        invariant connections == seq(i, k requires 0 <= k < i => rewrite(args[k]))
      {
        connections := connections + [rewrite(args[i])];
      }
    }
    if |args| != |connections| {
      return Err(CountMismatch(|args|, |connections|));
    }
    var jobs := [];
    for i := 0 to |args|
      invariant jobs == seq(i, k requires 0 <= k < i => Job(args[k], connections[k]))
    {
      jobs := jobs + [Job(args[i], connections[i])];
    }
    return Ok(jobs);
  }

  /** A configuration is accepted exactly when files are given, at most one
      destination mode is used and there are as many destinations as
      files; each job then pairs a file with its destination, in order. */
  lemma ConfigurationAccepts(args: seq<string>, o: DestinationOptions)
    ensures Configuration(args, o).Ok? <==>
      args != [] && ModesGiven(o) <= 1 && |args| == |Destinations(args, o)|
    ensures Configuration(args, o).Ok? ==>
      var jobs := Configuration(args, o).value;
      |jobs| == |args| && forall i :: 0 <= i < |args| ==>
        jobs[i].file == args[i] && jobs[i].destination == Destinations(args, o)[i]
  {
  }

  /** With `--C-list` alone, the run is accepted exactly when the list has
      one comma fewer than there are files, and the destinations put back
      together with commas give the list again. */
  lemma ListModeCountsCommas(args: seq<string>, list: string)
    requires args != [] && list != ""
    ensures var o := DestinationOptions([], Some(list), None);
      && (Configuration(args, o).Ok? <==> Count(list, ',') + 1 == |args|)
      && Join(Destinations(args, o), ',') == list
      && forall i :: 0 <= i < |Destinations(args, o)| ==> ',' !in Destinations(args, o)[i]
  {
    SplitJoin(list, ',');
  }

  /** With `--C-from-filename` alone, every file gets a destination: the
      counts always agree. */
  lemma FilenameModeNeverMismatches(args: seq<string>, rewrite: string -> string)
    requires args != []
    ensures var r := Configuration(args, DestinationOptions([], None, Some(rewrite)));
      r.Ok? && forall i :: 0 <= i < |args| ==> r.value[i] == Job(args[i], rewrite(args[i]))
  {
  }

  /** An empty `--C-list` counts as not given. */
  lemma EmptyListIsIgnored(args: seq<string>, connections: seq<string>)
    ensures Configuration(args, DestinationOptions(connections, Some(""), None))
         == Configuration(args, DestinationOptions(connections, None, None))
  {
  }

  // ---------------------------------------------------------------------
  // The whole program
  // ---------------------------------------------------------------------

  /** `main` in sequential mode: configure, then run the jobs. A rejected
      configuration starts no job and contacts no backend. */
  method Run(args: seq<string>, o: DestinationOptions, dbs: map<string, EseDb>, s: Settings,
             interrupts: map<nat, Interrupt>)
    returns (config: Result<seq<Job>, ConfigError>, outcomes: seq<JobOutcome>, traces: seq<seq<Op>>)
    ensures config == Configuration(args, o)
    ensures config.Err? ==> outcomes == [] && traces == []
    ensures config.Ok? ==> SequentialRun(config.value, dbs, s, interrupts, outcomes, traces)
  {
    config := Configure(args, o);
    if config.Err? {
      return config, [], [];
    }
    outcomes, traces := RunSequential(config.value, dbs, s, interrupts);
  }
}
