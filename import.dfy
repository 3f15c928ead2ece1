/**
 * The `migration:run` console command as an object: its configuration is
 * fixed at construction, the broker's depth readings are a finite run of
 * snapshots it consumes, and every resolution, dispatch and depth poll is
 * appended to a ghost trace. Each method is proved to leave exactly the
 * trace the matching function of `Schedule` describes.
 */
module Import {
  import opened Wrappers
  import opened Mapping
  import opened Queue
  import opened Schedule
  import opened Seqs

  /** What the command reads of the world besides its configuration. */
  datatype Env = Env(
    known: set<string>,             // the job classes that exist
    connectionConfigured: bool,     // the migration database connection is configured
    jobsTableExists: bool,          // the `jobs` table exists (database queue)
    redisReachable: bool,           // the Redis ping is answered (redis queue)
    loggingReady: bool,             // what the Telescope check answers
    jobCount: Spawner -> nat)       // how many chunk jobs a spawner reports

  /** The environment check's verdict; all but Ready end the command. */
  datatype Preflight = Ready | MissingConnection | MissingJobsTable | RedisUnreachable | InvalidJob(table: string)

  ghost predicate MappingValid(mapping: map<string, Entry>, known: set<string>) {
    forall t :: t in mapping ==> ValidEntry(mapping[t], known)
  }

  ghost predicate PreflightOk(c: Config, env: Env) {
    && env.connectionConfigured
    && (c.queueConnection == "database" ==> env.jobsTableExists)
    && (c.queueConnection == "redis" ==> env.redisReachable)
    && MappingValid(c.mapping, env.known)
  }

  /** Once the environment check passes, every table of the mapping resolves. */
  lemma PreflightMeansEveryTableResolves(c: Config, env: Env, table: string)
    requires PreflightOk(c, env) && table in c.mapping
    ensures Item(c, env.known, table).Some?
  {
  }

  /** What the command was asked to do. */
  datatype Mode = UsageError | OneTable(table: string) | AllTables

  /** PHP's empty() on a string. */
  predicate PhpEmpty(s: string) {
    s == "" || s == "0"
  }

  /**
   * The choice `handle` makes from the table argument and the --all flag:
   * neither is a usage error; a non-empty table wins over --all.
   */
  function SelectMode(table: Option<string>, all: bool): (m: Mode)
    ensures m == UsageError <==> table.None? && !all
    ensures m.OneTable? <==> table.Some? && !PhpEmpty(table.value)
    ensures m.OneTable? ==> table == Some(m.table)
  {
    if table.None? && !all then UsageError
    else if table.Some? && !PhpEmpty(table.value) then OneTable(table.value)
    else AllTables
  }

  /** A table argument of "0" is empty to PHP, so the whole plan runs instead. */
  lemma ZeroTableRunsEverything(all: bool)
    ensures SelectMode(Some("0"), all) == AllTables
  {
  }

  /** How the command ends: an exit code, the depth query's exception, or still polling. */
  datatype ExitCode = Success | Failure
  datatype CommandResult = Exited(code: ExitCode) | Threw | Polling

  function WaitResult(w: WaitOutcome): CommandResult {
    match w
    case Drained => Exited(Success)
    case StillWaiting => Polling
    case Unsupported => Threw
  }

  /** One depth poll. */
  datatype Poll = Count(depth: nat) | NoSample | UnsupportedBackend

  /** The console progress bar, as a counter. */
  class ProgressBar {
    var max: nat
    var progress: nat
    var finished: bool

    constructor (max: nat)
      ensures this.max == max && progress == 0 && !finished
    {
      this.max := max;
      progress := 0;
      finished := false;
    }

    method Start(max: nat)
      modifies this
      ensures this.max == max && progress == 0 && !finished
    {
      this.max := max;
      progress := 0;
      finished := false;
    }

    method Advance(step: nat)
      modifies this
      ensures progress == old(progress) + step
      ensures max == old(max) && finished == old(finished)
    {
      progress := progress + step;
    }

    method Finish()
      modifies this
      ensures finished
      ensures max == old(max) && progress == old(progress)
    {
      finished := true;
    }
  }

  class ImportCommand {
    const config: Config
    const env: Env
    /** The depth snapshots the broker will show, in order. */
    var snapshots: seq<Snapshot>
    /** Every resolution, dispatch and depth poll so far. */
    ghost var trace: seq<Event>

    constructor (config: Config, env: Env, snapshots: seq<Snapshot>)
      ensures this.config == config && this.env == env
      ensures this.snapshots == snapshots && trace == []
    {
      this.config := config;
      this.env := env;
      this.snapshots := snapshots;
      trace := [];
    }

    /**
     * The environment check: the connection, the queue backend's own
     * prerequisite, then every mapping entry.
     */
    method VerifyEnvironment() returns (r: Preflight)
      ensures r == Ready <==> PreflightOk(config, env)
      ensures r == MissingConnection <==> !env.connectionConfigured
      ensures r == MissingJobsTable <==>
        env.connectionConfigured && config.queueConnection == "database" && !env.jobsTableExists
      ensures r == RedisUnreachable <==>
        env.connectionConfigured && config.queueConnection == "redis" && !env.redisReachable
      ensures r.InvalidJob? ==>
        r.table in config.mapping && !ValidEntry(config.mapping[r.table], env.known)
    {
      if !env.connectionConfigured {
        return MissingConnection;
      }
      if config.queueConnection == "database" && !env.jobsTableExists {
        return MissingJobsTable;
      }
      if config.queueConnection == "redis" && !env.redisReachable {
        return RedisUnreachable;
      }
      var remaining := config.mapping.Keys;
      while remaining != {}
        invariant remaining <= config.mapping.Keys
        invariant forall t :: t in config.mapping && t !in remaining ==> ValidEntry(config.mapping[t], env.known)
        decreases remaining
      {
        var t :| t in remaining;
        if !ValidEntry(config.mapping[t], env.known) {
          return InvalidJob(t);
        }
        remaining := remaining - {t};
      }
      return Ready;
    }

    /** One depth poll: reads the next snapshot on a supported backend. */
    method GetQueueCount() returns (r: Poll)
      modifies this
      ensures !Supported(config.queueConnection) ==>
        r == UnsupportedBackend && snapshots == old(snapshots) && trace == old(trace)
      ensures Supported(config.queueConnection) && old(snapshots) == [] ==>
        r == NoSample && snapshots == old(snapshots) && trace == old(trace)
      ensures Supported(config.queueConnection) && old(snapshots) != [] ==>
        var n := QueueCount(config.queueConnection, config.queueName, old(snapshots)[0]).value;
        r == Count(n) && snapshots == old(snapshots)[1..] && trace == old(trace) + [Depth(n)]
    {
      var count: nat;
      match config.queueConnection {
        case "database" =>
          if snapshots == [] {
            return NoSample;
          }
          count := snapshots[0].jobsTableRows;
        case "redis" =>
          if snapshots == [] {
            return NoSample;
          }
          count := RedisSize(snapshots[0], PendingKey(config.queueName))
                 + RedisSize(snapshots[0], ReservedKey(config.queueName));
        case _ =>
          return UnsupportedBackend;
      }
      snapshots := snapshots[1..];
      trace := trace + [Depth(count)];
      r := Count(count);
    }

    /**
     * Starts the bar at `jobCount`, then polls until a reading is zero,
     * advancing the bar by every drop from one reading to the next.
     */
    method WaitForEmptyQueue(bar: ProgressBar, jobCount: nat) returns (outcome: WaitOutcome)
      modifies this, bar
      ensures var w := WaitRun(config, old(snapshots));
        outcome == w.outcome && snapshots == w.rest && trace == old(trace) + w.events
      ensures bar.max == jobCount
      ensures bar.finished <==> outcome == Drained
      ensures Supported(config.queueConnection) ==>
        bar.progress == Advanced(Depths(config.queueConnection, config.queueName, old(snapshots)), 0)
      ensures !Supported(config.queueConnection) ==> bar.progress == 0
    {
      bar.Start(jobCount);
      var last: nat := 0;
      var q := GetQueueCount();
      if q.UnsupportedBackend? {
        return Unsupported;
      }
      ghost var w := WaitRun(config, old(snapshots));
      ghost var total := Advanced(Depths(config.queueConnection, config.queueName, old(snapshots)), 0);
      while q != Count(0)
        invariant Supported(config.queueConnection) && !q.UnsupportedBackend?
        invariant q == Count(0) || q.NoSample? ==>
          trace == old(trace) + w.events && snapshots == w.rest && w.outcome == (if q.NoSample? then StillWaiting else Drained)
        invariant q.Count? && q.depth != 0 ==>
          var tail := PollRun(config, snapshots);
          trace + tail.events == old(trace) + w.events && tail.rest == w.rest && tail.outcome == w.outcome
        invariant q.Count? ==>
          bar.progress + Advanced([q.depth] + Depths(config.queueConnection, config.queueName, snapshots), last) == total
        invariant q.NoSample? ==> bar.progress == total
        invariant bar.max == jobCount && !bar.finished
        decreases |snapshots|, if q.Count? then 1 else 0
      {
        if q.NoSample? {
          return StillWaiting;
        }
        ghost var readings := Depths(config.queueConnection, config.queueName, snapshots);
        assert ([q.depth] + readings)[1..] == readings;
        if q.depth < last {
          bar.Advance(last - q.depth);
        }
        last := q.depth;
        ghost var before := trace;
        q := GetQueueCount();
        if q.Count? {
          assert readings == [q.depth] + Depths(config.queueConnection, config.queueName, snapshots);
          AppendAssoc(before, [Depth(q.depth)], PollRun(config, snapshots).events);
        }
      }
      bar.Finish();
      outcome := Drained;
    }

    /**
     * The first pass over a stage: resolve each table, skip the ones that do
     * not resolve, build a spawner for each of the others and add up the jobs
     * they will spawn. Each resolution is recorded as it happens.
     */
    method BuildStage(group: seq<string>) returns (jobs: seq<Spawner>, count: nat)
      modifies this
      ensures jobs == GroupSpawners(config, env.known, group)
      ensures count == TotalJobs(env.jobCount, jobs)
      ensures trace == old(trace) + Resolves(group)
      ensures snapshots == old(snapshots)
    {
      jobs, count := [], 0;
      for i := 0 to |group|
        invariant jobs + GroupSpawners(config, env.known, group[i..]) == GroupSpawners(config, env.known, group)
        invariant count == TotalJobs(env.jobCount, jobs)
        invariant trace == old(trace) + Resolves(group[..i])
        invariant snapshots == old(snapshots)
      {
        var table := group[i];
        GroupSpawnersStep(config, env.known, group, i);
        ResolvesSnoc(group, i);
        AppendAssoc(old(trace), Resolves(group[..i]), [Resolve(table)]);
        var item := GetMigrationItem(config.mapping, table, config.chunkSize, env.known);
        trace := trace + [Resolve(table)];
        if item.None? {
          assert TableSpawners(config, env.known, table) == [];
          continue;
        }
        var spawner := SpawnerFor(config, table, item.value, false);
        assert TableSpawners(config, env.known, table) == [spawner];
        AppendAssoc(jobs, [spawner], GroupSpawners(config, env.known, group[i + 1..]));
        TotalJobsAppend(env.jobCount, jobs, [spawner]);
        jobs := jobs + [spawner];
        count := count + env.jobCount(spawner);
      }
      assert group[|group|..] == [] && group[..|group|] == group;
    }

    /** Dispatches each spawner, in order, onto the configured connection and queue. */
    method DispatchStage(jobs: seq<Spawner>)
      modifies this
      ensures trace == old(trace) + SpawnEnqueues(config, jobs)
      ensures snapshots == old(snapshots)
    {
      for k := 0 to |jobs|
        invariant trace + SpawnEnqueues(config, jobs[k..]) == old(trace) + SpawnEnqueues(config, jobs)
        invariant snapshots == old(snapshots)
      {
        assert jobs[k..][0] == jobs[k] && jobs[k..][1..] == jobs[k + 1..];
        trace := trace + [Enqueue(Spawn(jobs[k]), config.queueConnection, config.queueName)];
      }
      assert jobs[|jobs|..] == [];
    }

    /**
     * One stage: resolve each table (skipping those that do not resolve),
     * sum the job counts, dispatch every spawner, then wait for the queue.
     */
    method MigrateJobGroup(group: seq<string>, bar: ProgressBar) returns (outcome: WaitOutcome)
      modifies this, bar
      ensures var g := GroupRun(config, env.known, group, old(snapshots));
        outcome == g.outcome && snapshots == g.rest && trace == old(trace) + g.events
      ensures bar.max == TotalJobs(env.jobCount, GroupSpawners(config, env.known, group))
      ensures bar.finished <==> outcome == Drained
      ensures Supported(config.queueConnection) ==>
        bar.progress == Advanced(Depths(config.queueConnection, config.queueName, old(snapshots)), 0)
      ensures !Supported(config.queueConnection) ==> bar.progress == 0
    {
      var jobs, jobCount := BuildStage(group);
      DispatchStage(jobs);
      outcome := WaitForEmptyQueue(bar, jobCount);
      AppendAssoc(old(trace) + Resolves(group), SpawnEnqueues(config, jobs), WaitRun(config, old(snapshots)).events);
      AppendAssoc(old(trace), Resolves(group), SpawnEnqueues(config, jobs) + WaitRun(config, old(snapshots)).events);
    }

    /** Dispatches, in order, each after job whose class exists; the others are skipped. */
    method DispatchAfterJobs(jobs: seq<string>)
      modifies this
      ensures trace == old(trace) + AfterEnqueues(config, KnownAfterJobs(jobs, env.known))
      ensures snapshots == old(snapshots)
    {
      for i := 0 to |jobs|
        invariant trace + AfterEnqueues(config, KnownAfterJobs(jobs[i..], env.known))
               == old(trace) + AfterEnqueues(config, KnownAfterJobs(jobs, env.known))
        invariant snapshots == old(snapshots)
      {
        assert jobs[i..][0] == jobs[i] && jobs[i..][1..] == jobs[i + 1..];
        var rest := KnownAfterJobs(jobs[i + 1..], env.known);
        if jobs[i] !in env.known {
          assert KnownAfterJobs(jobs[i..], env.known) == rest;
          continue;
        }
        assert KnownAfterJobs(jobs[i..], env.known) == [jobs[i]] + rest;
        assert ([jobs[i]] + rest)[0] == jobs[i] && ([jobs[i]] + rest)[1..] == rest;
        trace := trace + [Enqueue(After(jobs[i]), config.queueConnection, config.queueName)];
      }
      assert jobs[|jobs|..] == [];
    }

    /**
     * The after jobs: dispatch each whose class exists, then wait with the
     * length of the whole list as the bar's total.
     */
    method RunAfterJobs(bar: ProgressBar) returns (outcome: WaitOutcome)
      modifies this, bar
      ensures var a := AfterRun(config, env.known, old(snapshots));
        outcome == a.outcome && snapshots == a.rest && trace == old(trace) + a.events
      ensures bar.max == |config.afterJobs|
      ensures bar.finished <==> outcome == Drained
      ensures Supported(config.queueConnection) ==>
        bar.progress == Advanced(Depths(config.queueConnection, config.queueName, old(snapshots)), 0)
      ensures !Supported(config.queueConnection) ==> bar.progress == 0
    {
      var jobs := config.afterJobs;
      var jobCount := |jobs|;
      DispatchAfterJobs(jobs);
      ghost var enqueued := AfterEnqueues(config, KnownAfterJobs(jobs, env.known));
      ghost var dispatched := trace;
      assert dispatched == old(trace) + enqueued;
      outcome := WaitForEmptyQueue(bar, jobCount);
      ghost var w := WaitRun(config, old(snapshots));
      assert trace == dispatched + w.events;
      assert trace == old(trace) + (enqueued + w.events);
    }

    /**
     * The body of the stage loop for the stage at `index`: run it and relate
     * the result to the run of the stages from `index` on.
     */
    method MigrateGroupAt(index: nat, bar: ProgressBar) returns (outcome: WaitOutcome)
      requires index < |config.groups|
      modifies this, bar
      ensures var r := RunGroups(config, env.known, config.groups[index..], old(snapshots));
        outcome != Drained ==> outcome == r.outcome && snapshots == r.rest && trace == old(trace) + r.events
      ensures var r := RunGroups(config, env.known, config.groups[index..], old(snapshots));
        var r' := RunGroups(config, env.known, config.groups[index + 1..], snapshots);
        outcome == Drained ==>
          && trace + r'.events == old(trace) + r.events
          && r'.rest == r.rest
          && r'.outcome == r.outcome
    {
      ghost var g := GroupRun(config, env.known, config.groups[index], snapshots);
      RunGroupsStep(config, env.known, config.groups, index, snapshots);
      outcome := MigrateJobGroup(config.groups[index], bar);
      AppendAssoc(old(trace), g.events, RunGroups(config, env.known, config.groups[index + 1..], snapshots).events);
    }

    /**
     * Every stage whose index is at least `start`, in plan order, each one
     * drained before the next; then the after jobs, when there are any.
     */
    method MigrateAllTables(start: int) returns (outcome: WaitOutcome)
      modifies this
      ensures var a := AllTablesRun(config, env.known, start, old(snapshots));
        outcome == a.outcome && snapshots == a.rest && trace == old(trace) + a.events
    {
      var bar := new ProgressBar(1);
      ghost var s := StartIndex(config, start);
      ghost var total := RunGroups(config, env.known, config.groups[s..], snapshots);
      outcome := Drained;
      for index := 0 to |config.groups|
        invariant outcome == Drained
        invariant
          var r := RunGroups(config, env.known, config.groups[if index < s then s else index..], snapshots);
          && trace + r.events == old(trace) + total.events
          && r.rest == total.rest
          && r.outcome == total.outcome
      {
        if Skipped(start, index) {
          assert index + 1 <= s;
          continue;
        }
        assert s <= index;
        outcome := MigrateGroupAt(index, bar);
        if outcome != Drained {
          return;
        }
      }
      assert config.groups[|config.groups|..] == [];
      assert trace == old(trace) + total.events;
      if config.afterJobs != [] {
        outcome := RunAfterJobs(bar);
        AppendAssoc(old(trace), total.events, AfterRun(config, env.known, total.rest).events);
      }
    }

    /**
     * One table: unmapped tables stop with an error; otherwise the spawner
     * runs in process (`sync`) or as a one-table stage through the queue.
     */
    method MigrateTable(table: string, sync: bool) returns (r: TableOutcome)
      modifies this
      ensures var t := TableRun(config, env.known, table, sync, old(snapshots));
        r == t.outcome && snapshots == t.rest && trace == old(trace) + t.events
    {
      var item := GetMigrationItem(config.mapping, table, config.chunkSize, env.known);
      trace := trace + [Resolve(table)];
      if table !in config.mapping || item.None? {
        return NotMapped;
      }
      if sync {
        trace := trace + [RunSync(SpawnerFor(config, table, item.value, true))];
        return RanInProcess;
      }
      var bar := new ProgressBar(1);
      var w := MigrateJobGroup([table], bar);
      return Queued(w);
    }

    /**
     * The command: environment check, argument check, the logging check,
     * then one table in process or the whole plan.
     */
    method Handle(table: Option<string>, all: bool, group: int) returns (r: CommandResult)
      modifies this
      ensures !PreflightOk(config, env) || SelectMode(table, all) == UsageError || !env.loggingReady ==>
        r == Exited(Failure) && snapshots == old(snapshots) && trace == old(trace)
      ensures PreflightOk(config, env) && env.loggingReady && SelectMode(table, all).OneTable? ==>
        var t := TableRun(config, env.known, table.value, true, old(snapshots));
        r == Exited(Success) && snapshots == t.rest && trace == old(trace) + t.events
      ensures PreflightOk(config, env) && env.loggingReady && SelectMode(table, all) == AllTables ==>
        var a := AllTablesRun(config, env.known, group, old(snapshots));
        r == WaitResult(a.outcome) && snapshots == a.rest && trace == old(trace) + a.events
    {
      var preflight := VerifyEnvironment();
      if preflight != Ready {
        return Exited(Failure);
      }
      if table.None? && !all {
        return Exited(Failure);
      }
      if !env.loggingReady {
        return Exited(Failure);
      }
      if table.Some? && !PhpEmpty(table.value) {
        var _ := MigrateTable(table.value, true);
        return Exited(Success);
      }
      var w := MigrateAllTables(group);
      r := WaitResult(w);
    }
  }
}
