/**
 * What the `migration:run` command does, as values: the events one stage,
 * the whole dependency plan and a single-table run leave on a trace of the
 * resolver and broker interactions, given the depth snapshots the broker
 * shows. The imperative command in `Import` is proved to produce exactly
 * these traces; the lemmas here state what the traces guarantee.
 */
module Schedule {
  import opened Wrappers
  import opened Mapping
  import opened Queue
  import opened Seqs

  /** The command's configuration, read once when it is constructed. */
  datatype Config = Config(
    queueName: string,
    queueConnection: string,
    connection: string,
    chunkSize: int,
    mapping: map<string, Entry>,
    groups: seq<seq<string>>,
    afterJobs: seq<string>)

  /** The arguments a MigrationJobSpawner is constructed with. */
  datatype Spawner = Spawner(
    job: string,
    connection: string,
    table: string,
    tableExpression: string,
    wheres: seq<Clause>,
    joins: seq<Clause>,
    chunkSize: int,
    sync: bool)

  datatype Job = Spawn(spawner: Spawner) | After(name: string)

  /** One interaction with the resolver or the broker. */
  datatype Event =
    | Resolve(table: string)                              // getMigrationItem is consulted
    | Enqueue(job: Job, connection: string, queue: string) // dispatch onto the queue
    | RunSync(spawner: Spawner)                           // dispatch_sync: run in process
    | Depth(count: nat)                                   // one poll of the queue depth

  /**
   * How a wait for the empty queue ends: on a zero reading, still polling when
   * the snapshots run out, or by the exception the depth query throws.
   */
  datatype WaitOutcome = Drained | StillWaiting | Unsupported

  /** The events of a run, the snapshots left unread, and how it ended. */
  datatype Run<O> = Run(events: seq<Event>, rest: seq<Snapshot>, outcome: O)

  function Item(c: Config, known: set<string>, table: string): Option<MigrationItem> {
    GetMigrationItem(c.mapping, table, c.chunkSize, known)
  }

  function SpawnerFor(c: Config, table: string, item: MigrationItem, sync: bool): Spawner {
    Spawner(item.job, c.connection, table, TableNameExpression(table), item.wheres, item.joins, item.chunkSize, sync)
  }

  /** The spawner a table contributes to its stage: none when it does not resolve. */
  function TableSpawners(c: Config, known: set<string>, table: string): seq<Spawner> {
    match Item(c, known, table)
    case None => []
    case Some(item) => [SpawnerFor(c, table, item, false)]
  }

  /** The spawners built for a stage: one per table that resolves, in stage order. */
  function GroupSpawners(c: Config, known: set<string>, group: seq<string>): seq<Spawner> {
    if group == [] then [] else TableSpawners(c, known, group[0]) + GroupSpawners(c, known, group[1..])
  }

  /**
   * A stage spawns for a table exactly when the table is in the stage and
   * resolves, and then with the job record it resolves to; unresolved tables
   * are skipped and do not stop their siblings.
   */
  lemma {:induction false} GroupSpawnersExactlyResolved(c: Config, known: set<string>, group: seq<string>)
    ensures |GroupSpawners(c, known, group)| <= |group|
    ensures forall s :: s in GroupSpawners(c, known, group) ==>
      && s.table in group
      && Item(c, known, s.table).Some?
      && s == SpawnerFor(c, s.table, Item(c, known, s.table).value, false)
    ensures forall t :: t in group && Item(c, known, t).Some? ==>
      SpawnerFor(c, t, Item(c, known, t).value, false) in GroupSpawners(c, known, group)
  {
    if group != [] {
      GroupSpawnersExactlyResolved(c, known, group[1..]);
      forall t | t in group && Item(c, known, t).Some?
        ensures SpawnerFor(c, t, Item(c, known, t).value, false) in GroupSpawners(c, known, group)
      {
        if t != group[0] {
          assert t in group[1..];
        }
      }
    }
  }

  lemma {:induction false} GroupSpawnersAppend(c: Config, known: set<string>, g1: seq<string>, g2: seq<string>)
    ensures GroupSpawners(c, known, g1 + g2) == GroupSpawners(c, known, g1) + GroupSpawners(c, known, g2)
  {
    if g1 == [] {
      assert g1 + g2 == g2;
    } else {
      assert (g1 + g2)[0] == g1[0];
      assert (g1 + g2)[1..] == g1[1..] + g2;
      GroupSpawnersAppend(c, known, g1[1..], g2);
    }
  }

  /** The sum of the spawners' job counts. */
  function TotalJobs(jobCount: Spawner -> nat, ss: seq<Spawner>): nat {
    if ss == [] then 0 else jobCount(ss[0]) + TotalJobs(jobCount, ss[1..])
  }

  lemma {:induction false} TotalJobsAppend(jobCount: Spawner -> nat, a: seq<Spawner>, b: seq<Spawner>)
    ensures TotalJobs(jobCount, a + b) == TotalJobs(jobCount, a) + TotalJobs(jobCount, b)
  {
    if a == [] {
      assert a + b == b;
    } else {
      assert (a + b)[0] == a[0];
      assert (a + b)[1..] == a[1..] + b;
      TotalJobsAppend(jobCount, a[1..], b);
    }
  }

  /**
   * A table that does not resolve is skipped: the stage spawns and counts
   * exactly what it would without that table.
   */
  lemma UnresolvedTableIsSkipped(c: Config, known: set<string>, jobCount: Spawner -> nat,
                                 g1: seq<string>, t: string, g2: seq<string>)
    requires Item(c, known, t).None?
    ensures GroupSpawners(c, known, g1 + [t] + g2) == GroupSpawners(c, known, g1 + g2)
    ensures TotalJobs(jobCount, GroupSpawners(c, known, g1 + [t] + g2))
         == TotalJobs(jobCount, GroupSpawners(c, known, g1 + g2))
  {
    GroupSpawnersAppend(c, known, g1 + [t], g2);
    GroupSpawnersAppend(c, known, g1, [t]);
    GroupSpawnersAppend(c, known, g1, g2);
    assert GroupSpawners(c, known, [t]) == [];
  }

  /** The after jobs whose class exists, in list order. */
  function KnownAfterJobs(names: seq<string>, known: set<string>): (r: seq<string>)
    ensures |r| <= |names|
    ensures forall j :: j in r <==> j in names && j in known
  {
    if names == [] then []
    else (if names[0] in known then [names[0]] else []) + KnownAfterJobs(names[1..], known)
  }

  /** A known after job is dispatched as often as it is listed, an unknown one never. */
  lemma {:induction false} KnownAfterJobsCounts(names: seq<string>, known: set<string>)
    ensures forall j :: multiset(KnownAfterJobs(names, known))[j] == if j in known then multiset(names)[j] else 0
  {
    if names != [] {
      KnownAfterJobsCounts(names[1..], known);
      assert names == [names[0]] + names[1..];
    }
  }

  /** Filtering keeps the list order: the known jobs of a + b are those of a, then those of b. */
  lemma {:induction false} KnownAfterJobsAppend(a: seq<string>, b: seq<string>, known: set<string>)
    ensures KnownAfterJobs(a + b, known) == KnownAfterJobs(a, known) + KnownAfterJobs(b, known)
  {
    if a == [] {
      assert a + b == b;
    } else {
      assert (a + b)[0] == a[0];
      assert (a + b)[1..] == a[1..] + b;
      KnownAfterJobsAppend(a[1..], b, known);
      AppendAssoc(if a[0] in known then [a[0]] else [], KnownAfterJobs(a[1..], known), KnownAfterJobs(b, known));
    }
  }

  function Resolves(tables: seq<string>): seq<Event> {
    if tables == [] then [] else [Resolve(tables[0])] + Resolves(tables[1..])
  }

  /** One resolution per table, in the stage's order. */
  lemma {:induction false} ResolvesEvents(tables: seq<string>)
    ensures |Resolves(tables)| == |tables|
    ensures forall i :: 0 <= i < |tables| ==> Resolves(tables)[i] == Resolve(tables[i])
  {
    if tables != [] {
      ResolvesEvents(tables[1..]);
      assert forall i :: 0 < i < |tables| ==> Resolves(tables)[i] == Resolves(tables[1..])[i - 1];
    }
  }

  lemma {:induction false} ResolvesAppend(a: seq<string>, b: seq<string>)
    ensures Resolves(a + b) == Resolves(a) + Resolves(b)
  {
    if a == [] {
      assert a + b == b;
    } else {
      assert (a + b)[0] == a[0];
      assert (a + b)[1..] == a[1..] + b;
      ResolvesAppend(a[1..], b);
      AppendAssoc([Resolve(a[0])], Resolves(a[1..]), Resolves(b));
    }
  }

  /** Resolving one more table of a stage appends its resolution. */
  lemma ResolvesSnoc(tables: seq<string>, i: nat)
    requires i < |tables|
    ensures Resolves(tables[..i + 1]) == Resolves(tables[..i]) + [Resolve(tables[i])]
  {
    assert tables[..i + 1] == tables[..i] + [tables[i]];
    ResolvesAppend(tables[..i], [tables[i]]);
  }

  /** The spawners of a stage from position i on: those of table i, then the rest. */
  lemma GroupSpawnersStep(c: Config, known: set<string>, group: seq<string>, i: nat)
    requires i < |group|
    ensures GroupSpawners(c, known, group[i..]) == TableSpawners(c, known, group[i]) + GroupSpawners(c, known, group[i + 1..])
  {
    assert group[i..][0] == group[i] && group[i..][1..] == group[i + 1..];
  }

  /** The dispatches of a stage's spawners. */
  function SpawnEnqueues(c: Config, ss: seq<Spawner>): seq<Event> {
    if ss == [] then [] else [Enqueue(Spawn(ss[0]), c.queueConnection, c.queueName)] + SpawnEnqueues(c, ss[1..])
  }

  /** Every event of a stage's dispatch enqueues one of its spawners. */
  lemma {:induction false} SpawnEnqueuesAreSpawns(c: Config, ss: seq<Spawner>)
    ensures |SpawnEnqueues(c, ss)| == |ss|
    ensures forall i :: 0 <= i < |ss| ==> SpawnEnqueues(c, ss)[i] == Enqueue(Spawn(ss[i]), c.queueConnection, c.queueName)
  {
    if ss != [] {
      SpawnEnqueuesAreSpawns(c, ss[1..]);
      assert forall i :: 0 < i < |ss| ==> SpawnEnqueues(c, ss)[i] == SpawnEnqueues(c, ss[1..])[i - 1];
    }
  }

  /** The dispatches of the after jobs. */
  function AfterEnqueues(c: Config, names: seq<string>): seq<Event> {
    if names == [] then [] else [Enqueue(After(names[0]), c.queueConnection, c.queueName)] + AfterEnqueues(c, names[1..])
  }

  function DepthEvents(d: seq<nat>): seq<Event> {
    if d == [] then [] else [Depth(d[0])] + DepthEvents(d[1..])
  }

  /**
   * The polling loop on a supported backend: one depth event per reading,
   * ending at the first reading of zero (Drained) or when the snapshots run
   * out (StillWaiting).
   */
  function PollRun(c: Config, snaps: seq<Snapshot>): Run<WaitOutcome>
    requires Supported(c.queueConnection)
  {
    if snaps == [] then Run([], [], StillWaiting)
    else
      var n := QueueCount(c.queueConnection, c.queueName, snaps[0]).value;
      if n == 0 then Run([Depth(0)], snaps[1..], Drained)
      else
        var r := PollRun(c, snaps[1..]);
        Run([Depth(n)] + r.events, r.rest, r.outcome)
  }

  /** One wait for the empty queue, from the given snapshots; an unknown backend fails at the first poll. */
  function WaitRun(c: Config, snaps: seq<Snapshot>): Run<WaitOutcome> {
    if Supported(c.queueConnection) then PollRun(c, snaps) else Run([], snaps, Unsupported)
  }

  /**
   * The wait read off the readings: it takes Polls(d) readings (up to and
   * including the first zero) and consumes that many snapshots.
   */
  lemma {:induction false} PollRunReadsUntilZero(c: Config, snaps: seq<Snapshot>)
    requires Supported(c.queueConnection)
    ensures var d := Depths(c.queueConnection, c.queueName, snaps);
      && PollRun(c, snaps).events == DepthEvents(d[..Polls(d)])
      && PollRun(c, snaps).rest == snaps[Polls(d)..]
  {
    if snaps != [] {
      var n := QueueCount(c.queueConnection, c.queueName, snaps[0]).value;
      var tail := Depths(c.queueConnection, c.queueName, snaps[1..]);
      assert Depths(c.queueConnection, c.queueName, snaps) == [n] + tail;
      if n == 0 {
        assert FirstZero([n] + tail) == 0 && ([n] + tail)[..1] == [0];
      } else {
        PollRunReadsUntilZero(c, snaps[1..]);
        PollsCons(n, tail);
        var prefix := tail[..Polls(tail)];
        assert ([n] + prefix)[0] == n && ([n] + prefix)[1..] == prefix;
        assert snaps[1 + Polls(tail)..] == snaps[1..][Polls(tail)..];
      }
    }
  }

  /** The wait drains exactly when some reading is zero; otherwise it is still waiting when the snapshots run out. */
  lemma {:induction false} PollRunDrainsOnZero(c: Config, snaps: seq<Snapshot>)
    requires Supported(c.queueConnection)
    ensures PollRun(c, snaps).outcome == Drained <==> 0 in Depths(c.queueConnection, c.queueName, snaps)
    ensures PollRun(c, snaps).outcome == StillWaiting <==> 0 !in Depths(c.queueConnection, c.queueName, snaps)
  {
    if snaps != [] {
      var n := QueueCount(c.queueConnection, c.queueName, snaps[0]).value;
      var tail := Depths(c.queueConnection, c.queueName, snaps[1..]);
      assert Depths(c.queueConnection, c.queueName, snaps) == [n] + tail;
      if n != 0 {
        PollRunDrainsOnZero(c, snaps[1..]);
        assert 0 in [n] + tail <==> 0 in tail;
      }
    }
  }

  /** One stage: resolve every table, enqueue every spawner, then wait. */
  function GroupRun(c: Config, known: set<string>, group: seq<string>, snaps: seq<Snapshot>): Run<WaitOutcome> {
    var w := WaitRun(c, snaps);
    Run(Resolves(group) + SpawnEnqueues(c, GroupSpawners(c, known, group)) + w.events, w.rest, w.outcome)
  }

  /** The stages in order; a stage that does not drain ends the run. */
  function RunGroups(c: Config, known: set<string>, groups: seq<seq<string>>, snaps: seq<Snapshot>): Run<WaitOutcome>
    decreases |groups|
  {
    if groups == [] then Run([], snaps, Drained)
    else
      var g := GroupRun(c, known, groups[0], snaps);
      if g.outcome != Drained then g
      else
        var r := RunGroups(c, known, groups[1..], g.rest);
        Run(g.events + r.events, r.rest, r.outcome)
  }

  /** One step of the stage loop from stage `index` on. */
  lemma RunGroupsStep(c: Config, known: set<string>, groups: seq<seq<string>>, index: nat, snaps: seq<Snapshot>)
    requires index < |groups|
    ensures var g := GroupRun(c, known, groups[index], snaps);
      var r := RunGroups(c, known, groups[index..], snaps);
      && (g.outcome != Drained ==> r == g)
      && (g.outcome == Drained ==> r == Run(g.events + RunGroups(c, known, groups[index + 1..], g.rest).events,
                                            RunGroups(c, known, groups[index + 1..], g.rest).rest,
                                            RunGroups(c, known, groups[index + 1..], g.rest).outcome))
  {
    assert groups[index..][0] == groups[index];
    assert groups[index..][1..] == groups[index + 1..];
  }

  /** The after jobs: enqueue those whose class exists, then wait. */
  function AfterRun(c: Config, known: set<string>, snaps: seq<Snapshot>): Run<WaitOutcome> {
    var w := WaitRun(c, snaps);
    Run(AfterEnqueues(c, KnownAfterJobs(c.afterJobs, known)) + w.events, w.rest, w.outcome)
  }

  /** The stage loop's test: the stage at `index` is skipped while `start` is greater. */
  predicate Skipped(start: int, index: int) {
    start > index
  }

  /** The first stage index that runs: every stage from it on runs, none before it. */
  function StartIndex(c: Config, start: int): (s: nat)
    ensures s <= |c.groups|
    ensures forall i :: 0 <= i < |c.groups| ==> (s <= i <==> !Skipped(start, i))
  {
    if start < 0 then 0 else if start > |c.groups| then |c.groups| else start
  }

  /** Every stage from `start` on, then the after jobs when there are any. */
  function AllTablesRun(c: Config, known: set<string>, start: int, snaps: seq<Snapshot>): Run<WaitOutcome> {
    var g := RunGroups(c, known, c.groups[StartIndex(c, start)..], snaps);
    if g.outcome == Drained && c.afterJobs != [] then
      var a := AfterRun(c, known, g.rest);
      Run(g.events + a.events, a.rest, a.outcome)
    else g
  }

  /** How a single-table run ends. */
  datatype TableOutcome = NotMapped | RanInProcess | Queued(wait: WaitOutcome)

  /**
   * A single table: resolve it; unmapped tables stop there; otherwise run the
   * spawner in process, or as a one-table stage through the queue.
   */
  function TableRun(c: Config, known: set<string>, table: string, sync: bool, snaps: seq<Snapshot>): Run<TableOutcome> {
    match Item(c, known, table)
    case None => Run([Resolve(table)], snaps, NotMapped)
    case Some(item) =>
      if sync then Run([Resolve(table), RunSync(SpawnerFor(c, table, item, true))], snaps, RanInProcess)
      else
        var g := GroupRun(c, known, [table], snaps);
        Run([Resolve(table)] + g.events, g.rest, Queued(g.outcome))
  }

  // ---------------------------------------------------------------------
  // The stage barrier

  /**
   * Whether the queue is, as far as the trace shows, still busy after `t`:
   * the last depth reading in it was non-zero (or `busy` if there is none).
   */
  function BusyAfter(t: seq<Event>, busy: bool): bool {
    if t == [] then busy
    else BusyAfter(t[1..], if t[0].Depth? then t[0].count != 0 else busy)
  }

  /** Reading `t` left to right, no job is enqueued while the queue is busy. */
  predicate Barrier(t: seq<Event>, busy: bool) {
    if t == [] then true
    else
      && !(t[0].Enqueue? && busy)
      && Barrier(t[1..], if t[0].Depth? then t[0].count != 0 else busy)
  }

  lemma {:induction false} BarrierAppend(a: seq<Event>, b: seq<Event>, busy: bool)
    ensures Barrier(a + b, busy) <==> Barrier(a, busy) && Barrier(b, BusyAfter(a, busy))
    ensures BusyAfter(a + b, busy) == BusyAfter(b, BusyAfter(a, busy))
  {
    if a == [] {
      assert a + b == b;
    } else {
      assert (a + b)[0] == a[0];
      assert (a + b)[1..] == a[1..] + b;
      BarrierAppend(a[1..], b, if a[0].Depth? then a[0].count != 0 else busy);
    }
  }

  /** Events that are not depth readings change nothing for the barrier, and pass when the queue is idle. */
  lemma {:induction false} QuietEvents(t: seq<Event>)
    requires forall i :: 0 <= i < |t| ==> !t[i].Depth?
    ensures Barrier(t, false) && !BusyAfter(t, false)
  {
    if t != [] {
      QuietEvents(t[1..]);
    }
  }

  lemma {:induction false} ResolvesAreQuiet(tables: seq<string>)
    ensures forall i :: 0 <= i < |Resolves(tables)| ==> !Resolves(tables)[i].Depth?
  {
    if tables != [] {
      ResolvesAreQuiet(tables[1..]);
    }
  }

  lemma {:induction false} SpawnEnqueuesAreQuiet(c: Config, ss: seq<Spawner>)
    ensures forall i :: 0 <= i < |SpawnEnqueues(c, ss)| ==> !SpawnEnqueues(c, ss)[i].Depth?
  {
    if ss != [] {
      SpawnEnqueuesAreQuiet(c, ss[1..]);
    }
  }

  lemma {:induction false} AfterEnqueuesAreQuiet(c: Config, names: seq<string>)
    ensures forall i :: 0 <= i < |AfterEnqueues(c, names)| ==> !AfterEnqueues(c, names)[i].Depth?
  {
    if names != [] {
      AfterEnqueuesAreQuiet(c, names[1..]);
    }
  }

  /** Polling enqueues nothing, and a poll that drains leaves the queue idle, whatever came before. */
  lemma {:induction false} PollRunKeepsBarrier(c: Config, snaps: seq<Snapshot>, busy: bool)
    requires Supported(c.queueConnection)
    ensures Barrier(PollRun(c, snaps).events, busy)
    ensures PollRun(c, snaps).outcome == Drained ==> !BusyAfter(PollRun(c, snaps).events, busy)
  {
    if snaps != [] {
      var n := QueueCount(c.queueConnection, c.queueName, snaps[0]).value;
      if n != 0 {
        var r := PollRun(c, snaps[1..]);
        PollRunKeepsBarrier(c, snaps[1..], true);
        assert ([Depth(n)] + r.events)[0] == Depth(n);
        assert ([Depth(n)] + r.events)[1..] == r.events;
      }
    }
  }

  /** A wait keeps the barrier, and leaves the queue idle when it drains. */
  lemma WaitKeepsBarrier(c: Config, snaps: seq<Snapshot>)
    ensures Barrier(WaitRun(c, snaps).events, false)
    ensures WaitRun(c, snaps).outcome == Drained ==> !BusyAfter(WaitRun(c, snaps).events, false)
  {
    if Supported(c.queueConnection) {
      PollRunKeepsBarrier(c, snaps, false);
    }
  }

  /**
   * Within a stage every enqueue comes before the first depth reading, and
   * a stage that drains leaves the queue idle.
   */
  lemma GroupKeepsBarrier(c: Config, known: set<string>, group: seq<string>, snaps: seq<Snapshot>)
    ensures Barrier(GroupRun(c, known, group, snaps).events, false)
    ensures GroupRun(c, known, group, snaps).outcome == Drained ==>
      !BusyAfter(GroupRun(c, known, group, snaps).events, false)
    ensures var e := GroupRun(c, known, group, snaps).events;
      forall i, j :: 0 <= i < j < |e| && e[j].Enqueue? ==> !e[i].Depth?
  {
    var head := Resolves(group) + SpawnEnqueues(c, GroupSpawners(c, known, group));
    var w := WaitRun(c, snaps).events;
    ResolvesAreQuiet(group);
    SpawnEnqueuesAreQuiet(c, GroupSpawners(c, known, group));
    QuietEvents(head);
    WaitKeepsBarrier(c, snaps);
    BarrierAppend(head, w, false);
    WaitEventsAreDepths(c, snaps);
    var e := head + w;
    forall i, j | 0 <= i < j < |e| && e[j].Enqueue? ensures !e[i].Depth? {
      assert e[i] == head[i];
    }
  }

  /** A wait consists of depth readings only. */
  lemma WaitEventsAreDepths(c: Config, snaps: seq<Snapshot>)
    ensures forall i :: 0 <= i < |WaitRun(c, snaps).events| ==> WaitRun(c, snaps).events[i].Depth?
  {
    if Supported(c.queueConnection) {
      PollRunEventsAreDepths(c, snaps);
    }
  }

  lemma {:induction false} PollRunEventsAreDepths(c: Config, snaps: seq<Snapshot>)
    requires Supported(c.queueConnection)
    ensures forall i :: 0 <= i < |PollRun(c, snaps).events| ==> PollRun(c, snaps).events[i].Depth?
  {
    if snaps != [] {
      var n := QueueCount(c.queueConnection, c.queueName, snaps[0]).value;
      if n != 0 {
        var r := PollRun(c, snaps[1..]);
        PollRunEventsAreDepths(c, snaps[1..]);
        assert forall i :: 0 < i < |[Depth(n)] + r.events| ==> ([Depth(n)] + r.events)[i] == r.events[i - 1];
      }
    }
  }

  lemma {:induction false} GroupsKeepBarrier(c: Config, known: set<string>, groups: seq<seq<string>>, snaps: seq<Snapshot>)
    ensures Barrier(RunGroups(c, known, groups, snaps).events, false)
    ensures RunGroups(c, known, groups, snaps).outcome == Drained ==>
      !BusyAfter(RunGroups(c, known, groups, snaps).events, false)
    decreases |groups|
  {
    if groups != [] {
      var g := GroupRun(c, known, groups[0], snaps);
      GroupKeepsBarrier(c, known, groups[0], snaps);
      if g.outcome == Drained {
        GroupsKeepBarrier(c, known, groups[1..], g.rest);
        BarrierAppend(g.events, RunGroups(c, known, groups[1..], g.rest).events, false);
      }
    }
  }

  /**
   * The dependency barrier of a full run: once a depth reading shows jobs
   * outstanding, no job (of a later stage or of the after jobs) is enqueued
   * until a reading of zero.
   */
  lemma StagesNeverOverlap(c: Config, known: set<string>, start: int, snaps: seq<Snapshot>)
    ensures Barrier(AllTablesRun(c, known, start, snaps).events, false)
  {
    var g := RunGroups(c, known, c.groups[StartIndex(c, start)..], snaps);
    GroupsKeepBarrier(c, known, c.groups[StartIndex(c, start)..], snaps);
    if g.outcome == Drained && c.afterJobs != [] {
      var head := AfterEnqueues(c, KnownAfterJobs(c.afterJobs, known));
      AfterEnqueuesAreQuiet(c, KnownAfterJobs(c.afterJobs, known));
      QuietEvents(head);
      WaitKeepsBarrier(c, g.rest);
      BarrierAppend(head, WaitRun(c, g.rest).events, false);
      BarrierAppend(g.events, AfterRun(c, known, g.rest).events, false);
    }
  }

  /**
   * A single table run in process touches neither the queue nor the broker:
   * nothing is enqueued, no depth is read, no snapshot is consumed.
   */
  lemma SyncTableRunStaysInProcess(c: Config, known: set<string>, table: string, snaps: seq<Snapshot>)
    ensures var t := TableRun(c, known, table, true, snaps);
      && t.rest == snaps
      && (forall i :: 0 <= i < |t.events| ==> !t.events[i].Enqueue? && !t.events[i].Depth?)
      && (t.outcome == RanInProcess <==> Item(c, known, table).Some?)
      && (t.outcome == NotMapped <==> Item(c, known, table).None?)
  {
  }

  /**
   * A single table run through the queue keeps the barrier and the stage
   * order, and ends idle with nothing outstanding when it drains.
   */
  lemma QueuedTableRunKeepsBarrier(c: Config, known: set<string>, table: string, snaps: seq<Snapshot>)
    ensures Barrier(TableRun(c, known, table, false, snaps).events, false)
    ensures Ordered(TableRun(c, known, table, false, snaps).events, false)
    ensures TableRun(c, known, table, false, snaps).outcome == Queued(Drained) ==>
      && !BusyAfter(TableRun(c, known, table, false, snaps).events, false)
      && !DirtyAfter(TableRun(c, known, table, false, snaps).events, false)
  {
    if Item(c, known, table).Some? {
      var g := GroupRun(c, known, [table], snaps);
      GroupKeepsBarrier(c, known, [table], snaps);
      QuietEvents([Resolve(table)]);
      BarrierAppend([Resolve(table)], g.events, false);
      GroupOrdered(c, known, [table], snaps);
      OrderedAppend([Resolve(table)], g.events, false);
    }
  }

  // ---------------------------------------------------------------------
  // Stage order

  /** A dispatch of a spawner: a job of the current stage. */
  predicate IsSpawn(e: Event) {
    e.Enqueue? && e.job.Spawn?
  }

  /** An event that starts later work: resolving a table, or dispatching an after job. */
  predicate Opens(e: Event) {
    e.Resolve? || (e.Enqueue? && e.job.After?)
  }

  /**
   * Whether spawned jobs may still be outstanding after `e`: a spawn makes
   * them so, and only a reading of zero clears them.
   */
  function Dirty(e: Event, dirty: bool): bool {
    if IsSpawn(e) then true else if e == Depth(0) then false else dirty
  }

  function DirtyAfter(t: seq<Event>, dirty: bool): bool {
    if t == [] then dirty else DirtyAfter(t[1..], Dirty(t[0], dirty))
  }

  /**
   * Reading `t` left to right, no table is resolved and no after job is
   * dispatched between a spawn and the next reading of zero.
   */
  predicate Ordered(t: seq<Event>, dirty: bool) {
    if t == [] then true
    else !(dirty && Opens(t[0])) && Ordered(t[1..], Dirty(t[0], dirty))
  }

  lemma {:induction false} OrderedAppend(a: seq<Event>, b: seq<Event>, dirty: bool)
    ensures Ordered(a + b, dirty) <==> Ordered(a, dirty) && Ordered(b, DirtyAfter(a, dirty))
    ensures DirtyAfter(a + b, dirty) == DirtyAfter(b, DirtyAfter(a, dirty))
  {
    if a == [] {
      assert a + b == b;
    } else {
      assert (a + b)[0] == a[0];
      assert (a + b)[1..] == a[1..] + b;
      OrderedAppend(a[1..], b, Dirty(a[0], dirty));
    }
  }

  /**
   * What Ordered means by position: between a spawn at i and a resolution or
   * after-job dispatch at j there is a reading of zero; and when jobs were
   * outstanding at the start, one comes before any such j.
   */
  lemma {:induction false} OrderedMeans(t: seq<Event>, dirty: bool)
    requires Ordered(t, dirty)
    ensures forall i, j :: 0 <= i < j < |t| && IsSpawn(t[i]) && Opens(t[j]) ==>
      exists k :: i < k < j && t[k] == Depth(0)
    ensures dirty ==> forall j :: 0 <= j < |t| && Opens(t[j]) ==>
      exists k :: 0 <= k < j && t[k] == Depth(0)
  {
    if t != [] {
      var tail := t[1..];
      OrderedMeans(tail, Dirty(t[0], dirty));
      forall i, j | 0 <= i < j < |t| && IsSpawn(t[i]) && Opens(t[j])
        ensures exists k :: i < k < j && t[k] == Depth(0)
      {
        assert tail[j - 1] == t[j];
        if i == 0 {
          var k :| 0 <= k < j - 1 && tail[k] == Depth(0);
          assert t[k + 1] == Depth(0);
        } else {
          assert tail[i - 1] == t[i];
          var k :| i - 1 < k < j - 1 && tail[k] == Depth(0);
          assert t[k + 1] == Depth(0);
        }
      }
      if dirty {
        forall j | 0 <= j < |t| && Opens(t[j])
          ensures exists k :: 0 <= k < j && t[k] == Depth(0)
        {
          if t[0] != Depth(0) {
            assert j != 0;
            assert tail[j - 1] == t[j];
            var k :| 0 <= k < j - 1 && tail[k] == Depth(0);
            assert t[k + 1] == Depth(0);
          }
        }
      }
    }
  }

  lemma {:induction false} ResolvesOrdered(tables: seq<string>)
    ensures Ordered(Resolves(tables), false) && !DirtyAfter(Resolves(tables), false)
  {
    if tables != [] {
      ResolvesOrdered(tables[1..]);
    }
  }

  lemma {:induction false} SpawnEnqueuesOrdered(c: Config, ss: seq<Spawner>, dirty: bool)
    ensures Ordered(SpawnEnqueues(c, ss), dirty)
    ensures DirtyAfter(SpawnEnqueues(c, ss), dirty) == (dirty || ss != [])
  {
    if ss != [] {
      SpawnEnqueuesOrdered(c, ss[1..], true);
    }
  }

  lemma {:induction false} AfterEnqueuesOrdered(c: Config, names: seq<string>)
    ensures Ordered(AfterEnqueues(c, names), false) && !DirtyAfter(AfterEnqueues(c, names), false)
  {
    if names != [] {
      AfterEnqueuesOrdered(c, names[1..]);
    }
  }

  /** Polling starts nothing, and a wait that drains clears whatever was outstanding. */
  lemma {:induction false} PollRunOrdered(c: Config, snaps: seq<Snapshot>, dirty: bool)
    requires Supported(c.queueConnection)
    ensures Ordered(PollRun(c, snaps).events, dirty)
    ensures PollRun(c, snaps).outcome == Drained ==> !DirtyAfter(PollRun(c, snaps).events, dirty)
  {
    if snaps != [] {
      var n := QueueCount(c.queueConnection, c.queueName, snaps[0]).value;
      if n != 0 {
        var r := PollRun(c, snaps[1..]);
        PollRunOrdered(c, snaps[1..], dirty);
        assert ([Depth(n)] + r.events)[0] == Depth(n);
        assert ([Depth(n)] + r.events)[1..] == r.events;
      }
    }
  }

  lemma WaitOrdered(c: Config, snaps: seq<Snapshot>, dirty: bool)
    ensures Ordered(WaitRun(c, snaps).events, dirty)
    ensures WaitRun(c, snaps).outcome == Drained ==> !DirtyAfter(WaitRun(c, snaps).events, dirty)
  {
    if Supported(c.queueConnection) {
      PollRunOrdered(c, snaps, dirty);
    }
  }

  /** A stage is Ordered, and a stage that drains leaves nothing outstanding. */
  lemma GroupOrdered(c: Config, known: set<string>, group: seq<string>, snaps: seq<Snapshot>)
    ensures Ordered(GroupRun(c, known, group, snaps).events, false)
    ensures GroupRun(c, known, group, snaps).outcome == Drained ==>
      !DirtyAfter(GroupRun(c, known, group, snaps).events, false)
  {
    var ss := GroupSpawners(c, known, group);
    ResolvesOrdered(group);
    SpawnEnqueuesOrdered(c, ss, false);
    OrderedAppend(Resolves(group), SpawnEnqueues(c, ss), false);
    var head := Resolves(group) + SpawnEnqueues(c, ss);
    WaitOrdered(c, snaps, DirtyAfter(head, false));
    OrderedAppend(head, WaitRun(c, snaps).events, false);
  }

  /**
   * Every resolution of a stage comes before each of its other events: all
   * its tables are resolved before the first spawner is dispatched, and
   * before the first depth poll.
   */
  lemma GroupResolvesFirst(c: Config, known: set<string>, group: seq<string>, snaps: seq<Snapshot>)
    ensures var e := GroupRun(c, known, group, snaps).events;
      forall i, j :: 0 <= i < |e| && 0 <= j < |e| && e[i].Resolve? && !e[j].Resolve? ==> i < j
  {
    var ss := GroupSpawners(c, known, group);
    var rest := SpawnEnqueues(c, ss) + WaitRun(c, snaps).events;
    ResolvesEvents(group);
    SpawnEnqueuesAreSpawns(c, ss);
    WaitEventsAreDepths(c, snaps);
    assert forall m :: 0 <= m < |rest| ==> !rest[m].Resolve?;
    AppendAssoc(Resolves(group), SpawnEnqueues(c, ss), WaitRun(c, snaps).events);
    var e := Resolves(group) + rest;
    assert e == GroupRun(c, known, group, snaps).events;
    forall i, j | 0 <= i < |e| && 0 <= j < |e| && e[i].Resolve? && !e[j].Resolve?
      ensures i < j
    {
      assert forall m :: |group| <= m < |e| ==> e[m] == rest[m - |group|];
      assert forall m :: 0 <= m < |group| ==> e[m] == Resolve(group[m]);
    }
  }

  lemma {:induction false} GroupsOrdered(c: Config, known: set<string>, groups: seq<seq<string>>, snaps: seq<Snapshot>)
    ensures Ordered(RunGroups(c, known, groups, snaps).events, false)
    ensures RunGroups(c, known, groups, snaps).outcome == Drained ==>
      !DirtyAfter(RunGroups(c, known, groups, snaps).events, false)
    decreases |groups|
  {
    if groups != [] {
      var g := GroupRun(c, known, groups[0], snaps);
      GroupOrdered(c, known, groups[0], snaps);
      if g.outcome == Drained {
        GroupsOrdered(c, known, groups[1..], g.rest);
        OrderedAppend(g.events, RunGroups(c, known, groups[1..], g.rest).events, false);
      }
    }
  }

  /**
   * The dependency order of a full run: no stage is started and no after
   * job dispatched until every spawn before it has been followed by a
   * reading of zero.
   */
  lemma StagesRunInOrder(c: Config, known: set<string>, start: int, snaps: seq<Snapshot>)
    ensures Ordered(AllTablesRun(c, known, start, snaps).events, false)
    ensures var t := AllTablesRun(c, known, start, snaps).events;
      forall i, j :: 0 <= i < j < |t| && IsSpawn(t[i]) && Opens(t[j]) ==>
        exists k :: i < k < j && t[k] == Depth(0)
  {
    var g := RunGroups(c, known, c.groups[StartIndex(c, start)..], snaps);
    GroupsOrdered(c, known, c.groups[StartIndex(c, start)..], snaps);
    if g.outcome == Drained && c.afterJobs != [] {
      var names := KnownAfterJobs(c.afterJobs, known);
      AfterEnqueuesOrdered(c, names);
      WaitOrdered(c, g.rest, false);
      OrderedAppend(AfterEnqueues(c, names), WaitRun(c, g.rest).events, false);
      OrderedAppend(g.events, AfterRun(c, known, g.rest).events, false);
    }
    OrderedMeans(AllTablesRun(c, known, start, snaps).events, false);
  }

  /** Dispatching a stage and starting the next without a zero reading between them breaks the order. */
  lemma NextStageWithoutWaitIsOutOfOrder(c: Config, s: Spawner, table: string)
    ensures !Ordered([Enqueue(Spawn(s), c.queueConnection, c.queueName), Resolve(table)], false)
    ensures !Ordered([Enqueue(Spawn(s), c.queueConnection, c.queueName), Depth(3), Resolve(table)], false)
  {
    assert [Enqueue(Spawn(s), c.queueConnection, c.queueName), Resolve(table)][1..] == [Resolve(table)];
    assert [Enqueue(Spawn(s), c.queueConnection, c.queueName), Depth(3), Resolve(table)][1..] == [Depth(3), Resolve(table)];
    assert [Depth(3), Resolve(table)][1..] == [Resolve(table)];
  }

  // ---------------------------------------------------------------------
  // Skipped stages

  /** Whether an event resolves `table` or dispatches a spawner for it. */
  predicate Touches(e: Event, table: string) {
    match e
    case Resolve(t) => t == table
    case Enqueue(job, _, _) => job.Spawn? && job.spawner.table == table
    case RunSync(spawner) => spawner.table == table
    case Depth(_) => false
  }

  /** No event of `t` resolves `table` or dispatches for it. */
  predicate Untouched(t: seq<Event>, table: string) {
    forall i :: 0 <= i < |t| ==> !Touches(t[i], table)
  }

  lemma UntouchedAppend(a: seq<Event>, b: seq<Event>, table: string)
    requires Untouched(a, table) && Untouched(b, table)
    ensures Untouched(a + b, table)
  {
    forall i | |a| <= i < |a + b| ensures !Touches((a + b)[i], table) {
      assert (a + b)[i] == b[i - |a|];
    }
  }

  lemma {:induction false} ResolvesUntouched(tables: seq<string>, table: string)
    requires table !in tables
    ensures Untouched(Resolves(tables), table)
  {
    if tables != [] {
      ResolvesUntouched(tables[1..], table);
      UntouchedAppend([Resolve(tables[0])], Resolves(tables[1..]), table);
    }
  }

  lemma {:induction false} SpawnEnqueuesUntouched(c: Config, ss: seq<Spawner>, table: string)
    requires forall i :: 0 <= i < |ss| ==> ss[i].table != table
    ensures Untouched(SpawnEnqueues(c, ss), table)
  {
    if ss != [] {
      SpawnEnqueuesUntouched(c, ss[1..], table);
      UntouchedAppend([Enqueue(Spawn(ss[0]), c.queueConnection, c.queueName)], SpawnEnqueues(c, ss[1..]), table);
    }
  }

  lemma {:induction false} AfterEnqueuesUntouched(c: Config, names: seq<string>, table: string)
    ensures Untouched(AfterEnqueues(c, names), table)
  {
    if names != [] {
      AfterEnqueuesUntouched(c, names[1..], table);
      UntouchedAppend([Enqueue(After(names[0]), c.queueConnection, c.queueName)], AfterEnqueues(c, names[1..]), table);
    }
  }

  lemma {:induction false} WaitUntouched(c: Config, snaps: seq<Snapshot>, table: string)
    ensures Untouched(WaitRun(c, snaps).events, table)
  {
    if Supported(c.queueConnection) {
      PollRunReadsUntilZero(c, snaps);
      var d := Depths(c.queueConnection, c.queueName, snaps);
      DepthEventsUntouched(d[..Polls(d)], table);
    }
  }

  lemma {:induction false} DepthEventsUntouched(d: seq<nat>, table: string)
    ensures Untouched(DepthEvents(d), table)
  {
    if d != [] {
      DepthEventsUntouched(d[1..], table);
      UntouchedAppend([Depth(d[0])], DepthEvents(d[1..]), table);
    }
  }

  /** A stage that does not list `table` neither resolves it nor dispatches for it. */
  lemma GroupUntouched(c: Config, known: set<string>, group: seq<string>, snaps: seq<Snapshot>, table: string)
    requires table !in group
    ensures Untouched(GroupRun(c, known, group, snaps).events, table)
  {
    var ss := GroupSpawners(c, known, group);
    GroupSpawnersExactlyResolved(c, known, group);
    assert forall i :: 0 <= i < |ss| ==> ss[i] in ss;
    ResolvesUntouched(group, table);
    SpawnEnqueuesUntouched(c, ss, table);
    WaitUntouched(c, snaps, table);
    UntouchedAppend(Resolves(group), SpawnEnqueues(c, ss), table);
    UntouchedAppend(Resolves(group) + SpawnEnqueues(c, ss), WaitRun(c, snaps).events, table);
  }

  lemma {:induction false} RunGroupsUntouched(c: Config, known: set<string>, groups: seq<seq<string>>, snaps: seq<Snapshot>, table: string)
    requires forall i :: 0 <= i < |groups| ==> table !in groups[i]
    ensures Untouched(RunGroups(c, known, groups, snaps).events, table)
    decreases |groups|
  {
    if groups != [] {
      var g := GroupRun(c, known, groups[0], snaps);
      GroupUntouched(c, known, groups[0], snaps, table);
      if g.outcome == Drained {
        RunGroupsUntouched(c, known, groups[1..], g.rest, table);
        UntouchedAppend(g.events, RunGroups(c, known, groups[1..], g.rest).events, table);
      }
    }
  }

  /**
   * Stages before the start index are skipped: a table listed in none of the
   * stages from the start index on is never resolved, and nothing is
   * dispatched for it.
   */
  lemma SkippedStagesUntouched(c: Config, known: set<string>, start: int, snaps: seq<Snapshot>, table: string)
    requires forall i :: StartIndex(c, start) <= i < |c.groups| ==> table !in c.groups[i]
    ensures Untouched(AllTablesRun(c, known, start, snaps).events, table)
  {
    var s := StartIndex(c, start);
    var g := RunGroups(c, known, c.groups[s..], snaps);
    assert forall i :: 0 <= i < |c.groups[s..]| ==> c.groups[s..][i] == c.groups[s + i];
    RunGroupsUntouched(c, known, c.groups[s..], snaps, table);
    if g.outcome == Drained && c.afterJobs != [] {
      AfterEnqueuesUntouched(c, KnownAfterJobs(c.afterJobs, known), table);
      WaitUntouched(c, g.rest, table);
      UntouchedAppend(AfterEnqueues(c, KnownAfterJobs(c.afterJobs, known)), WaitRun(c, g.rest).events, table);
      UntouchedAppend(g.events, AfterRun(c, known, g.rest).events, table);
    }
  }

  /** Plan [[A, B], [C]] resumed at stage 1: C is resolved first, and A and B are never touched. */
  lemma ResumeAtSecondStage(c: Config, known: set<string>, snaps: seq<Snapshot>)
    requires c.groups == [["A", "B"], ["C"]]
    ensures |AllTablesRun(c, known, 1, snaps).events| > 0
    ensures AllTablesRun(c, known, 1, snaps).events[0] == Resolve("C")
    ensures Untouched(AllTablesRun(c, known, 1, snaps).events, "A")
    ensures Untouched(AllTablesRun(c, known, 1, snaps).events, "B")
  {
    assert c.groups[1..] == [["C"]];
    assert Resolves(["C"]) == [Resolve("C")];
    SkippedStagesUntouched(c, known, 1, snaps, "A");
    SkippedStagesUntouched(c, known, 1, snaps, "B");
  }

  /** Of the after jobs [Gone, Cleanup], only the one whose class exists is enqueued. */
  lemma OnlyKnownAfterJobIsEnqueued(c: Config, known: set<string>)
    requires c.afterJobs == ["Gone", "Cleanup"]
    requires "Gone" !in known && "Cleanup" in known
    ensures KnownAfterJobs(c.afterJobs, known) == ["Cleanup"]
    ensures AfterEnqueues(c, KnownAfterJobs(c.afterJobs, known)) == [Enqueue(After("Cleanup"), c.queueConnection, c.queueName)]
  {
    assert c.afterJobs[1..] == ["Cleanup"] && c.afterJobs[1..][1..] == [];
    assert ["Cleanup"][1..] == [];
  }

  // ---------------------------------------------------------------------
  // Plan order

  /**
   * Every event for table `x` comes before every event for table `y`, with
   * a reading of zero between them: whatever was dispatched for `x` had
   * drained before `y` was first resolved.
   */
  predicate DrainedBetween(t: seq<Event>, x: string, y: string) {
    forall i, j :: 0 <= i < |t| && 0 <= j < |t| && Touches(t[i], x) && Touches(t[j], y) ==>
      exists k :: i < k < j && t[k] == Depth(0)
  }

  /** Events for neither table, appended after the order was established, keep it. */
  lemma DrainedBetweenThenUntouched(a: seq<Event>, b: seq<Event>, x: string, y: string)
    requires DrainedBetween(a, x, y) && Untouched(b, x) && Untouched(b, y)
    ensures DrainedBetween(a + b, x, y)
  {
    var t := a + b;
    forall i, j | 0 <= i < |t| && 0 <= j < |t| && Touches(t[i], x) && Touches(t[j], y)
      ensures exists k :: i < k < j && t[k] == Depth(0)
    {
      assert forall m :: |a| <= m < |t| ==> t[m] == b[m - |a|];
      assert i < |a| && j < |a|;
      assert t[i] == a[i] && t[j] == a[j];
      var k :| i < k < j && a[k] == Depth(0);
      assert t[k] == a[k];
    }
  }

  /** Events for neither table, placed before the order was established, keep it. */
  lemma UntouchedThenDrainedBetween(a: seq<Event>, b: seq<Event>, x: string, y: string)
    requires Untouched(a, x) && Untouched(a, y) && DrainedBetween(b, x, y)
    ensures DrainedBetween(a + b, x, y)
  {
    var t := a + b;
    forall i, j | 0 <= i < |t| && 0 <= j < |t| && Touches(t[i], x) && Touches(t[j], y)
      ensures exists k :: i < k < j && t[k] == Depth(0)
    {
      assert forall m :: |a| <= m < |t| ==> t[m] == b[m - |a|];
      assert |a| <= i && |a| <= j;
      assert t[i] == b[i - |a|] && t[j] == b[j - |a|];
      var k :| i - |a| < k < j - |a| && b[k] == Depth(0);
      assert t[k + |a|] == b[k];
    }
  }

  /**
   * A run that never touches `y`, ends on a reading of zero and is followed
   * by a run that never touches `x` puts `x` before `y`, with that zero
   * between them.
   */
  lemma DrainedThenNext(a: seq<Event>, b: seq<Event>, x: string, y: string)
    requires Untouched(a, y) && Untouched(b, x)
    requires |a| > 0 && a[|a| - 1] == Depth(0)
    ensures DrainedBetween(a + b, x, y)
  {
    var t := a + b;
    forall i, j | 0 <= i < |t| && 0 <= j < |t| && Touches(t[i], x) && Touches(t[j], y)
      ensures exists k :: i < k < j && t[k] == Depth(0)
    {
      assert forall m :: |a| <= m < |t| ==> t[m] == b[m - |a|];
      assert forall m :: 0 <= m < |a| ==> t[m] == a[m];
      assert i < |a| - 1 < j;
      assert t[|a| - 1] == Depth(0);
    }
  }

  /** The poll loop, when it drains, ends on its reading of zero. */
  lemma {:induction false} PollRunEndsOnZero(c: Config, snaps: seq<Snapshot>)
    requires Supported(c.queueConnection)
    ensures var r := PollRun(c, snaps);
      r.outcome == Drained ==> |r.events| > 0 && r.events[|r.events| - 1] == Depth(0)
  {
    if snaps != [] {
      var n := QueueCount(c.queueConnection, c.queueName, snaps[0]).value;
      if n != 0 {
        PollRunEndsOnZero(c, snaps[1..]);
      }
    }
  }

  /** A stage that drains ends on the reading of zero that drained it. */
  lemma GroupEndsOnZero(c: Config, known: set<string>, group: seq<string>, snaps: seq<Snapshot>)
    ensures var g := GroupRun(c, known, group, snaps);
      g.outcome == Drained ==> |g.events| > 0 && g.events[|g.events| - 1] == Depth(0)
  {
    if Supported(c.queueConnection) {
      PollRunEndsOnZero(c, snaps);
    }
  }

  /**
   * The plan order of a run of stages: when table `x` is listed only in
   * stage `a` and table `y` only in the later stage `b`, everything done
   * for `x` precedes everything done for `y`, with a reading of zero
   * between them.
   */
  lemma {:induction false} RunGroupsInPlanOrder(c: Config, known: set<string>, groups: seq<seq<string>>, snaps: seq<Snapshot>,
                                                a: nat, b: nat, x: string, y: string)
    requires a < b < |groups|
    requires forall i :: 0 <= i < |groups| && i != a ==> x !in groups[i]
    requires forall i :: 0 <= i < |groups| && i != b ==> y !in groups[i]
    ensures DrainedBetween(RunGroups(c, known, groups, snaps).events, x, y)
    decreases |groups|
  {
    var g := GroupRun(c, known, groups[0], snaps);
    var tail := groups[1..];
    assert forall i :: 0 <= i < |tail| ==> tail[i] == groups[i + 1];
    GroupUntouched(c, known, groups[0], snaps, y);
    if a > 0 {
      GroupUntouched(c, known, groups[0], snaps, x);
      if g.outcome == Drained {
        RunGroupsInPlanOrder(c, known, tail, g.rest, a - 1, b - 1, x, y);
        UntouchedThenDrainedBetween(g.events, RunGroups(c, known, tail, g.rest).events, x, y);
      }
    } else if g.outcome == Drained {
      RunGroupsUntouched(c, known, tail, g.rest, x);
      GroupEndsOnZero(c, known, groups[0], snaps);
      DrainedThenNext(g.events, RunGroups(c, known, tail, g.rest).events, x, y);
    }
  }

  /**
   * The dependency order of a full run, in terms of the plan: take two
   * stages that run (from the start index on), the first listing `x` and the
   * second `y`, neither table listed in any other running stage. Then every
   * resolution and dispatch for `x` comes before every one for `y`, and a
   * reading of zero comes between them: stage b is started only after stage
   * a has drained.
   */
  lemma StagesRunInPlanOrder(c: Config, known: set<string>, start: int, snaps: seq<Snapshot>,
                             a: nat, b: nat, x: string, y: string)
    requires StartIndex(c, start) <= a < b < |c.groups|
    requires forall i :: StartIndex(c, start) <= i < |c.groups| && i != a ==> x !in c.groups[i]
    requires forall i :: StartIndex(c, start) <= i < |c.groups| && i != b ==> y !in c.groups[i]
    ensures DrainedBetween(AllTablesRun(c, known, start, snaps).events, x, y)
  {
    var s := StartIndex(c, start);
    var groups := c.groups[s..];
    assert forall i :: 0 <= i < |groups| ==> groups[i] == c.groups[s + i];
    RunGroupsInPlanOrder(c, known, groups, snaps, a - s, b - s, x, y);
    var g := RunGroups(c, known, groups, snaps);
    if g.outcome == Drained && c.afterJobs != [] {
      var names := KnownAfterJobs(c.afterJobs, known);
      var w := WaitRun(c, g.rest).events;
      AfterEnqueuesUntouched(c, names, x);
      AfterEnqueuesUntouched(c, names, y);
      WaitUntouched(c, g.rest, x);
      WaitUntouched(c, g.rest, y);
      UntouchedAppend(AfterEnqueues(c, names), w, x);
      UntouchedAppend(AfterEnqueues(c, names), w, y);
      DrainedBetweenThenUntouched(g.events, AfterRun(c, known, g.rest).events, x, y);
    }
  }

  /**
   * Resolving a later stage's table before the earlier stage's wait breaks
   * the plan order, whatever is dispatched and read afterwards.
   */
  lemma ResolvingAheadIsOutOfOrder(x: string, y: string, rest: seq<Event>)
    ensures !DrainedBetween([Resolve(x), Resolve(y)] + rest, x, y)
  {
    var t := [Resolve(x), Resolve(y)] + rest;
    assert Touches(t[0], x) && Touches(t[1], y);
  }
}
