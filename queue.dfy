/**
 * The queue side of the `migration:run` command: how one depth reading is
 * taken from the configured backend, and what the polling monitor makes of a
 * run of readings.
 */
module Queue {
  import opened Wrappers

  /**
   * What one poll can see of the broker: the row count of the `jobs` table
   * (database backend) and the sizes of the Redis keys (absent keys are empty).
   */
  datatype Snapshot = Snapshot(jobsTableRows: nat, redisSizes: map<string, nat>)

  /** The backends the depth query knows about. */
  predicate Supported(backend: string) {
    backend == "database" || backend == "redis"
  }

  /** LLEN / ZCARD of a key: 0 when the key does not exist. */
  function RedisSize(s: Snapshot, key: string): nat {
    if key in s.redisSizes then s.redisSizes[key] else 0
  }

  function PendingKey(queueName: string): string { "queues:" + queueName }

  function ReservedKey(queueName: string): string { "queues:" + queueName + ":reserved" }

  /**
   * One depth reading: the whole `jobs` table for the database backend, the
   * pending list plus the reserved set of the named queue for Redis, and an
   * error (None) for any other backend.
   */
  function QueueCount(backend: string, queueName: string, s: Snapshot): (r: Option<nat>)
    ensures r.Some? <==> Supported(backend)
    ensures backend == "database" ==> r == Some(s.jobsTableRows)
    ensures backend == "redis" ==>
      r == Some(RedisSize(s, PendingKey(queueName)) + RedisSize(s, ReservedKey(queueName)))
  {
    match backend
    case "database" => Some(s.jobsTableRows)
    case "redis" => Some(RedisSize(s, PendingKey(queueName)) + RedisSize(s, ReservedKey(queueName)))
    case _ => None
  }

  /** The Redis reading looks at two keys only: delayed jobs, for one, are never counted. */
  lemma RedisCountSeesOnlyPendingAndReserved(queueName: string, s: Snapshot, key: string, size: nat)
    requires key != PendingKey(queueName) && key != ReservedKey(queueName)
    ensures QueueCount("redis", queueName, Snapshot(s.jobsTableRows, s.redisSizes[key := size]))
         == QueueCount("redis", queueName, s)
  {
  }

  /** The readings a run of snapshots gives on a supported backend. */
  function Depths(backend: string, queueName: string, snaps: seq<Snapshot>): (d: seq<nat>)
    requires Supported(backend)
    ensures |d| == |snaps|
    ensures forall i :: 0 <= i < |d| ==> Some(d[i]) == QueueCount(backend, queueName, snaps[i])
  {
    if snaps == [] then []
    else [QueueCount(backend, queueName, snaps[0]).value] + Depths(backend, queueName, snaps[1..])
  }

  /** The position of the first zero reading, or |d| when there is none. */
  function FirstZero(d: seq<nat>): (k: nat)
    ensures k <= |d|
    ensures k < |d| ==> d[k] == 0
    ensures forall j :: 0 <= j < k ==> d[j] != 0
  {
    if d == [] then 0
    else if d[0] == 0 then 0
    else 1 + FirstZero(d[1..])
  }

  /**
   * How many readings the monitor takes from `d`: up to and including the
   * first zero, or all of them when none is zero.
   */
  function Polls(d: seq<nat>): (n: nat)
    ensures n <= |d|
    ensures forall j :: 0 <= j < n - 1 ==> d[j] != 0
    ensures 0 in d ==> 0 < n && d[n - 1] == 0
    ensures 0 !in d ==> n == |d|
  {
    if FirstZero(d) < |d| then FirstZero(d) + 1 else |d|
  }

  /** A non-zero reading in front adds one poll and changes nothing else. */
  lemma PollsCons(n: nat, tail: seq<nat>)
    requires n != 0
    ensures Polls([n] + tail) == 1 + Polls(tail)
    ensures ([n] + tail)[..Polls([n] + tail)] == [n] + tail[..Polls(tail)]
    ensures 0 in [n] + tail <==> 0 in tail
  {
    assert ([n] + tail)[1..] == tail;
  }

  /**
   * How far the monitor advances the progress bar on readings `d` when the
   * reading before them was `last`: by `last - x` on each reading `x` lower
   * than the one before, stopping at the first zero, which is not advanced.
   */
  function Advanced(d: seq<nat>, last: nat): nat {
    if d == [] || d[0] == 0 then 0
    else (if d[0] < last then last - d[0] else 0) + Advanced(d[1..], d[0])
  }

  /** Readings after the first zero are never taken, so they never count. */
  lemma {:induction false} AdvancedStopsAtFirstZero(d: seq<nat>, last: nat)
    ensures Advanced(d, last) == Advanced(d[..FirstZero(d)], last)
  {
    if d != [] && d[0] != 0 {
      AdvancedStopsAtFirstZero(d[1..], d[0]);
      assert d[..FirstZero(d)][1..] == d[1..][..FirstZero(d[1..])];
    }
  }

  /** With the previous reading at 0 (as at the start), the first reading never advances. */
  lemma FirstReadingNeverAdvances(d: seq<nat>)
    requires d != [] && d[0] != 0
    ensures Advanced(d, 0) == Advanced(d[1..], d[0])
  {
  }

  /** Readings that never fall (before the first zero) never advance the bar. */
  lemma {:induction false} NoDropNoAdvance(d: seq<nat>, last: nat)
    requires 0 < FirstZero(d) ==> last <= d[0]
    requires forall i, j :: 0 <= i <= j < FirstZero(d) ==> d[i] <= d[j]
    ensures Advanced(d, last) == 0
  {
    if d != [] && d[0] != 0 {
      assert FirstZero(d[1..]) == FirstZero(d) - 1;
      NoDropNoAdvance(d[1..], d[0]);
    }
  }

  /** The readings up to the first zero fall or stay level. */
  ghost predicate Draining(d: seq<nat>) {
    forall i, j :: 0 <= i <= j < FirstZero(d) ==> d[j] <= d[i]
  }

  /**
   * On a queue that only drains, the bar ends at the first reading minus the
   * last non-zero reading: neither the drop from the job total to the first
   * reading nor the final drop to zero is advanced.
   */
  lemma {:induction false} AdvancedTelescopes(d: seq<nat>, last: nat)
    requires Draining(d) && 0 < FirstZero(d)
    requires d[0] <= last
    ensures Advanced(d, last) == last - d[FirstZero(d) - 1]
  {
    if FirstZero(d) == 1 {
      assert d[1..] == [] || d[1..][0] == 0;
    } else {
      assert FirstZero(d[1..]) == FirstZero(d) - 1;
      AdvancedTelescopes(d[1..], d[0]);
    }
  }

  /** From the start of a wait, on a draining queue, the bar reaches d[0] - d[k-1] < d[0]. */
  lemma WaitOnDrainingQueue(d: seq<nat>)
    requires Draining(d) && 0 < FirstZero(d)
    ensures Advanced(d, 0) == d[0] - d[FirstZero(d) - 1]
    ensures Advanced(d, 0) < d[0]
  {
    if FirstZero(d) == 1 {
      assert d[1..] == [] || d[1..][0] == 0;
    } else {
      assert FirstZero(d[1..]) == FirstZero(d) - 1;
      AdvancedTelescopes(d[1..], d[0]);
    }
  }

  /** Readings 3, 3, 2, 1, 0: five polls, and the bar advances by 1 twice. */
  lemma ThreeJobScenario()
    ensures FirstZero([3, 3, 2, 1, 0]) == 4 && Polls([3, 3, 2, 1, 0]) == 5
    ensures Advanced([3, 3, 2, 1, 0], 0) == 2
  {
    assert [3, 3, 2, 1, 0][1..] == [3, 2, 1, 0];
    assert [3, 2, 1, 0][1..] == [2, 1, 0];
    assert [2, 1, 0][1..] == [1, 0];
    assert [1, 0][1..] == [0];
  }

  /** A queue whose depth rises again (shared with other work) can push the bar past its total. */
  lemma BouncingQueueOvershoots()
    ensures Advanced([5, 1, 5, 1, 0], 0) == 8
  {
    assert [5, 1, 5, 1, 0][1..] == [1, 5, 1, 0];
    assert [1, 5, 1, 0][1..] == [5, 1, 0];
    assert [5, 1, 0][1..] == [1, 0];
    assert [1, 0][1..] == [0];
  }
}
