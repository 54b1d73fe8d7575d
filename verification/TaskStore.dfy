/** The A2A task store of src/aether_forge/a2a_server.py: a per-client sliding window and a bounded
    queue. The HTTP server handles one request at a time. */
module TaskStore {
  const WINDOW: real := 60.0
  const MAX_TASKS_PER_MINUTE: nat := 60
  const MAX_TASKS: nat := 1000
  const RETENTION: real := 3600.0

  type Stamps = map<string, seq<real>>

  function Of(m: Stamps, client: string): seq<real> {
    if client in m then m[client] else []
  }

  /** The time stamps after `cutoff`. */
  function Recent(ts: seq<real>, cutoff: real): seq<real> {
    if ts == [] then []
    else (if ts[0] > cutoff then [ts[0]] else []) + Recent(ts[1..], cutoff)
  }

  // ----- the limiter of the source, and the one that forgets nothing -----

  /** `_check_rate_limit`: it prunes the client's list, but only when it accepts. */
  function Check(counts: Stamps, client: string, now: real): (Stamps, bool) {
    if client == "" then (counts, true)
    else
      var recent := Recent(Of(counts, client), now - WINDOW);
      if |recent| >= MAX_TASKS_PER_MINUTE then (counts, false)
      else (counts[client := recent + [now]], true)
  }

  /** The reference: count the whole acceptance history in the last 60 seconds. */
  function CheckFull(log: Stamps, client: string, now: real): (Stamps, bool) {
    if client == "" then (log, true)
    else if |Recent(Of(log, client), now - WINDOW)| >= MAX_TASKS_PER_MINUTE then (log, false)
    else (log[client := Of(log, client) + [now]], true)
  }

  datatype Request = Request(client: string, now: real)

  function Counts(requests: seq<Request>): Stamps {
    if requests == [] then map[]
    else
      var r := requests[|requests| - 1];
      Check(Counts(requests[..|requests| - 1]), r.client, r.now).0
  }

  /** The full acceptance history of the reference limiter. */
  function Log(requests: seq<Request>): Stamps {
    if requests == [] then map[]
    else
      var r := requests[|requests| - 1];
      CheckFull(Log(requests[..|requests| - 1]), r.client, r.now).0
  }

  ghost predicate Clocked(requests: seq<Request>) {
    forall i, j :: 0 <= i < j < |requests| ==> requests[i].now <= requests[j].now
  }

  lemma {:induction false} RecentConcat(a: seq<real>, b: seq<real>, cutoff: real)
    ensures Recent(a + b, cutoff) == Recent(a, cutoff) + Recent(b, cutoff)
  {
    if a == [] {
      assert a + b == b;
    } else {
      assert (a + b)[1..] == a[1..] + b;
      RecentConcat(a[1..], b, cutoff);
    }
  }

  lemma {:induction false} RecentTwice(ts: seq<real>, early: real, late: real)
    requires early <= late
    ensures Recent(Recent(ts, early), late) == Recent(ts, late)
  {
    if ts != [] {
      RecentTwice(ts[1..], early, late);
      var rest := Recent(ts[1..], early);
      if ts[0] > early {
        assert Recent(ts, early) == [ts[0]] + rest;
        assert ([ts[0]] + rest)[1..] == rest;
      } else {
        assert Recent(ts, early) == rest;
        assert Recent(ts, late) == Recent(ts[1..], late);
      }
    }
  }

  /** The pruned lists agree with the full history from a given cutoff on. */
  ghost predicate Agrees(counts: Stamps, log: Stamps, cutoff: real) {
    forall client, late :: late >= cutoff ==>
      Recent(Of(counts, client), late) == Recent(Of(log, client), late)
  }

  lemma CheckAgrees(counts: Stamps, log: Stamps, client: string, now: real)
    requires Agrees(counts, log, now - WINDOW)
    ensures Check(counts, client, now).1 == CheckFull(log, client, now).1
    ensures Agrees(Check(counts, client, now).0, CheckFull(log, client, now).0, now - WINDOW)
  {
    if client != "" && Check(counts, client, now).1 {
      var recent := Recent(Of(counts, client), now - WINDOW);
      var counts', log' := Check(counts, client, now).0, CheckFull(log, client, now).0;
      forall c, late | late >= now - WINDOW
        ensures Recent(Of(counts', c), late) == Recent(Of(log', c), late)
      {
        assert Recent(Of(counts, c), late) == Recent(Of(log, c), late);
        if c == client {
          assert Of(counts', c) == recent + [now] && Of(log', c) == Of(log, c) + [now];
          RecentConcat(recent, [now], late);
          RecentConcat(Of(log, c), [now], late);
          RecentTwice(Of(counts, c), now - WINDOW, late);
        } else {
          assert Of(counts', c) == Of(counts, c) && Of(log', c) == Of(log, c);
        }
      }
    }
  }

  lemma {:induction false} RunAgrees(requests: seq<Request>)
    requires Clocked(requests) && requests != []
    ensures Agrees(Counts(requests), Log(requests), requests[|requests| - 1].now - WINDOW)
  {
    var before := requests[..|requests| - 1];
    var r := requests[|requests| - 1];
    if before != [] {
      RunAgrees(before);
      assert before[|before| - 1].now <= r.now;
    }
    CheckAgrees(Counts(before), Log(before), r.client, r.now);
  }

  /** Exactness: after any run of requests on a clock that does not go back, the pruned limiter decides
      the next request as the full history does. */
  lemma PrunedDecidesAsFull(requests: seq<Request>, next: Request)
    requires Clocked(requests + [next])
    ensures Check(Counts(requests), next.client, next.now).1 == CheckFull(Log(requests), next.client, next.now).1
    ensures Check(Counts(requests), next.client, next.now).1 <==>
      next.client == "" || |Recent(Of(Log(requests), next.client), next.now - 60.0)| < 60
  {
    var all := requests + [next];
    if requests != [] {
      assert forall i :: 0 <= i < |requests| ==> requests[i] == all[i];
      assert all[|requests|] == next;
      RunAgrees(requests);
      assert requests[|requests| - 1].now <= next.now;
    }
    CheckAgrees(Counts(requests), Log(requests), next.client, next.now);
  }

  // ----- the bound -----

  ghost predicate Sorted(ts: seq<real>) {
    forall i, j :: 0 <= i < j < |ts| ==> ts[i] <= ts[j]
  }

  /** Any 61 consecutive acceptances span at least a full window. */
  ghost predicate Spaced(ts: seq<real>) {
    forall i, j :: 0 <= i && j == i + MAX_TASKS_PER_MINUTE && j < |ts| ==> ts[i] <= ts[j] - WINDOW
  }

  /** On a sorted list the recent stamps are a suffix. */
  lemma {:induction false} RecentIsSuffix(ts: seq<real>, cutoff: real)
    requires Sorted(ts)
    ensures |Recent(ts, cutoff)| <= |ts|
    ensures forall i :: 0 <= i < |ts| ==> (ts[i] > cutoff <==> i >= |ts| - |Recent(ts, cutoff)|)
  {
    if ts != [] {
      RecentIsSuffix(ts[1..], cutoff);
      assert forall i :: 1 <= i < |ts| ==> ts[i] == ts[1..][i - 1];
      if ts[0] > cutoff && |ts| > 1 {
        assert ts[1..][0] > cutoff;
      }
    }
  }

  /** An accepted stamp keeps a spaced history spaced. */
  lemma AppendSpaced(ts: seq<real>, now: real)
    requires Sorted(ts) && Spaced(ts) && forall t :: t in ts ==> t <= now
    requires |Recent(ts, now - WINDOW)| < MAX_TASKS_PER_MINUTE
    ensures Sorted(ts + [now]) && Spaced(ts + [now]) && forall t :: t in ts + [now] ==> t <= now
  {
    RecentIsSuffix(ts, now - WINDOW);
    forall i | 0 <= i < |ts| ensures ts[i] <= now {
      assert ts[i] in ts;
    }
  }

  lemma {:induction false} HistoryIsSpaced(requests: seq<Request>, client: string)
    requires Clocked(requests) && client != ""
    ensures Sorted(Of(Log(requests), client)) && Spaced(Of(Log(requests), client))
    ensures forall t :: t in Of(Log(requests), client) ==> requests != [] && t <= requests[|requests| - 1].now
  {
    if requests != [] {
      var n := |requests| - 1;
      var before, r := requests[..n], requests[n];
      HistoryIsSpaced(before, client);
      var ts := Of(Log(before), client);
      assert before != [] ==> before[n - 1].now <= r.now;
      var ts' := Of(Log(requests), client);
      if r.client == client && CheckFull(Log(before), client, r.now).1 {
        assert ts' == ts + [r.now];
        AppendSpaced(ts, r.now);
      } else {
        assert ts' == ts;
      }
    }
  }

  /** The stamps in the half-open window `(end - 60, end]`. */
  function InWindow(ts: seq<real>, end: real): nat {
    if ts == [] then 0
    else InWindow(ts[..|ts| - 1], end) + if end - WINDOW < ts[|ts| - 1] <= end then 1 else 0
  }

  /** It is the number of acceptances in the minute up to `end`. */
  lemma {:induction false} InWindowCounts(ts: seq<real>, end: real)
    ensures InWindow(ts, end) == |set i: nat | i < |ts| && end - 60.0 < ts[i] <= end|
  {
    var counted := set i: nat | i < |ts| && end - 60.0 < ts[i] <= end;
    if ts != [] {
      var n := |ts| - 1;
      InWindowCounts(ts[..n], end);
      var earlier := set i: nat | i < |ts[..n]| && end - 60.0 < ts[..n][i] <= end;
      assert earlier == set i: nat | i < n && end - 60.0 < ts[i] <= end;
      assert counted == earlier + if end - 60.0 < ts[n] <= end then {n} else {};
      assert n !in earlier;
    } else {
      assert counted == {};
    }
  }

  lemma {:induction false} SpacedBound(ts: seq<real>, end: real)
    requires Sorted(ts) && Spaced(ts)
    ensures InWindow(ts, end) <= MAX_TASKS_PER_MINUTE
  {
    if ts != [] {
      var n := |ts| - 1;
      SpacedBound(ts[..n], end);
      assert n >= MAX_TASKS_PER_MINUTE ==> ts[n - MAX_TASKS_PER_MINUTE] <= ts[n] - WINDOW;
      if end - WINDOW < ts[n] <= end && InWindow(ts[..n], end) == MAX_TASKS_PER_MINUTE {
        SixtyMeansSpan(ts[..n], end);
      }
    }
  }

  lemma {:induction false} AllBelow(ts: seq<real>, end: real)
    requires forall t :: t in ts ==> t <= end - WINDOW
    ensures InWindow(ts, end) == 0
  {
    if ts != [] {
      var n := |ts| - 1;
      assert ts[n] in ts;
      assert forall t :: t in ts[..n] ==> t in ts;
      AllBelow(ts[..n], end);
    }
  }

  /** In a sorted list that ends inside the window, the stamps of the window are the last ones. */
  lemma {:induction false} SixtyMeansSpan(ts: seq<real>, end: real)
    requires Sorted(ts) && InWindow(ts, end) > 0 && ts[|ts| - 1] <= end
    ensures InWindow(ts, end) <= |ts|
    ensures ts[|ts| - InWindow(ts, end)] > end - WINDOW
  {
    var n := |ts| - 1;
    forall t | t in ts[..n] ensures t <= ts[n] {
    }
    if ts[n] <= end - WINDOW {
      AllBelow(ts[..n], end);
    } else if InWindow(ts[..n], end) > 0 {
      SixtyMeansSpan(ts[..n], end);
    }
  }

  /** No half-open window of 60 seconds, wherever it ends, holds more than 60 acceptances of a client. */
  lemma AtMostSixtyPerWindow(requests: seq<Request>, client: string, end: real)
    requires Clocked(requests) && client != ""
    ensures InWindow(Of(Log(requests), client), end) <= 60
  {
    HistoryIsSpaced(requests, client);
    SpacedBound(Of(Log(requests), client), end);
  }

  // ----- the bounded queue -----

  datatype Task = Task(state: string, stamp: real)

  const TERMINAL: set<string> := {"completed", "failed", "canceled", "rejected"}

  predicate Stale(t: Task, now: real) {
    t.state in TERMINAL && t.stamp < now - RETENTION
  }

  /** `_cleanup_old_tasks`. */
  function Cleanup(tasks: map<string, Task>, now: real): map<string, Task> {
    map id | id in tasks && !Stale(tasks[id], now) :: tasks[id]
  }

  /** `update_task`, as far as the status is concerned. */
  function Update(tasks: map<string, Task>, id: string, state: string, now: real): map<string, Task> {
    if id in tasks then tasks[id := Task(state, now)] else tasks
  }

  datatype Store = Store(counts: Stamps, tasks: map<string, Task>)

  /** What a client may ask for; `outcome` is the state a handler ends in. */
  datatype Op =
    | Send(client: string, now: real, id: string, outcome: string)
    | Cancel(id: string, now: real)
    | Query

  datatype Reply = RateLimited | QueueFull | Accepted | Done

  /** `_handle_send_message`, `_handle_cancel_task` and the read-only handlers. */
  function Handle(s: Store, op: Op): (Store, Reply) {
    match op
    case Send(client, now, id, outcome) =>
      var (counts, ok) := Check(s.counts, client, now);
      if !ok then (s.(counts := counts), RateLimited)
      else if |s.tasks| >= MAX_TASKS then (s.(counts := counts), QueueFull)
      else
        var created := Cleanup(s.tasks, now)[id := Task("submitted", now)];
        (Store(counts, Update(Update(created, id, "working", now), id, outcome, now)), Accepted)
    case Cancel(id, now) => (s.(tasks := Update(s.tasks, id, "canceled", now)), Done)
    case Query => (s, Done)
  }

  function After(s: Store, ops: seq<Op>): Store {
    if ops == [] then s else Handle(After(s, ops[..|ops| - 1]), ops[|ops| - 1]).0
  }

  lemma CleanupShrinks(tasks: map<string, Task>, now: real)
    ensures |Cleanup(tasks, now)| <= |tasks|
  {
    var kept := Cleanup(tasks, now);
    assert kept.Keys <= tasks.Keys;
    SubsetSize(kept.Keys, tasks.Keys);
  }

  lemma {:induction false} SubsetSize(a: set<string>, b: set<string>)
    requires a <= b
    ensures |a| <= |b|
  {
    assert b == a + (b - a);
  }

  lemma UpdateKeepsSize(tasks: map<string, Task>, id: string, state: string, now: real)
    ensures Update(tasks, id, state, now).Keys == tasks.Keys
    ensures |Update(tasks, id, state, now)| == |tasks|
  {
    var after := Update(tasks, id, state, now);
    assert after.Keys == tasks.Keys;
    assert |after| == |after.Keys| && |tasks| == |tasks.Keys|;
  }

  lemma HandleBounded(s: Store, op: Op)
    requires |s.tasks| <= MAX_TASKS
    ensures |Handle(s, op).0.tasks| <= MAX_TASKS
  {
    match op
    case Send(client, now, id, outcome) =>
      if Handle(s, op).1 == Accepted {
        var kept := Cleanup(s.tasks, now);
        var created := kept[id := Task("submitted", now)];
        CleanupShrinks(s.tasks, now);
        assert created.Keys == kept.Keys + {id};
        assert |created.Keys| <= |kept.Keys| + 1;
        UpdateKeepsSize(created, id, "working", now);
        UpdateKeepsSize(Update(created, id, "working", now), id, outcome, now);
      }
    case Cancel(id, now) => UpdateKeepsSize(s.tasks, id, "canceled", now);
    case Query =>
  }

  /** The queue never holds more than 1000 tasks. */
  lemma {:induction false} QueueBounded(ops: seq<Op>)
    ensures |After(Store(map[], map[]), ops).tasks| <= 1000
  {
    if ops != [] {
      QueueBounded(ops[..|ops| - 1]);
      HandleBounded(After(Store(map[], map[]), ops[..|ops| - 1]), ops[|ops| - 1]);
    }
  }

  predicate Ended(state: string) {
    state in {"completed", "failed", "canceled", "rejected"}
  }

  /** A message is answered by the first of: the rate limit, a full queue, acceptance. */
  lemma SendOutcome(s: Store, client: string, now: real, id: string, outcome: string)
    ensures var (t, reply) := Handle(s, Send(client, now, id, outcome));
      var limited := client != "" && |Recent(Of(s.counts, client), now - 60.0)| >= 60;
      && (reply == RateLimited <==> limited)
      && (reply == QueueFull <==> !limited && |s.tasks| >= 1000)
      && (reply == Accepted <==> !limited && |s.tasks| < 1000)
      && (reply != Accepted ==> t.tasks == s.tasks)
      && Of(t.counts, client) == (if client == "" || limited then Of(s.counts, client)
                                  else Recent(Of(s.counts, client), now - 60.0) + [now])
      && (forall other :: other != client ==> Of(t.counts, other) == Of(s.counts, other))
  {
  }

  /** An accepted message purges exactly the terminal tasks older than an hour and leaves the others
      as they were. */
  lemma SendPurgesExactly(s: Store, client: string, now: real, id: string, outcome: string)
    requires Handle(s, Send(client, now, id, outcome)).1 == Accepted
    ensures var tasks := Handle(s, Send(client, now, id, outcome)).0.tasks;
      && id in tasks && tasks[id] == Task(outcome, now)
      && (forall other :: other != id ==>
            (other in tasks <==> other in s.tasks && !(Ended(s.tasks[other].state) && s.tasks[other].stamp < now - 3600.0)))
      && (forall other :: other != id && other in tasks ==> tasks[other] == s.tasks[other])
  {
  }

  /** A full queue stays full: the purge sits behind the fullness check, so once 1000 tasks are stored
      no later message is accepted, however old the stored tasks are. */
  lemma {:induction false} FullForever(s: Store, ops: seq<Op>, next: Op)
    requires |s.tasks| >= MAX_TASKS
    ensures After(s, ops).tasks.Keys == s.tasks.Keys
    ensures Handle(After(s, ops), next).1 != Accepted
  {
    if ops != [] {
      var op := ops[|ops| - 1];
      var t := After(s, ops[..|ops| - 1]);
      FullForever(s, ops[..|ops| - 1], op);
      if op.Cancel? {
        UpdateKeepsSize(t.tasks, op.id, "canceled", op.now);
      }
    }
    var t := After(s, ops);
    assert |t.tasks| == |t.tasks.Keys| && |s.tasks| == |s.tasks.Keys|;
  }

  /** After the operations, a message of the client's is accepted. */
  ghost predicate AcceptedAfter(s: Store, ops: seq<Op>, client: string, now: real, id: string, outcome: string) {
    Handle(After(s, ops), Send(client, now, id, outcome)).1 == Accepted
  }

  /** A time after every stamp's minute. */
  function Later(ts: seq<real>): real {
    if ts == [] then 0.0
    else
      var rest := Later(ts[1..]);
      if ts[0] + WINDOW > rest then ts[0] + WINDOW else rest
  }

  lemma {:induction false} NothingRecent(ts: seq<real>, now: real)
    requires now >= Later(ts)
    ensures Recent(ts, now - WINDOW) == []
  {
    if ts != [] {
      NothingRecent(ts[1..], now);
    }
  }

  /** Exactly when a client can ever be served again, whatever happens in between: when the store is not full
      now. A full one stays full, and below the limit every client is served once its minute has passed. */
  lemma ServedAgainIff(s: Store, client: string)
    ensures (exists ops, now, id, outcome :: AcceptedAfter(s, ops, client, now, id, outcome)) <==> |s.tasks| < MAX_TASKS
  {
    if |s.tasks| < MAX_TASKS {
      var now := Later(Of(s.counts, client));
      NothingRecent(Of(s.counts, client), now);
      assert After(s, []) == s;
      assert AcceptedAfter(s, [], client, now, "task", "completed");
    } else {
      forall ops, now, id, outcome ensures !AcceptedAfter(s, ops, client, now, id, outcome) {
        FullForever(s, ops, Send(client, now, id, outcome));
      }
    }
  }

  /** A cancellation marks a stored task and restamps it, and touches nothing else; it is never refused, and no more
      is a query, which changes nothing. */
  lemma CancelEffect(s: Store, id: string, now: real)
    ensures Handle(s, Query) == (s, Done)
    ensures var (t, reply) := Handle(s, Cancel(id, now));
      && reply == Done && t.counts == s.counts && t.tasks.Keys == s.tasks.Keys
      && (id in s.tasks ==> t.tasks[id] == Task("canceled", now))
      && forall other :: other in s.tasks && other != id ==> t.tasks[other] == s.tasks[other]
  {
  }

  // ----- a store does fill up -----

  function Unary(i: nat): string {
    seq(i, _ => 'i')
  }

  /** The first `n` messages of a thousand clients that send one each, at the same moment, with one outcome. */
  function OneEach(n: nat, outcome: string): seq<Op> {
    seq(n, i requires 0 <= i < n => Send(Unary(i + 1), 0.0, Unary(i + 1), outcome))
  }

  /** `n` tasks in one state, stamped at time 0, and acceptances, all under names of at most `n` characters. */
  ghost predicate Filled(s: Store, n: nat, outcome: string) {
    && |s.tasks| == n
    && (forall id :: id in s.tasks ==> |id| <= n && s.tasks[id] == Task(outcome, 0.0))
    && (forall client :: client in s.counts ==> |client| <= n)
  }

  lemma FirstIsAccepted(counts: Stamps, client: string)
    requires client !in counts && client != ""
    ensures Check(counts, client, 0.0) == (counts[client := [0.0]], true)
  {
    assert Recent([], 0.0 - WINDOW) == [];
    assert [] + [0.0] == [0.0];
  }

  lemma NothingStale(tasks: map<string, Task>)
    requires forall id :: id in tasks ==> tasks[id].stamp == 0.0
    ensures Cleanup(tasks, 0.0) == tasks
  {
  }

  lemma UpdatedTwice(tasks: map<string, Task>, id: string, first: string, second: string, third: string)
    ensures Update(Update(tasks[id := Task(first, 0.0)], id, second, 0.0), id, third, 0.0) == tasks[id := Task(third, 0.0)]
  {
  }

  lemma OneMoreKey(tasks: map<string, Task>, id: string, t: Task)
    requires id !in tasks
    ensures |tasks[id := t]| == |tasks| + 1
  {
    assert tasks[id := t].Keys == tasks.Keys + {id};
    assert |tasks[id := t].Keys| == |tasks.Keys| + 1;
  }

  lemma SendFills(s: Store, name: string, m: nat, outcome: string)
    requires m < MAX_TASKS && Filled(s, m, outcome) && |name| == m + 1
    ensures Handle(s, Send(name, 0.0, name, outcome)).1 == Accepted
    ensures Filled(Handle(s, Send(name, 0.0, name, outcome)).0, m + 1, outcome)
  {
    FirstIsAccepted(s.counts, name);
    NothingStale(s.tasks);
    UpdatedTwice(s.tasks, name, "submitted", "working", outcome);
    OneMoreKey(s.tasks, name, Task(outcome, 0.0));
  }

  lemma AfterOneMore(s: Store, ops: seq<Op>, op: Op)
    ensures After(s, ops + [op]) == Handle(After(s, ops), op).0
  {
    assert (ops + [op])[..|ops|] == ops;
  }

  lemma OneEachGrows(n: nat, outcome: string)
    ensures OneEach(n + 1, outcome) == OneEach(n, outcome) + [Send(Unary(n + 1), 0.0, Unary(n + 1), outcome)]
  {
  }

  lemma {:induction false} OneEachFills(start: Store, n: nat, outcome: string)
    requires n <= MAX_TASKS && Filled(start, 0, outcome)
    ensures Filled(After(start, OneEach(n, outcome)), n, outcome)
  {
    if n == 0 {
      assert OneEach(0, outcome) == [];
    } else {
      var before := OneEach(n - 1, outcome);
      var name := Unary(n);
      OneEachFills(start, n - 1, outcome);
      OneEachGrows(n - 1, outcome);
      AfterOneMore(start, before, Send(name, 0.0, name, outcome));
      SendFills(After(start, before), name, n - 1, outcome);
    }
  }

  /** From the empty store, a thousand served messages fill it, and no later message is accepted: not even
      when every stored task is terminal and past its retention. */
  lemma FullStoreIsReached(later: seq<Op>, next: Op, outcome: string, now: real)
    requires outcome in TERMINAL && now > RETENTION
    ensures var s := After(Store(map[], map[]), OneEach(MAX_TASKS, outcome));
      && |s.tasks| == MAX_TASKS
      && (forall id :: id in s.tasks ==> Stale(s.tasks[id], now))
      && Handle(After(s, later), next).1 != Accepted
  {
    OneEachFills(Store(map[], map[]), MAX_TASKS, outcome);
    FullForever(After(Store(map[], map[]), OneEach(MAX_TASKS, outcome)), later, next);
  }

  // ----- the store object -----

  class TaskStore {
    var tasks: map<string, Task>
    var requestCounts: Stamps

    ghost function State(): Store
      reads this
    {
      Store(requestCounts, tasks)
    }

    constructor ()
      ensures State() == Store(map[], map[])
    {
      tasks := map[];
      requestCounts := map[];
    }

    method CheckRateLimit(client: string, now: real) returns (ok: bool)
      modifies this`requestCounts
      ensures (requestCounts, ok) == Check(old(requestCounts), client, now)
    {
      if client == "" {
        return true;
      }
      var window := now - WINDOW;
      var timestamps := if client in requestCounts then requestCounts[client] else [];
      timestamps := Recent(timestamps, window);
      if |timestamps| >= MAX_TASKS_PER_MINUTE {
        return false;
      }
      timestamps := timestamps + [now];
      requestCounts := requestCounts[client := timestamps];
      return true;
    }

    method CleanupOldTasks(now: real)
      modifies this`tasks
      ensures tasks == Cleanup(old(tasks), now)
    {
      var toDelete: set<string> := {};
      var left := tasks.Keys;
      while left != {}
        invariant left <= tasks.Keys
        invariant toDelete == set id | id in tasks.Keys - left && Stale(tasks[id], now)
        decreases |left|
      {
        var id :| id in left;
        if Stale(tasks[id], now) {
          toDelete := toDelete + {id};
        }
        left := left - {id};
      }
      tasks := tasks - toDelete;
    }

    method CreateTask(id: string, now: real)
      modifies this`tasks
      ensures tasks == Cleanup(old(tasks), now)[id := Task("submitted", now)]
    {
      CleanupOldTasks(now);
      tasks := tasks[id := Task("submitted", now)];
    }

    method UpdateTask(id: string, state: string, now: real)
      modifies this`tasks
      ensures tasks == Update(old(tasks), id, state, now)
    {
      if id in tasks {
        tasks := tasks[id := Task(state, now)];
      }
    }

    /** `_handle_send_message`. */
    method HandleSend(client: string, now: real, id: string, outcome: string) returns (reply: Reply)
      modifies this
      ensures (State(), reply) == Handle(old(State()), Send(client, now, id, outcome))
    {
      var ok := CheckRateLimit(client, now);
      if !ok {
        return RateLimited;
      }
      if |tasks| >= MAX_TASKS {
        return QueueFull;
      }
      CreateTask(id, now);
      UpdateTask(id, "working", now);
      UpdateTask(id, outcome, now);
      return Accepted;
    }
  }
}
