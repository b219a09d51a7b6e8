/** The delayed-flush scheduler: one deadline, one worker thread, any number of
    requests. Each step is one critical section of the scheduler mutex, one
    thread event, or the passing of time. */
module Scheduler {
  import opened Collections
  import opened Domain

  /** Requests by number, with the time each one asked to be served by. */
  type Requests = map<nat, int>

  datatype Phase =
    | Spawning                               // flag raised, thread not yet running
    | Polling                                // about to lock and look at the deadline
    | Waiting(until: int, notified: bool)    // parked with a timeout
    | Firing(claimed: Requests, since: int)  // deadline taken, outbox not yet read
    | Sending                                // delivering what was read

  /** `waiting` holds the requests since the last fire, `served` the requests a
      flush covered by reading the outbox later, `missed` those whose flush failed
      before reading. */
  datatype Sched = Sched(
    now: int, deadline: Option<int>, running: bool, workers: map<nat, Phase>,
    made: nat, waiting: Requests, served: set<nat>, missed: set<nat>, spawnFailed: bool)

  datatype Step =
    | Tick(elapsed: nat)
    | Request(delay: nat, worker: nat)
    | Spawned(worker: nat, ok: bool)
    | Poll(worker: nat)
    | Wake(worker: nat)
    | ReadOutbox(worker: nat, ok: bool)
    | EndFlush(worker: nat)

  predicate Enabled(s: Sched, a: Step) {
    match a
    case Tick(_) => true
    case Request(_, w) => w !in s.workers
    case Spawned(w, _) => w in s.workers && s.workers[w].Spawning?
    case Poll(w) => w in s.workers && s.workers[w].Polling?
    case Wake(w) => w in s.workers && s.workers[w].Waiting?
    case ReadOutbox(w, _) => w in s.workers && s.workers[w].Firing?
    case EndFlush(w) => w in s.workers && s.workers[w].Sending?
  }

  function Notified(workers: map<nat, Phase>): map<nat, Phase> {
    map w | w in workers ::
      if workers[w].Waiting? then workers[w].(notified := true) else workers[w]
  }

  /** An earlier deadline replaces the current one and wakes the worker; a worker
      is started unless one is already marked as running. */
  function Requested(s: Sched, delay: nat, w: nat): Sched {
    var due := s.now + delay;
    var noted := s.(made := s.made + 1, waiting := s.waiting[s.made := due]);
    if s.deadline.Some? && s.deadline.value <= due then noted
    else
      var moved := noted.(deadline := Some(due), workers := Notified(s.workers));
      if s.running then moved
      else moved.(running := true, workers := moved.workers[w := Spawning])
  }

  function Polled(s: Sched, w: nat): Sched {
    if s.deadline.None? then s.(running := false, workers := s.workers - {w})
    else if s.now < s.deadline.value then s.(workers := s.workers[w := Waiting(s.deadline.value, false)])
    else s.(deadline := None, waiting := map[], workers := s.workers[w := Firing(s.waiting, s.deadline.value)])
  }

  function Next(s: Sched, a: Step): Sched
    requires Enabled(s, a)
  {
    match a
    case Tick(elapsed) => s.(now := s.now + elapsed)
    case Request(delay, w) => Requested(s, delay, w)
    case Spawned(w, ok) =>
      if ok then s.(workers := s.workers[w := Polling])
      else s.(running := false, workers := s.workers - {w}, spawnFailed := true)
    case Poll(w) => Polled(s, w)
    case Wake(w) => s.(workers := s.workers[w := Polling])
    case ReadOutbox(w, ok) =>
      var claimed := s.workers[w].claimed.Keys;
      if ok then s.(served := s.served + claimed, workers := s.workers[w := Sending])
      else s.(missed := s.missed + claimed, workers := s.workers[w := Polling])
    case EndFlush(w) => s.(workers := s.workers[w := Polling])
  }

  function Initial(now: int): Sched {
    Sched(now, None, false, map[], 0, map[], {}, {}, false)
  }

  // ---- Invariant ----------------------------------------------------------

  predicate OneWorker(s: Sched) {
    && (forall v, w :: v in s.workers && w in s.workers ==> v == w)
    && (s.running <==> s.workers != map[])
  }

  /** The deadline is the earliest request since the last fire. */
  ghost predicate DeadlineIsMinimum(s: Sched) {
    match s.deadline
    case None => s.waiting == map[]
    case Some(d) =>
      && (exists r :: r in s.waiting && s.waiting[r] == d)
      && (forall r :: r in s.waiting ==> d <= s.waiting[r])
  }

  /** A parked worker will be up in time for the deadline. */
  predicate WakesInTime(s: Sched) {
    forall w :: w in s.workers && s.workers[w].Waiting? ==>
      s.deadline.Some? && (s.workers[w].notified || s.workers[w].until <= s.deadline.value)
  }

  /** A fire never precedes the deadline it took, the earliest one it claims. */
  ghost predicate NotEarly(s: Sched) {
    forall w :: w in s.workers && s.workers[w].Firing? ==>
      && s.workers[w].since <= s.now
      && (exists r :: r in s.workers[w].claimed && s.workers[w].claimed[r] == s.workers[w].since)
      && (forall r :: r in s.workers[w].claimed ==> s.workers[w].since <= s.workers[w].claimed[r])
  }

  predicate Claimed(s: Sched, r: nat) {
    exists w :: w in s.workers && s.workers[w].Firing? && r in s.workers[w].claimed
  }

  /** Every request waits, is claimed by a firing worker, or has been covered. */
  predicate Accounted(s: Sched) {
    && (forall r: nat :: r < s.made ==> r in s.waiting || Claimed(s, r) || r in s.served || r in s.missed)
    && (forall r :: r in s.waiting ==> r < s.made && r !in s.served && r !in s.missed)
    && (forall r :: r in s.served ==> r < s.made)
    && (forall r :: r in s.missed ==> r < s.made)
  }

  predicate Attended(s: Sched) {
    s.deadline.Some? && !s.spawnFailed ==> s.running
  }

  predicate SpawnHasDeadline(s: Sched) {
    forall w :: w in s.workers && s.workers[w].Spawning? ==> s.deadline.Some?
  }

  ghost predicate Inv(s: Sched) {
    && OneWorker(s) && DeadlineIsMinimum(s) && WakesInTime(s) && NotEarly(s)
    && Attended(s) && SpawnHasDeadline(s) && Accounted(s) && ClaimsFresh(s)
  }

  predicate Fresh(claimed: Requests, s: Sched) {
    forall r :: r in claimed ==> r < s.made && r !in s.waiting
  }

  predicate ClaimsFresh(s: Sched) {
    forall w :: w in s.workers && s.workers[w].Firing? ==> Fresh(s.workers[w].claimed, s)
  }

  /** The same workers are firing, with the same claims. */
  predicate SameClaims(s: Sched, t: Sched) {
    && (forall v :: v in s.workers && s.workers[v].Firing? ==> v in t.workers && t.workers[v] == s.workers[v])
    && (forall v :: v in t.workers && t.workers[v].Firing? ==> v in s.workers && t.workers[v] == s.workers[v])
  }

  lemma ClaimsCarry(s: Sched, t: Sched)
    requires SameClaims(s, t) && NotEarly(s) && ClaimsFresh(s)
    requires s.now <= t.now && s.made <= t.made
    requires forall r :: r in t.waiting ==> r in s.waiting || s.made <= r
    ensures NotEarly(t) && ClaimsFresh(t)
    ensures forall r: nat :: Claimed(s, r) ==> Claimed(t, r)
  {
    forall w | w in t.workers && t.workers[w].Firing? ensures Fresh(t.workers[w].claimed, t) {
      assert Fresh(s.workers[w].claimed, s);
    }
    forall r: nat | Claimed(s, r) ensures Claimed(t, r) {
      var v :| v in s.workers && s.workers[v].Firing? && r in s.workers[v].claimed;
      assert t.workers[v] == s.workers[v];
    }
  }

  lemma RequestKeepsDeadline(s: Sched, delay: nat, w: nat)
    requires DeadlineIsMinimum(s) && w !in s.workers && s.made !in s.waiting
    ensures DeadlineIsMinimum(Requested(s, delay, w))
  {
    var after := Requested(s, delay, w);
    var due := s.now + delay;
    assert s.made in after.waiting && after.waiting[s.made] == due;
    if s.deadline.Some? && s.deadline.value <= due {
      var r :| r in s.waiting && s.waiting[r] == s.deadline.value;
      assert r in after.waiting && after.waiting[r] == s.deadline.value;
    }
  }

  lemma RequestKeepsWorkers(s: Sched, delay: nat, w: nat)
    requires OneWorker(s) && WakesInTime(s) && SpawnHasDeadline(s) && Attended(s) && w !in s.workers
    ensures var after := Requested(s, delay, w);
            OneWorker(after) && WakesInTime(after) && SpawnHasDeadline(after) && Attended(after) && SameClaims(s, after)
  {
    var after := Requested(s, delay, w);
    if !s.running {
      assert s.workers == map[];
    }
    assert forall v :: v in s.workers ==> v in after.workers;
  }

  lemma RequestKeepsInv(s: Sched, delay: nat, w: nat)
    requires Inv(s) && w !in s.workers
    ensures Inv(Next(s, Request(delay, w)))
  {
    RequestKeepsDeadline(s, delay, w);
    RequestKeepsWorkers(s, delay, w);
    ClaimsCarry(s, Requested(s, delay, w));
  }

  lemma PollKeepsInv(s: Sched, w: nat)
    requires Inv(s) && Enabled(s, Poll(w))
    ensures Inv(Next(s, Poll(w)))
  {
    var after := Next(s, Poll(w));
    forall r: nat | r < s.made
      ensures r in after.waiting || Claimed(after, r) || r in after.served || r in after.missed
    {
      assert !Claimed(s, r);
      if r in s.waiting && after.waiting == map[] {
        assert s.deadline.Some? && after.workers[w].Firing? && r in after.workers[w].claimed;
      }
    }
  }

  lemma ReadKeepsInv(s: Sched, w: nat, ok: bool)
    requires Inv(s) && Enabled(s, ReadOutbox(w, ok))
    ensures Inv(Next(s, ReadOutbox(w, ok)))
  {
    var after := Next(s, ReadOutbox(w, ok));
    forall r: nat | r < s.made
      ensures r in after.waiting || Claimed(after, r) || r in after.served || r in after.missed
    {
      if Claimed(s, r) {
        assert r in s.workers[w].claimed;
      }
    }
  }

  lemma StepKeepsInv(s: Sched, a: Step)
    requires Inv(s) && Enabled(s, a)
    ensures Inv(Next(s, a))
  {
    match a {
      case Request(delay, w) => RequestKeepsInv(s, delay, w);
      case Poll(w) => PollKeepsInv(s, w);
      case ReadOutbox(w, ok) => ReadKeepsInv(s, w, ok);
      case Tick(_) =>
        ClaimsCarry(s, Next(s, a));
      case _ => assert forall r: nat :: !Claimed(s, r);
    }
  }

  predicate Legal(s: Sched, steps: seq<Step>)
    decreases |steps|, 0
  {
    steps != [] ==>
      var before := steps[..|steps| - 1];
      Legal(s, before) && Enabled(Reached(s, before), steps[|steps| - 1])
  }

  function Reached(s: Sched, steps: seq<Step>): Sched
    requires Legal(s, steps)
    decreases |steps|, 1
  {
    if steps == [] then s else Next(Reached(s, steps[..|steps| - 1]), steps[|steps| - 1])
  }

  /** At most one worker, no early fire, no lost wake-up and no lost request, in
      every run; an unattended deadline needs a failed spawn. */
  lemma {:induction false} EveryRunIsSafe(now: int, steps: seq<Step>)
    requires Legal(Initial(now), steps)
    ensures Inv(Reached(Initial(now), steps))
  {
    if steps != [] {
      EveryRunIsSafe(now, steps[..|steps| - 1]);
      StepKeepsInv(Reached(Initial(now), steps[..|steps| - 1]), steps[|steps| - 1]);
    }
  }

  // ---- Every request is served ----------------------------------------------

  /** What the one worker does next when its calls succeed. */
  function WorkerSteps(phase: Phase, w: nat): seq<Step> {
    match phase
    case Spawning => [Spawned(w, true), Poll(w), ReadOutbox(w, true)]
    case Polling => [Poll(w), ReadOutbox(w, true)]
    case Waiting(_, _) => [Wake(w), Poll(w), ReadOutbox(w, true)]
    case Firing(_, _) => [ReadOutbox(w, true), EndFlush(w), Poll(w), ReadOutbox(w, true)]
    case Sending => [EndFlush(w), Poll(w), ReadOutbox(w, true)]
  }

  lemma Extend(s: Sched, steps: seq<Step>, a: Step)
    requires Legal(s, steps) && Enabled(Reached(s, steps), a)
    ensures Legal(s, steps + [a]) && Reached(s, steps + [a]) == Next(Reached(s, steps), a)
  {
    assert (steps + [a])[..|steps|] == steps;
  }

  /** The worker's own next steps, once the deadline has come, read the outbox
      for every request that waits. */
  predicate Serves(s: Sched, w: nat)
    requires s.deadline.Some? && w in s.workers
  {
    var steps := [Tick(Max(0, s.deadline.value - s.now))] + WorkerSteps(s.workers[w], w);
    && Legal(s, steps)
    && Reached(s, steps).now == Max(s.now, s.deadline.value)
    && s.waiting.Keys <= Reached(s, steps).served
  }

  /** A parked worker will be up by the deadline without a spurious wake-up. */
  predicate UpInTime(s: Sched, w: nat)
    requires s.deadline.Some? && w in s.workers
  {
    s.workers[w].Waiting? ==> s.workers[w].notified || s.workers[w].until <= s.deadline.value
  }

  /** A running worker can serve everything that waits in at most four steps, and
      no wake-up it needs has been lost. */
  lemma WaitingRequestsAreServed(s: Sched)
    requires Inv(s) && s.running && s.waiting != map[]
    ensures s.deadline.Some? && exists w :: w in s.workers && UpInTime(s, w) && Serves(s, w)
  {
    assert s.workers != map[];
    var w :| w in s.workers;
    var tick := Tick(Max(0, s.deadline.value - s.now));
    Extend(s, [], tick);
    assert [] + [tick] == [tick];
    StepKeepsInv(s, tick);
    ServedBy(s, [tick], w);
    assert Serves(s, w);
  }

  lemma PollAndRead(s: Sched, before: seq<Step>, w: nat)
    requires Legal(s, before) && Enabled(Reached(s, before), Poll(w))
    requires var t := Reached(s, before); t.deadline.Some? && t.deadline.value <= t.now
    ensures var t := Reached(s, before);
            var steps := before + [Poll(w), ReadOutbox(w, true)];
            Legal(s, steps) && Reached(s, steps).now == t.now && t.waiting.Keys <= Reached(s, steps).served
  {
    Extend(s, before, Poll(w));
    Extend(s, before + [Poll(w)], ReadOutbox(w, true));
    assert before + [Poll(w), ReadOutbox(w, true)] == before + [Poll(w)] + [ReadOutbox(w, true)];
  }

  /** One step that puts the worker back to polling, then poll and read. */
  lemma StepThenServe(s: Sched, before: seq<Step>, w: nat, first: Step)
    requires Legal(s, before) && Enabled(Reached(s, before), first)
    requires first == Spawned(w, true) || first == Wake(w) || first == EndFlush(w)
    requires var t := Reached(s, before); t.deadline.Some? && t.deadline.value <= t.now
    ensures var t := Reached(s, before);
            var steps := before + [first, Poll(w), ReadOutbox(w, true)];
            Legal(s, steps) && Reached(s, steps).now == t.now && t.waiting.Keys <= Reached(s, steps).served
  {
    Extend(s, before, first);
    PollAndRead(s, before + [first], w);
    assert before + [first, Poll(w), ReadOutbox(w, true)] == before + [first] + [Poll(w), ReadOutbox(w, true)];
  }

  lemma ServedBy(s: Sched, before: seq<Step>, w: nat)
    requires Legal(s, before) && w in Reached(s, before).workers
    requires var t := Reached(s, before); t.deadline.Some? && t.deadline.value <= t.now
    ensures var t := Reached(s, before);
            var steps := before + WorkerSteps(t.workers[w], w);
            Legal(s, steps) && Reached(s, steps).now == t.now && t.waiting.Keys <= Reached(s, steps).served
  {
    var t := Reached(s, before);
    match t.workers[w] {
      case Polling => PollAndRead(s, before, w);
      case Spawning => StepThenServe(s, before, w, Spawned(w, true));
      case Waiting(_, _) => StepThenServe(s, before, w, Wake(w));
      case Sending => StepThenServe(s, before, w, EndFlush(w));
      case Firing(_, _) =>
        var read := ReadOutbox(w, true);
        Extend(s, before, read);
        StepThenServe(s, before + [read], w, EndFlush(w));
        assert before + WorkerSteps(t.workers[w], w) == before + [read] + [EndFlush(w), Poll(w), read];
    }
  }

  // ---- Under every schedule --------------------------------------------------------

  predicate WorkerStep(a: Step) {
    !a.Tick? && !a.Request?
  }

  function WorkerTurns(steps: seq<Step>): nat {
    if steps == [] then 0
    else WorkerTurns(steps[..|steps| - 1]) + if WorkerStep(steps[|steps| - 1]) then 1 else 0
  }

  predicate ThreadsStart(steps: seq<Step>) {
    forall a :: a in steps && a.Spawned? ==> a.ok
  }

  predicate ReadsSucceed(steps: seq<Step>) {
    forall a :: a in steps && a.ReadOutbox? ==> a.ok
  }

  /** A flush that began after the request read the outbox, or failed to. */
  predicate Covered(s: Sched, r: nat) {
    r in s.served || r in s.missed
  }

  /** The worker goes on now: it needs neither more time nor a spurious wake-up. */
  predicate Due(s: Sched, w: nat)
    requires w in s.workers
  {
    s.workers[w].Waiting? ==> s.workers[w].notified || s.workers[w].until <= s.now
  }

  /** The request is not covered yet and its deadline, if it still waits, is here. */
  predicate Owed(s: Sched, w: nat, r: nat) {
    && w in s.workers && r < s.made && !Covered(s, r)
    && (r in s.waiting ==> s.deadline.Some? && s.deadline.value <= s.now)
  }

  /** The worker steps left until an owed request is covered. */
  function Rank(s: Sched, w: nat, r: nat): nat
    requires w in s.workers
  {
    if r !in s.waiting then 1
    else match s.workers[w]
      case Polling => 2
      case Spawning | Waiting(_, _) | Sending => 3
      case Firing(_, _) => 4
  }

  /** A worker step that only needs the worker itself. */
  function Turn(s: Sched, w: nat): Step
    requires w in s.workers
  {
    match s.workers[w]
    case Polling => Poll(w)
    case Spawning => Spawned(w, true)
    case Waiting(_, _) => Wake(w)
    case Sending => EndFlush(w)
    case Firing(_, _) => ReadOutbox(w, true)
  }

  /** The request is covered, or owed with at most `budget` worker steps to go. */
  predicate OnTrack(s: Sched, w: nat, r: nat, budget: int) {
    Covered(s, r) || (Owed(s, w, r) && Rank(s, w, r) <= budget)
  }

  lemma OwedStep(s: Sched, a: Step, w: nat, r: nat)
    requires Inv(s) && Enabled(s, a) && Owed(s, w, r) && (a.Spawned? ==> a.ok)
    ensures OnTrack(Next(s, a), w, r, Rank(s, w, r) - if WorkerStep(a) then 1 else 0)
  {
    if r !in s.waiting {
      assert Claimed(s, r);
      assert s.workers[w].Firing? && r in s.workers[w].claimed;
    }
  }

  lemma TrackStep(s: Sched, a: Step, w: nat, r: nat, budget: int)
    requires Inv(s) && Enabled(s, a) && OnTrack(s, w, r, budget) && (a.Spawned? ==> a.ok)
    ensures Inv(Next(s, a)) && OnTrack(Next(s, a), w, r, budget - if WorkerStep(a) then 1 else 0)
  {
    StepKeepsInv(s, a);
    if !Covered(s, r) {
      OwedStep(s, a, w, r);
    }
  }

  /** Along any schedule an owed request is covered or its rank has fallen with
      every step of the worker. */
  lemma {:induction false} RankFalls(s: Sched, steps: seq<Step>, w: nat, r: nat)
    requires Inv(s) && Owed(s, w, r) && Legal(s, steps) && ThreadsStart(steps)
    ensures Inv(Reached(s, steps)) && OnTrack(Reached(s, steps), w, r, Rank(s, w, r) - WorkerTurns(steps))
  {
    if steps != [] {
      var before, last := steps[..|steps| - 1], steps[|steps| - 1];
      assert last in steps && forall a :: a in before ==> a in steps;
      RankFalls(s, before, w, r);
      TrackStep(Reached(s, before), last, w, r, Rank(s, w, r) - WorkerTurns(before));
    }
  }

  lemma {:induction false} MissedStays(s: Sched, steps: seq<Step>)
    requires Legal(s, steps) && ReadsSucceed(steps)
    ensures Reached(s, steps).missed == s.missed
  {
    if steps != [] {
      var before, last := steps[..|steps| - 1], steps[|steps| - 1];
      assert last in steps && forall a :: a in before ==> a in steps;
      MissedStays(s, before);
    }
  }

  lemma OwedMeansDue(s: Sched, w: nat, r: nat)
    requires Inv(s) && Owed(s, w, r)
    ensures Due(s, w) && Enabled(s, Turn(s, w))
  {
    if r !in s.waiting {
      assert Claimed(s, r);
      assert s.workers[w].Firing?;
    }
  }

  /** Once its time has come, a request of a running worker is covered after at
      most four steps of that worker, in every schedule: requests and ticks never
      set it back, and the worker can always go on by itself. If no read of the
      outbox fails, covered means served. */
  lemma EveryScheduleServes(s: Sched, steps: seq<Step>, w: nat, r: nat)
    requires Inv(s) && w in s.workers && r in s.waiting && s.waiting[r] <= s.now
    requires Legal(s, steps) && ThreadsStart(steps)
    ensures var t := Reached(s, steps);
            && (!Covered(t, r) ==>
                  && Owed(t, w, r) && Due(t, w) && Enabled(t, Turn(t, w))
                  && Rank(t, w, r) + WorkerTurns(steps) <= Rank(s, w, r))
            && (WorkerTurns(steps) >= 4 ==> Covered(t, r))
            && (ReadsSucceed(steps) ==> r !in t.missed)
  {
    RankFalls(s, steps, w, r);
    if !Covered(Reached(s, steps), r) {
      OwedMeansDue(Reached(s, steps), w, r);
    }
    if ReadsSucceed(steps) {
      MissedStays(s, steps);
    }
  }

  // ---- What a request asks for ----------------------------------------------------

  /** The numbered request of a run, with the time it asked to be served by: the time
      it was made plus its delay. */
  function DueOf(now: int, steps: seq<Step>, r: nat): Option<int>
    requires Legal(Initial(now), steps)
  {
    if steps == [] then None
    else
      var before, last := steps[..|steps| - 1], steps[|steps| - 1];
      if last.Request? && RequestsMade(before) == r then Some(Clock(now, before) + last.delay)
      else DueOf(now, before, r)
  }

  function RequestsMade(steps: seq<Step>): nat {
    if steps == [] then 0 else RequestsMade(steps[..|steps| - 1]) + if steps[|steps| - 1].Request? then 1 else 0
  }

  function Clock(now: int, steps: seq<Step>): int {
    if steps == [] then now
    else Clock(now, steps[..|steps| - 1]) + if steps[|steps| - 1].Tick? then steps[|steps| - 1].elapsed else 0
  }

  /** In every run every waiting or claimed request is remembered with its own due
      time, and there are as many requests as were made. */
  lemma {:induction false} RequestsKeepTheirDue(now: int, steps: seq<Step>, r: nat)
    requires Legal(Initial(now), steps)
    ensures var s := Reached(Initial(now), steps);
            && s.made == RequestsMade(steps) && s.now == Clock(now, steps)
            && KnownDue(s, r, DueOf(now, steps, r))
  {
    if steps != [] {
      var before, last := steps[..|steps| - 1], steps[|steps| - 1];
      RequestsKeepTheirDue(now, before, r);
      EveryRunIsSafe(now, before);
      StepKeepsDue(Reached(Initial(now), before), last, r, DueOf(now, before, r));
    }
  }

  predicate KnownDue(s: Sched, r: nat, due: Option<int>) {
    && (due.Some? <==> r < s.made)
    && (r in s.waiting ==> due == Some(s.waiting[r]))
    && (forall w :: w in s.workers && s.workers[w].Firing? && r in s.workers[w].claimed ==>
          due == Some(s.workers[w].claimed[r]))
  }

  lemma StepKeepsDue(s: Sched, a: Step, r: nat, due: Option<int>)
    requires Inv(s) && Enabled(s, a) && KnownDue(s, r, due)
    ensures KnownDue(Next(s, a), r, if a.Request? && s.made == r then Some(s.now + a.delay) else due)
    ensures Next(s, a).made == s.made + (if a.Request? then 1 else 0)
    ensures Next(s, a).now == s.now + (if a.Tick? then a.elapsed else 0)
  {
    if a.Request? {
      RequestKeepsWorkers(s, a.delay, a.worker);
    }
  }

  /** In every run a worker takes the deadline only when some request it claims is
      due, never before the earliest of them, and claims everything that waits. */
  lemma FiresWhenDue(now: int, steps: seq<Step>, w: nat, r: nat)
    requires Legal(Initial(now), steps) && Enabled(Reached(Initial(now), steps), Poll(w))
    requires w in Next(Reached(Initial(now), steps), Poll(w)).workers
    requires Next(Reached(Initial(now), steps), Poll(w)).workers[w].Firing?
    ensures var s := Reached(Initial(now), steps);
            && Next(s, Poll(w)).workers[w].claimed == s.waiting
            && (exists q :: q in s.waiting && DueOf(now, steps, q) == Some(s.waiting[q])
                  && s.waiting[q] <= Clock(now, steps)
                  && (r in s.waiting ==> s.waiting[q] <= s.waiting[r]))
  {
    var s := Reached(Initial(now), steps);
    EveryRunIsSafe(now, steps);
    RequestsKeepTheirDue(now, steps, r);
    var q :| q in s.waiting && s.waiting[q] == s.deadline.value;
    RequestsKeepTheirDue(now, steps, q);
  }

  // ---- The one way to lose a worker ---------------------------------------------

  /** Spawning leaves the deadline attended exactly when the spawn succeeds. */
  lemma SpawnAttendsExactly(s: Sched, w: nat, ok: bool)
    requires Inv(s) && Enabled(s, Spawned(w, ok))
    ensures var after := Next(s, Spawned(w, ok)); (after.deadline.Some? ==> after.running) <==> ok
  {
  }

  /** After a failed spawn whose deadline has passed, every later request is
      judged too late to matter and no worker is ever started again. */
  lemma {:induction false} FailedSpawnWedges(s: Sched, steps: seq<Step>)
    requires s.deadline.Some? && s.deadline.value <= s.now && s.workers == map[] && !s.running
    requires Legal(s, steps)
    ensures var after := Reached(s, steps);
            && after.workers == map[] && !after.running && after.deadline == s.deadline
            && after.served == s.served && s.waiting.Keys <= after.waiting.Keys
            && s.now <= after.now && s.made <= after.made
  {
    if steps != [] {
      FailedSpawnWedges(s, steps[..|steps| - 1]);
    }
  }

  /** A deadline left without a worker by a failed start gets one in some
      continuation exactly while it still lies ahead. */
  lemma RecoversExactly(s: Sched)
    requires Inv(s) && s.deadline.Some? && !s.running
    ensures (exists steps :: Legal(s, steps) && Reached(s, steps).running) <==> s.now < s.deadline.value
  {
    if s.now < s.deadline.value {
      Extend(s, [], Request(0, 0));
      assert Reached(s, [] + [Request(0, 0)]).running;
    } else {
      forall steps | Legal(s, steps) ensures !Reached(s, steps).running {
        FailedSpawnWedges(s, steps);
      }
    }
  }

  /** The last start of a worker in the run failed. */
  predicate Stranded(now: int, steps: seq<Step>)
    requires Legal(Initial(now), steps)
  {
    steps != [] &&
    var before, last := steps[..|steps| - 1], steps[|steps| - 1];
    if last.Spawned? then !last.ok
    else !(last.Request? && last.worker in Reached(Initial(now), steps).workers) && Stranded(now, before)
  }

  /** In every run a deadline lacks a worker exactly when the last start failed. */
  lemma {:induction false} UnattendedExactly(now: int, steps: seq<Step>)
    requires Legal(Initial(now), steps)
    ensures var s := Reached(Initial(now), steps);
            s.deadline.Some? && !s.running <==> Stranded(now, steps)
  {
    if steps != [] {
      UnattendedExactly(now, steps[..|steps| - 1]);
      EveryRunIsSafe(now, steps[..|steps| - 1]);
      EveryRunIsSafe(now, steps);
    }
  }

  /** One immediate request whose thread does not start is never served. */
  lemma FailedSpawnLosesRequest(now: int)
    ensures var lost := [Request(0, 1), Spawned(1, false)];
            && Legal(Initial(now), lost)
            && var s := Reached(Initial(now), lost);
               forall steps :: Legal(s, steps) ==> !Reached(s, steps).running && 0 in Reached(s, steps).waiting
  {
    Extend(Initial(now), [], Request(0, 1));
    assert [] + [Request(0, 1)] == [Request(0, 1)];
    Extend(Initial(now), [Request(0, 1)], Spawned(1, false));
    assert [Request(0, 1)] + [Spawned(1, false)] == [Request(0, 1), Spawned(1, false)];
    var s := Reached(Initial(now), [Request(0, 1), Spawned(1, false)]);
    forall steps | Legal(s, steps) ensures !Reached(s, steps).running && 0 in Reached(s, steps).waiting {
      FailedSpawnWedges(s, steps);
      assert 0 in s.waiting.Keys;
    }
  }

  // ---- The scheduler in memory --------------------------------------------------

  /** What the worker does after looking at the deadline. */
  datatype Decision = Stop | WaitUntil(time: int) | Fire

  /** The two fields behind the scheduler mutex; the clock, the worker threads and
      the bookkeeping of requests are ghost. */
  class FlushScheduler {
    var deadline: Option<int>
    var workerRunning: bool
    ghost var rest: Sched

    ghost function State(): Sched
      reads this
    {
      rest.(deadline := deadline, running := workerRunning)
    }

    constructor (ghost now: int)
      ensures State() == Initial(now) && Inv(State())
    {
      deadline, workerRunning, rest := None, false, Initial(now);
    }

    method ScheduleFlush(now: int, delay: nat, ghost worker: nat) returns (spawn: bool)
      requires Inv(State()) && now == State().now && Enabled(State(), Request(delay, worker))
      modifies this
      ensures State() == Next(old(State()), Request(delay, worker)) && Inv(State())
      ensures deadline == Some(if old(deadline).Some? && old(deadline).value <= now + delay
                               then old(deadline).value else now + delay)
      ensures spawn <==> worker in State().workers
      ensures spawn <==> !old(workerRunning) && (old(deadline).None? || now + delay < old(deadline).value)
    {
      StepKeepsInv(State(), Request(delay, worker));
      var newDeadline := now + delay;
      ghost var noted := rest.(made := rest.made + 1, waiting := rest.waiting[rest.made := newDeadline]);
      if deadline.Some? && deadline.value <= newDeadline {
        rest := noted;
        return false;
      }
      deadline := Some(newDeadline);
      rest := noted.(workers := Notified(noted.workers));
      if workerRunning {
        return false;
      }
      workerRunning := true;
      rest := rest.(workers := rest.workers[worker := Spawning]);
      spawn := true;
    }

    method ThreadStarted(ok: bool, ghost worker: nat)
      requires Inv(State()) && Enabled(State(), Spawned(worker, ok))
      modifies this
      ensures State() == Next(old(State()), Spawned(worker, ok)) && Inv(State())
    {
      StepKeepsInv(State(), Spawned(worker, ok));
      if ok {
        rest := rest.(workers := rest.workers[worker := Polling]);
      } else {
        workerRunning := false;
        rest := rest.(workers := rest.workers - {worker}, spawnFailed := true);
      }
    }

    /** A whole request: it is noted, a worker is started unless one runs, and the
        flag is cleared again if its thread does not start. */
    method RequestFlush(now: int, delay: nat, started: bool, ghost worker: nat)
      requires Inv(State()) && now == State().now && Enabled(State(), Request(delay, worker))
      modifies this
      ensures Inv(State()) && deadline.Some? && deadline.value <= now + delay
      ensures var requested := Next(old(State()), Request(delay, worker));
              State() == if worker in requested.workers then Next(requested, Spawned(worker, started)) else requested
      ensures workerRunning <==>
              old(workerRunning) || (started && (old(deadline).None? || now + delay < old(deadline).value))
    {
      var spawn := ScheduleFlush(now, delay, worker);
      if spawn {
        ThreadStarted(started, worker);
      }
    }

    /** The head of the worker's loop: stop, sleep until the deadline, or take it. */
    method TakeTurn(now: int, ghost worker: nat) returns (decision: Decision)
      requires Inv(State()) && now == State().now && Enabled(State(), Poll(worker))
      modifies this
      ensures State() == Next(old(State()), Poll(worker)) && Inv(State())
      ensures decision == if old(deadline).None? then Stop
                      else if now < old(deadline).value then WaitUntil(old(deadline).value) else Fire
      ensures workerRunning <==> !decision.Stop?
      ensures deadline == if decision.Fire? then None else old(deadline)
    {
      StepKeepsInv(State(), Poll(worker));
      if deadline.None? {
        workerRunning := false;
        rest := rest.(workers := rest.workers - {worker});
        return Stop;
      }
      if now < deadline.value {
        rest := rest.(workers := rest.workers[worker := Waiting(deadline.value, false)]);
        return WaitUntil(deadline.value);
      }
      rest := rest.(waiting := map[], workers := rest.workers[worker := Firing(rest.waiting, deadline.value)]);
      deadline := None;
      decision := Fire;
    }
  }
}
