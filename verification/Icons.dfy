/** Single-flight icon loading: concurrent calls for one feed share one load. Each
    step is one critical section of the cache, load-table or slot mutex. A slot is
    named after the call that created it. */
module Icons {
  import opened Domain

  type Icon = string

  /** The Rust service looks into the cache and the load table in separate
      critical sections; the Go service does both under one lock. */
  datatype Style = Stepwise | OneLock

  datatype Pc =
    | Start(feed: int)
    | Missed(feed: int)                                // cache miss, load table next
    | Fresh(feed: int)                                 // saw no load, about to register one
    | Waiting(feed: int, leader: int)                  // about to check the slot
    | Sleeping(feed: int, leader: int)
    | Released(feed: int)                              // slot was ready, cache next
    | Loading(feed: int)
    | Loaded(feed: int, icon: Icon)                    // result in hand, not yet cached
    | Cleaning(feed: int, result: Option<Icon>)        // guard dropped: deregister next
    | Removed(feed: int, result: Option<Icon>)         // ready flag next
    | Readied(feed: int, result: Option<Icon>)         // notification next
    | Done(feed: int, result: Option<Icon>)

  datatype State = State(
    style: Style, cache: map<int, Icon>, loads: map<int, int>, ready: map<int, bool>,
    calls: map<int, Pc>, loaded: set<(int, Icon)>, succeeded: set<int>)

  datatype Step =
    | Call(t: int, feed: int)
    | CheckCache(t: int)
    | LookUp(t: int)
    | Insert(t: int)
    | Enter(t: int)
    | FinishLoad(t: int, result: Option<Icon>)    // None: failed or panicked
    | Store(t: int)
    | Deregister(t: int)
    | SetReady(t: int)
    | NotifyAll(t: int)
    | CheckReady(t: int)
    | Wake(t: int)
    | Expire(t: int)
    | ReadResult(t: int)

  predicate Enabled(s: State, a: Step) {
    match a
    case Call(t, _) => t !in s.calls
    case CheckCache(t) => s.style.Stepwise? && t in s.calls && s.calls[t].Start?
    case LookUp(t) => s.style.Stepwise? && t in s.calls && s.calls[t].Missed?
    case Insert(t) => s.style.Stepwise? && t in s.calls && s.calls[t].Fresh?
    case Enter(t) => s.style.OneLock? && t in s.calls && s.calls[t].Start?
    case FinishLoad(t, _) => t in s.calls && s.calls[t].Loading?
    case Store(t) => t in s.calls && s.calls[t].Loaded?
    case Deregister(t) => t in s.calls && s.calls[t].Cleaning?
    case SetReady(t) => t in s.calls && s.calls[t].Removed?
    case NotifyAll(t) => t in s.calls && s.calls[t].Readied?
    case CheckReady(t) => t in s.calls && s.calls[t].Waiting? && s.calls[t].leader in s.ready
    case Wake(t) => t in s.calls && s.calls[t].Sleeping?
    case Expire(t) => t in s.calls && s.calls[t].Waiting?
    case ReadResult(t) => t in s.calls && s.calls[t].Released?
  }

  function At(s: State, t: int, pc: Pc): State {
    s.(calls := s.calls[t := pc])
  }

  function CacheHit(s: State, feed: int): Option<Icon> {
    if feed in s.cache then Some(s.cache[feed]) else None
  }

  function Register(s: State, t: int, feed: int): State {
    At(s, t, Loading(feed)).(loads := s.loads[feed := t], ready := s.ready[t := false])
  }

  function Next(s: State, a: Step): State
    requires Enabled(s, a)
  {
    match a
    case Call(t, feed) => At(s, t, Start(feed))
    case CheckCache(t) =>
      var feed := s.calls[t].feed;
      At(s, t, if feed in s.cache then Done(feed, CacheHit(s, feed)) else Missed(feed))
    case LookUp(t) =>
      var feed := s.calls[t].feed;
      At(s, t, if feed in s.loads then Waiting(feed, s.loads[feed]) else Fresh(feed))
    case Insert(t) =>
      var feed := s.calls[t].feed;
      if feed in s.loads then At(s, t, Start(feed)) else Register(s, t, feed)
    case Enter(t) =>
      var feed := s.calls[t].feed;
      if feed in s.cache then At(s, t, Done(feed, CacheHit(s, feed)))
      else if feed in s.loads then At(s, t, Waiting(feed, s.loads[feed]))
      else Register(s, t, feed)
    case FinishLoad(t, result) =>
      var feed := s.calls[t].feed;
      if result.None? then At(s, t, Cleaning(feed, None))
      else At(s, t, Loaded(feed, result.value)).(
        loaded := s.loaded + {(feed, result.value)}, succeeded := s.succeeded + {feed})
    case Store(t) =>
      var pc := s.calls[t];
      At(s, t, Cleaning(pc.feed, Some(pc.icon))).(cache := s.cache[pc.feed := pc.icon])
    case Deregister(t) =>
      At(s, t, Removed(s.calls[t].feed, s.calls[t].result)).(loads := s.loads - {s.calls[t].feed})
    case SetReady(t) =>
      At(s, t, Readied(s.calls[t].feed, s.calls[t].result)).(ready := s.ready[t := true])
    case NotifyAll(t) =>
      var woken := map u | u in s.calls ::
        if s.calls[u].Sleeping? && s.calls[u].leader == t
        then Waiting(s.calls[u].feed, t) else s.calls[u];
      s.(calls := woken[t := Done(s.calls[t].feed, s.calls[t].result)])
    case CheckReady(t) =>
      var pc := s.calls[t];
      At(s, t, if s.ready[pc.leader] then Released(pc.feed) else Sleeping(pc.feed, pc.leader))
    case Wake(t) => At(s, t, Waiting(s.calls[t].feed, s.calls[t].leader))
    case Expire(t) => At(s, t, Done(s.calls[t].feed, None))
    case ReadResult(t) => At(s, t, Done(s.calls[t].feed, CacheHit(s, s.calls[t].feed)))
  }

  function Initial(style: Style): State {
    State(style, map[], map[], map[], map[], {}, {})
  }

  // ---- Invariant ------------------------------------------------------------

  /** The load of a call is registered and may be running. */
  predicate InFlight(pc: Pc) {
    pc.Loading? || pc.Loaded? || pc.Cleaning?
  }

  predicate LoadsMatch(s: State) {
    && (forall f :: f in s.loads ==>
          s.loads[f] in s.calls && InFlight(s.calls[s.loads[f]]) && s.calls[s.loads[f]].feed == f)
    && (forall t :: t in s.calls && InFlight(s.calls[t]) ==>
          s.calls[t].feed in s.loads && s.loads[s.calls[t].feed] == t)
  }

  predicate ReadyMatches(s: State) {
    && (forall t :: t in s.ready ==> t in s.calls)
    && (forall t :: t in s.calls ==>
          (InFlight(s.calls[t]) || s.calls[t].Removed? <==> t in s.ready && !s.ready[t]))
    && (forall t :: t in s.calls && s.calls[t].Readied? ==> t in s.ready)
  }

  /** A waiter's leader exists; while the waiter sleeps it has yet to notify. */
  predicate WaitersLed(s: State) {
    forall t :: t in s.calls && (s.calls[t].Waiting? || s.calls[t].Sleeping?) ==>
      && s.calls[t].leader in s.ready
      && (s.calls[t].Sleeping? ==>
            s.calls[t].leader in s.calls
            && (var pc := s.calls[s.calls[t].leader]; InFlight(pc) || pc.Removed? || pc.Readied?))
  }

  /** Only results of successful loads are cached or returned. */
  predicate OnlySuccesses(s: State) {
    && (forall f :: f in s.cache ==> (f, s.cache[f]) in s.loaded)
    && (forall t :: t in s.calls && s.calls[t].Loaded? ==> (s.calls[t].feed, s.calls[t].icon) in s.loaded)
    && (forall t :: t in s.calls && HasResult(s.calls[t]) ==> (s.calls[t].feed, s.calls[t].result.value) in s.loaded)
  }

  predicate HasResult(pc: Pc) {
    (pc.Cleaning? || pc.Removed? || pc.Readied? || pc.Done?) && pc.result.Some?
  }

  /** A feed that ever loaded is cached, or its load is about to be. */
  predicate SuccessesVisible(s: State) {
    forall f :: f in s.succeeded ==>
      f in s.cache || (f in s.loads && s.loads[f] in s.calls && s.calls[s.loads[f]].Loaded?)
  }

  predicate Inv(s: State) {
    && LoadsMatch(s) && ReadyMatches(s) && WaitersLed(s)
    && OnlySuccesses(s) && SuccessesVisible(s) && LoadedSucceeded(s)
  }

  lemma MoveKeepsLoads(s: State, t: int, pc: Pc)
    requires LoadsMatch(s) && (t in s.calls && InFlight(s.calls[t]) <==> InFlight(pc))
    requires InFlight(pc) ==> s.calls[t].feed == pc.feed
    ensures LoadsMatch(At(s, t, pc))
  {
  }

  lemma RegisterKeepsLoads(s: State, t: int, feed: int)
    requires LoadsMatch(s) && t in s.calls && !InFlight(s.calls[t]) && feed !in s.loads
    ensures LoadsMatch(Register(s, t, feed))
  {
  }

  lemma StepKeepsLoads(s: State, a: Step)
    requires LoadsMatch(s) && Enabled(s, a)
    ensures LoadsMatch(Next(s, a))
  {
    match a
    case Insert(_) | Enter(_) =>
      var t := a.t;
      if Next(s, a).calls[t].Loading? {
        RegisterKeepsLoads(s, t, s.calls[t].feed);
      } else {
        MoveKeepsLoads(s, t, Next(s, a).calls[t]);
      }
    case Deregister(_) | NotifyAll(_) =>
    case _ => MoveKeepsLoads(s, a.t, Next(s, a).calls[a.t]);
  }

  /** A call that still owes its slot the ready flag or a notification. */
  predicate Owes(pc: Pc) {
    InFlight(pc) || pc.Removed? || pc.Readied?
  }

  lemma MoveKeepsReady(s: State, t: int, pc: Pc)
    requires ReadyMatches(s) && (InFlight(pc) || pc.Removed? <==> t in s.ready && !s.ready[t])
    requires pc.Readied? ==> t in s.ready
    ensures ReadyMatches(At(s, t, pc))
  {
  }

  lemma RegisterKeepsReady(s: State, t: int, feed: int)
    requires ReadyMatches(s) && t in s.calls
    ensures ReadyMatches(Register(s, t, feed))
  {
  }

  lemma RaiseKeepsReady(s: State, t: int)
    requires ReadyMatches(s) && Enabled(s, SetReady(t))
    ensures ReadyMatches(Next(s, SetReady(t)))
  {
  }

  lemma NotifyKeepsReady(s: State, t: int)
    requires ReadyMatches(s) && Enabled(s, NotifyAll(t))
    ensures ReadyMatches(Next(s, NotifyAll(t)))
  {
  }

  lemma StepKeepsReady(s: State, a: Step)
    requires ReadyMatches(s) && Enabled(s, a)
    ensures ReadyMatches(Next(s, a))
  {
    match a
    case NotifyAll(t) => NotifyKeepsReady(s, t);
    case SetReady(t) => RaiseKeepsReady(s, t);
    case Insert(_) | Enter(_) =>
      if Next(s, a).calls[a.t].Loading? {
        RegisterKeepsReady(s, a.t, s.calls[a.t].feed);
      } else {
        MoveKeepsReady(s, a.t, Next(s, a).calls[a.t]);
      }
    case _ => MoveKeepsReady(s, a.t, Next(s, a).calls[a.t]);
  }

  lemma MoveKeepsWaiters(s: State, t: int, pc: Pc)
    requires WaitersLed(s) && (t in s.calls && Owes(s.calls[t]) ==> Owes(pc))
    requires pc.Waiting? || pc.Sleeping? ==> pc.leader in s.ready
    requires pc.Sleeping? ==> pc.leader in s.calls && pc.leader != t && Owes(s.calls[pc.leader])
    ensures WaitersLed(At(s, t, pc))
  {
  }

  lemma RegisterKeepsWaiters(s: State, t: int, feed: int)
    requires WaitersLed(s)
    ensures WaitersLed(Register(s, t, feed))
  {
  }

  lemma NotifyKeepsWaiters(s: State, t: int)
    requires WaitersLed(s) && Enabled(s, NotifyAll(t))
    ensures WaitersLed(Next(s, NotifyAll(t)))
  {
  }

  lemma JoinKeepsWaiters(s: State, t: int, feed: int)
    requires LoadsMatch(s) && ReadyMatches(s) && WaitersLed(s) && feed in s.loads
    requires t in s.calls && !Owes(s.calls[t])
    ensures WaitersLed(At(s, t, Waiting(feed, s.loads[feed])))
  {
    MoveKeepsWaiters(s, t, Waiting(feed, s.loads[feed]));
  }

  lemma StepKeepsWaiters(s: State, a: Step)
    requires LoadsMatch(s) && ReadyMatches(s) && WaitersLed(s) && Enabled(s, a)
    ensures WaitersLed(Next(s, a))
  {
    match a
    case NotifyAll(t) => NotifyKeepsWaiters(s, t);
    case LookUp(_) | Insert(_) | Enter(_) =>
      var pc := Next(s, a).calls[a.t];
      if pc.Loading? {
        RegisterKeepsWaiters(s, a.t, pc.feed);
      } else if pc.Waiting? {
        JoinKeepsWaiters(s, a.t, pc.feed);
      } else {
        MoveKeepsWaiters(s, a.t, pc);
      }
    case _ => MoveKeepsWaiters(s, a.t, Next(s, a).calls[a.t]);
  }

  lemma MoveKeepsResults(s: State, t: int, pc: Pc)
    requires OnlySuccesses(s)
    requires pc.Loaded? ==> (pc.feed, pc.icon) in s.loaded
    requires HasResult(pc) ==> (pc.feed, pc.result.value) in s.loaded
    ensures OnlySuccesses(At(s, t, pc))
  {
  }

  lemma FinishKeepsResults(s: State, t: int, icon: Icon)
    requires OnlySuccesses(s) && Enabled(s, FinishLoad(t, Some(icon)))
    ensures OnlySuccesses(Next(s, FinishLoad(t, Some(icon))))
  {
  }

  lemma NotifyKeepsResults(s: State, t: int)
    requires OnlySuccesses(s) && Enabled(s, NotifyAll(t))
    ensures OnlySuccesses(Next(s, NotifyAll(t)))
  {
  }

  lemma StepKeepsResults(s: State, a: Step)
    requires OnlySuccesses(s) && Enabled(s, a)
    ensures OnlySuccesses(Next(s, a))
  {
    match a
    case NotifyAll(t) => NotifyKeepsResults(s, t);
    case FinishLoad(t, result) =>
      if result.Some? {
        FinishKeepsResults(s, t, result.value);
      } else {
        MoveKeepsResults(s, t, Next(s, a).calls[t]);
      }
    case _ => MoveKeepsResults(s, a.t, Next(s, a).calls[a.t]);
  }

  lemma MoveKeepsVisible(s: State, t: int, pc: Pc)
    requires SuccessesVisible(s) && (t in s.calls && s.calls[t].Loaded? ==> s.calls[t].feed in s.cache)
    requires LoadsMatch(s)
    ensures SuccessesVisible(At(s, t, pc))
  {
  }

  lemma RegisterKeepsVisible(s: State, t: int, feed: int)
    requires SuccessesVisible(s) && feed !in s.loads && t in s.calls && !s.calls[t].Loaded?
    ensures SuccessesVisible(Register(s, t, feed))
  {
  }

  /** Finishing, storing, deregistering and notifying one load. */
  lemma LeaderKeepsVisible(s: State, a: Step)
    requires LoadsMatch(s) && SuccessesVisible(s) && Enabled(s, a)
    requires a.FinishLoad? || a.Store? || a.Deregister? || a.NotifyAll?
    ensures SuccessesVisible(Next(s, a))
  {
  }

  lemma StepKeepsVisible(s: State, a: Step)
    requires LoadsMatch(s) && SuccessesVisible(s) && Enabled(s, a)
    ensures SuccessesVisible(Next(s, a))
  {
    match a
    case FinishLoad(_, _) | Store(_) | Deregister(_) | NotifyAll(_) => LeaderKeepsVisible(s, a);
    case Insert(_) | Enter(_) =>
      if Next(s, a).calls[a.t].Loading? {
        RegisterKeepsVisible(s, a.t, s.calls[a.t].feed);
      } else {
        MoveKeepsVisible(s, a.t, Next(s, a).calls[a.t]);
      }
    case _ => MoveKeepsVisible(s, a.t, Next(s, a).calls[a.t]);
  }

  /** Every load that succeeded is remembered by its feed. */
  predicate LoadedSucceeded(s: State) {
    forall x :: x in s.loaded ==> x.0 in s.succeeded
  }

  lemma StepKeepsInv(s: State, a: Step)
    requires Inv(s) && Enabled(s, a)
    ensures Inv(Next(s, a)) && Next(s, a).style == s.style
  {
    StepKeepsLoads(s, a);
    StepKeepsReady(s, a);
    StepKeepsWaiters(s, a);
    StepKeepsResults(s, a);
    StepKeepsVisible(s, a);
  }

  predicate Legal(s: State, steps: seq<Step>)
    decreases |steps|, 0
  {
    steps != [] ==>
      var before := steps[..|steps| - 1];
      Legal(s, before) && Enabled(Reached(s, before), steps[|steps| - 1])
  }

  function Reached(s: State, steps: seq<Step>): State
    requires Legal(s, steps)
    decreases |steps|, 1
  {
    if steps == [] then s else Next(Reached(s, steps[..|steps| - 1]), steps[|steps| - 1])
  }

  lemma {:induction false} RunKeepsInv(style: Style, steps: seq<Step>)
    requires Legal(Initial(style), steps)
    ensures Inv(Reached(Initial(style), steps)) && Reached(Initial(style), steps).style == style
  {
    if steps != [] {
      RunKeepsInv(style, steps[..|steps| - 1]);
      StepKeepsInv(Reached(Initial(style), steps[..|steps| - 1]), steps[|steps| - 1]);
    }
  }

  /** In every interleaving a feed has at most one load in flight, and whatever a
      call returns or the cache holds came from a successful load of that feed. */
  lemma SingleFlight(style: Style, steps: seq<Step>, t: int, u: int)
    requires Legal(Initial(style), steps)
    ensures var s := Reached(Initial(style), steps);
            && (t in s.calls && u in s.calls && InFlight(s.calls[t]) && InFlight(s.calls[u]) ==>
                  (s.calls[t].feed == s.calls[u].feed ==> t == u))
            && (t in s.calls && s.calls[t].Done? && s.calls[t].result.Some? ==>
                  (s.calls[t].feed, s.calls[t].result.value) in s.loaded)
            && (forall f :: f in s.cache ==> (f, s.cache[f]) in s.loaded)
  {
    RunKeepsInv(style, steps);
  }

  // ---- Every waiter is released -------------------------------------------------

  /** What a leader still does, whichever way its load ends: a panic and an error
      both arrive here as a load without a result. */
  function LeaderSteps(pc: Pc, t: int, result: Option<Icon>): seq<Step> {
    match pc
    case Loading(_) =>
      if result.None? then [FinishLoad(t, None), Deregister(t), SetReady(t), NotifyAll(t)]
      else [FinishLoad(t, result), Store(t), Deregister(t), SetReady(t), NotifyAll(t)]
    case Loaded(_, _) => [Store(t), Deregister(t), SetReady(t), NotifyAll(t)]
    case Cleaning(_, _) => [Deregister(t), SetReady(t), NotifyAll(t)]
    case Removed(_, _) => [SetReady(t), NotifyAll(t)]
    case Readied(_, _) => [NotifyAll(t)]
    case _ => []
  }

  lemma Extend(s: State, steps: seq<Step>, a: Step)
    requires Legal(s, steps) && Enabled(Reached(s, steps), a)
    ensures Legal(s, steps + [a]) && Reached(s, steps + [a]) == Next(Reached(s, steps), a)
  {
    assert (steps + [a])[..|steps|] == steps;
  }

  predicate Sleeper(s: State, u: int, t: int) {
    u in s.calls && s.calls[u].Sleeping? && s.calls[u].leader == t
  }

  predicate Freed(s: State, u: int, t: int) {
    u in s.calls && s.calls[u].Waiting? && s.calls[u].leader == t && t in s.ready && s.ready[t]
  }

  predicate Leads(s: State, t: int) {
    && t in s.calls && (InFlight(s.calls[t]) || s.calls[t].Removed? || s.calls[t].Readied?)
    && (s.calls[t].Readied? ==> t in s.ready && s.ready[t])
  }

  lemma LeaderStep(s: State, t: int, u: int, result: Option<Icon>)
    requires Leads(s, t) && Sleeper(s, u, t)
    ensures var steps := LeaderSteps(s.calls[t], t, result);
            && steps != [] && Enabled(s, steps[0])
            && (if steps[0].NotifyAll? then |steps| == 1 && Freed(Next(s, steps[0]), u, t)
                else var after := Next(s, steps[0]);
                     Leads(after, t) && Sleeper(after, u, t) && LeaderSteps(after.calls[t], t, result) == steps[1..])
  {
  }

  /** The leader's remaining steps, and nothing else, wake every sleeper with the
      slot ready, so its next check lets it go. */
  lemma {:induction false} LeaderFreesSleeper(s: State, before: seq<Step>, t: int, u: int, result: Option<Icon>)
    requires Legal(s, before) && Leads(Reached(s, before), t) && Sleeper(Reached(s, before), u, t)
    ensures var steps := before + LeaderSteps(Reached(s, before).calls[t], t, result);
            Legal(s, steps) && Freed(Reached(s, steps), u, t)
    decreases |LeaderSteps(Reached(s, before).calls[t], t, result)|
  {
    var r := Reached(s, before);
    var steps := LeaderSteps(r.calls[t], t, result);
    LeaderStep(r, t, u, result);
    Extend(s, before, steps[0]);
    if steps[0].NotifyAll? {
      assert before + steps == before + [steps[0]];
    } else {
      assert before + [steps[0]] + steps[1..] == before + steps;
      LeaderFreesSleeper(s, before + [steps[0]], t, u, result);
    }
  }

  /** Left to itself, the leader of a sleeping call frees it, whatever happens to the load. */
  lemma EveryWaiterIsReleased(style: Style, steps: seq<Step>, u: int, result: Option<Icon>)
    requires Legal(Initial(style), steps)
    requires var s := Reached(Initial(style), steps); u in s.calls && s.calls[u].Sleeping?
    ensures var s := Reached(Initial(style), steps);
            && s.calls[u].leader in s.calls
            && var all := steps + LeaderSteps(s.calls[s.calls[u].leader], s.calls[u].leader, result);
               Legal(Initial(style), all) && Freed(Reached(Initial(style), all), u, s.calls[u].leader)
  {
    RunKeepsInv(style, steps);
    var s := Reached(Initial(style), steps);
    LeaderFreesSleeper(Initial(style), steps, s.calls[u].leader, u, result);
  }

  // ---- Under every schedule --------------------------------------------------------

  /** The steps a leader has left until its waiters are free. */
  function Rank(pc: Pc): nat {
    match pc
    case Loading(_) => 5
    case Loaded(_, _) => 4
    case Cleaning(_, _) => 3
    case Removed(_, _) => 2
    case Readied(_, _) => 1
    case _ => 0
  }

  /** A step of call `t` towards releasing its waiters. */
  predicate LeaderTurn(a: Step, t: int) {
    (a.FinishLoad? || a.Store? || a.Deregister? || a.SetReady? || a.NotifyAll?) && a.t == t
  }

  function LeaderTurns(steps: seq<Step>, t: int): nat {
    if steps == [] then 0
    else LeaderTurns(steps[..|steps| - 1], t) + if LeaderTurn(steps[|steps| - 1], t) then 1 else 0
  }

  /** The slot of `t` is ready for good and nobody sleeps on it. */
  predicate SlotOpen(s: State, t: int) {
    && t in s.calls && s.calls[t].Done? && t in s.ready && s.ready[t]
    && forall u :: u in s.calls ==> !Sleeper(s, u, t)
  }

  predicate OnTrack(s: State, t: int, budget: int) {
    SlotOpen(s, t) || (t in s.calls && Owes(s.calls[t]) && Rank(s.calls[t]) <= budget)
  }

  /** The next step of a leader that has one. */
  function NextTurn(pc: Pc, t: int, result: Option<Icon>): Step
    requires Owes(pc)
  {
    match pc
    case Loading(_) => FinishLoad(t, result)
    case Loaded(_, _) => Store(t)
    case Cleaning(_, _) => Deregister(t)
    case Removed(_, _) => SetReady(t)
    case Readied(_, _) => NotifyAll(t)
  }

  lemma SlotStaysOpen(s: State, a: Step, t: int)
    requires Enabled(s, a) && SlotOpen(s, t)
    ensures SlotOpen(Next(s, a), t)
  {
    assert !Sleeper(s, a.t, t);
  }

  lemma OwedStep(s: State, a: Step, t: int)
    requires Inv(s) && Enabled(s, a) && t in s.calls && Owes(s.calls[t])
    ensures OnTrack(Next(s, a), t, Rank(s.calls[t]) - if LeaderTurn(a, t) then 1 else 0)
  {
    if a == NotifyAll(t) {
      assert s.ready[t];
    }
  }

  lemma TrackStep(s: State, a: Step, t: int, budget: int)
    requires Inv(s) && Enabled(s, a) && OnTrack(s, t, budget)
    ensures Inv(Next(s, a)) && OnTrack(Next(s, a), t, budget - if LeaderTurn(a, t) then 1 else 0)
  {
    StepKeepsInv(s, a);
    if SlotOpen(s, t) {
      SlotStaysOpen(s, a, t);
    } else {
      OwedStep(s, a, t);
    }
  }

  lemma {:induction false} RankFalls(s: State, steps: seq<Step>, t: int)
    requires Inv(s) && t in s.calls && Owes(s.calls[t]) && Legal(s, steps)
    ensures Inv(Reached(s, steps)) && OnTrack(Reached(s, steps), t, Rank(s.calls[t]) - LeaderTurns(steps, t))
  {
    if steps != [] {
      var before := steps[..|steps| - 1];
      RankFalls(s, before, t);
      TrackStep(Reached(s, before), steps[|steps| - 1], t, Rank(s.calls[t]) - LeaderTurns(before, t));
    }
  }

  predicate Waiter(s: State, u: int, t: int) {
    u in s.calls && s.calls[u].Waiting? && s.calls[u].leader == t
  }

  /** A waiter's next check of an open slot lets it go. */
  lemma OpenSlotLetsGo(s: State, u: int, t: int)
    requires SlotOpen(s, t) && Waiter(s, u, t)
    ensures Enabled(s, CheckReady(u)) && Next(s, CheckReady(u)).calls[u].Released?
  {
  }

  lemma OwingCanGoOn(s: State, t: int, result: Option<Icon>)
    requires t in s.calls && Owes(s.calls[t])
    ensures Enabled(s, NextTurn(s.calls[t], t, result)) && LeaderTurn(NextTurn(s.calls[t], t, result), t)
    ensures 1 <= Rank(s.calls[t]) <= 5
  {
  }

  /** In every interleaving, whichever way its load ends, a leader releases its
      waiters with at most five steps of its own: no other call sets it back, and
      it can always go on. From then on nobody sleeps on its slot, and the next
      check of any waiter lets it go. */
  lemma EveryScheduleReleases(s: State, steps: seq<Step>, t: int, result: Option<Icon>)
    requires Inv(s) && t in s.calls && Owes(s.calls[t]) && Legal(s, steps)
    ensures var r := Reached(s, steps);
            && (SlotOpen(r, t) || (
                  && t in r.calls && Owes(r.calls[t]) && Enabled(r, NextTurn(r.calls[t], t, result))
                  && Rank(r.calls[t]) + LeaderTurns(steps, t) <= Rank(s.calls[t])))
            && (LeaderTurns(steps, t) >= 5 ==> SlotOpen(r, t))
            && (forall u :: SlotOpen(r, t) && Waiter(r, u, t) ==>
                  Enabled(r, CheckReady(u)) && Next(r, CheckReady(u)).calls[u].Released?)
  {
    var r := Reached(s, steps);
    RankFalls(s, steps, t);
    OwingCanGoOn(s, t, result);
    if !SlotOpen(r, t) {
      OwingCanGoOn(r, t, result);
    }
    forall u | SlotOpen(r, t) && Waiter(r, u, t)
      ensures Enabled(r, CheckReady(u)) && Next(r, CheckReady(u)).calls[u].Released?
    {
      OpenSlotLetsGo(r, u, t);
    }
  }

  /** Every sleeping call has a leader that still owes its slot, and five steps of
      that leader, interleaved with anything, free it. */
  lemma EverySleeperIsFreed(style: Style, steps: seq<Step>, more: seq<Step>, u: int)
    requires Legal(Initial(style), steps) && Legal(Reached(Initial(style), steps), more)
    requires var s := Reached(Initial(style), steps); u in s.calls && s.calls[u].Sleeping?
    ensures var s := Reached(Initial(style), steps);
            var t := s.calls[u].leader;
            && t in s.calls && Owes(s.calls[t])
            && (LeaderTurns(more, t) >= 5 ==> SlotOpen(Reached(s, more), t) && !Sleeper(Reached(s, more), u, t))
  {
    RunKeepsInv(style, steps);
    var s := Reached(Initial(style), steps);
    EveryScheduleReleases(s, more, s.calls[u].leader, None);
  }

  // ---- Loading again after a success ----------------------------------------------

  /** A step that starts a load of a feed that was loaded before. */
  predicate StartsRedundantLoad(s: State, a: Step)
    requires Enabled(s, a)
  {
    (a.Insert? || a.Enter?) && s.calls[a.t].feed in s.succeeded && Next(s, a).calls[a.t].Loading?
  }

  ghost predicate RedundantRun(style: Style, steps: seq<Step>, a: Step) {
    && Legal(Initial(style), steps) && Enabled(Reached(Initial(style), steps), a)
    && StartsRedundantLoad(Reached(Initial(style), steps), a)
  }

  /** A registration starts a redundant load exactly when the feed was cached
      meanwhile and no other load of it is registered: the one check the code
      does not repeat while it holds the load table. */
  lemma RedundantInsertExactly(steps: seq<Step>, t: int)
    requires Legal(Initial(Stepwise), steps) && Enabled(Reached(Initial(Stepwise), steps), Insert(t))
    ensures var s := Reached(Initial(Stepwise), steps);
            StartsRedundantLoad(s, Insert(t)) <==> s.calls[t].feed !in s.loads && s.calls[t].feed in s.cache
  {
    RunKeepsInv(Stepwise, steps);
    var s := Reached(Initial(Stepwise), steps);
    assert s.calls[t].feed in s.cache ==> (s.calls[t].feed, s.cache[s.calls[t].feed]) in s.loaded;
  }

  /** Since call `t` last looked into the cache, the feed's icon was stored. */
  predicate StoredSinceLook(steps: seq<Step>, t: int, feed: int)
    requires Legal(Initial(Stepwise), steps)
  {
    steps != [] &&
    var before, last := steps[..|steps| - 1], steps[|steps| - 1];
    last != CheckCache(t)
    && ((last.Store? && Reached(Initial(Stepwise), before).calls[last.t].feed == feed)
        || StoredSinceLook(before, t, feed))
  }

  /** A call past a cache miss, not yet leading or waiting. */
  predicate PastMiss(s: State, t: int, feed: int) {
    t in s.calls && (s.calls[t] == Missed(feed) || s.calls[t] == Fresh(feed))
  }

  lemma {:induction false} CachedSinceLook(steps: seq<Step>, t: int, feed: int)
    requires Legal(Initial(Stepwise), steps) && PastMiss(Reached(Initial(Stepwise), steps), t, feed)
    ensures feed in Reached(Initial(Stepwise), steps).cache <==> StoredSinceLook(steps, t, feed)
  {
    if steps != [] {
      var before, last := steps[..|steps| - 1], steps[|steps| - 1];
      MissOrigin(Reached(Initial(Stepwise), before), last, t, feed);
      if last != CheckCache(t) {
        CachedSinceLook(before, t, feed);
      }
    }
  }

  lemma MissOrigin(s: State, a: Step, t: int, feed: int)
    requires Enabled(s, a) && PastMiss(Next(s, a), t, feed)
    ensures a == CheckCache(t) ==> feed !in Next(s, a).cache
    ensures a != CheckCache(t) ==>
              && PastMiss(s, t, feed)
              && (feed in Next(s, a).cache <==> feed in s.cache || (a.Store? && s.calls[a.t].feed == feed))
  {
  }

  /** In the Rust service a call loads an icon again exactly when the icon was
      stored after the call had looked into the cache and that load is no longer
      registered; a call whose look came later never does. */
  lemma RedundantLoadByHistory(steps: seq<Step>, t: int)
    requires Legal(Initial(Stepwise), steps) && Enabled(Reached(Initial(Stepwise), steps), Insert(t))
    ensures var s := Reached(Initial(Stepwise), steps);
            var feed := s.calls[t].feed;
            StartsRedundantLoad(s, Insert(t)) <==> feed !in s.loads && StoredSinceLook(steps, t, feed)
  {
    RedundantInsertExactly(steps, t);
    CachedSinceLook(steps, t, Reached(Initial(Stepwise), steps).calls[t].feed);
  }

  /** Checking cache and loads under one lock is what rules a redundant load out:
      with separate locks some run performs one. */
  lemma RedundantLoadsExactly(style: Style)
    ensures (exists steps, a :: RedundantRun(style, steps, a)) <==> style == Stepwise
  {
    if style == Stepwise {
      StepwiseLoadsTwice();
    } else {
      forall steps, a ensures !RedundantRun(style, steps, a) {
        if Legal(Initial(style), steps) {
          RunKeepsInv(style, steps);
        }
      }
    }
  }

  lemma StepwiseLoadsTwice()
    ensures exists steps, a :: RedundantRun(Stepwise, steps, a)
  {
    var s := Initial(Stepwise);
    var slow := [Call(1, 7), CheckCache(1), LookUp(1)];
    Extend(s, [], slow[0]);
    assert [] + [slow[0]] == [slow[0]];
    Extend(s, [slow[0]], slow[1]);
    Extend(s, [slow[0]] + [slow[1]], slow[2]);
    var one := [slow[0]] + [slow[1]] + [slow[2]];
    Extend(s, one, Call(2, 7));
    Extend(s, one + [Call(2, 7)], CheckCache(2));
    Extend(s, one + [Call(2, 7)] + [CheckCache(2)], LookUp(2));
    var two := one + [Call(2, 7)] + [CheckCache(2)] + [LookUp(2)];
    Extend(s, two, Insert(2));
    Extend(s, two + [Insert(2)], FinishLoad(2, Some("icon")));
    Extend(s, two + [Insert(2)] + [FinishLoad(2, Some("icon"))], Store(2));
    var three := two + [Insert(2)] + [FinishLoad(2, Some("icon"))] + [Store(2)];
    Extend(s, three, Deregister(2));
    assert RedundantRun(Stepwise, three + [Deregister(2)], Insert(1));
  }

  // ---- What a call returns ------------------------------------------------------

  predicate Ended(s: State, u: int) {
    u in s.calls && s.calls[u].Done?
  }

  /** A call ends without an icon exactly when its time is over, its own load brought
      none, or the load it waited for left none in the cache. */
  lemma EndsWithoutIconExactly(s: State, a: Step, u: int)
    requires Enabled(s, a) && !Ended(s, u) && Ended(Next(s, a), u)
    ensures Next(s, a).calls[u].result.None? <==>
            || a == Expire(u)
            || (a == NotifyAll(u) && s.calls[u].result.None?)
            || (a == ReadResult(u) && s.calls[u].feed !in s.cache)
  {
  }

  /** A sleeper that wakes, for whatever reason, may check again or give up. */
  lemma WokenMayGoOn(s: State, u: int, t: int)
    requires Sleeper(s, u, t) && t in s.ready
    ensures Enabled(s, Wake(u)) && Waiter(Next(s, Wake(u)), u, t)
    ensures Enabled(Next(s, Wake(u)), CheckReady(u)) && Enabled(Next(s, Wake(u)), Expire(u))
  {
  }

  /** An icon that a call ends with is the cached one, or that of its own load. */
  lemma EndsWithIcon(s: State, a: Step, u: int)
    requires Enabled(s, a) && !Ended(s, u) && Ended(Next(s, a), u) && Next(s, a).calls[u].result.Some?
    ensures var icon, feed := Next(s, a).calls[u].result.value, s.calls[u].feed;
            if a == NotifyAll(u) then s.calls[u].result == Some(icon)
            else feed in s.cache && icon == s.cache[feed]
  {
  }

  /** A waiter waits for a load of its own feed. */
  predicate SameFeeds(s: State) {
    forall u :: u in s.calls && (s.calls[u].Waiting? || s.calls[u].Sleeping?) ==>
      s.calls[u].leader in s.calls && s.calls[s.calls[u].leader].feed == s.calls[u].feed
  }

  /** What a load brought is cached before its slot opens. */
  predicate ResultsCached(s: State) {
    forall t :: t in s.calls && HasResult(s.calls[t]) ==> s.calls[t].feed in s.cache
  }

  /** With one lock a feed is loaded only while it is not cached, so every result of
      a feed is the cached one. */
  predicate LoadedOnce(s: State) {
    s.style.OneLock? ==>
      && (forall t :: t in s.calls && (s.calls[t].Loading? || s.calls[t].Loaded?) ==> s.calls[t].feed !in s.cache)
      && (forall t :: t in s.calls && HasResult(s.calls[t]) ==>
            s.calls[t].feed in s.cache && s.cache[s.calls[t].feed] == s.calls[t].result.value)
  }

  lemma FeedsStay(s: State, a: Step)
    requires Enabled(s, a)
    ensures forall u :: u in s.calls ==> u in Next(s, a).calls && Next(s, a).calls[u].feed == s.calls[u].feed
  {
  }

  /** Only looking up a load makes a call a waiter of a new leader. */
  lemma LeaderComesFromLoads(s: State, a: Step, u: int)
    requires Enabled(s, a) && u in Next(s, a).calls
    requires Next(s, a).calls[u].Waiting? || Next(s, a).calls[u].Sleeping?
    ensures var pc := Next(s, a).calls[u];
            && u in s.calls
            && ((pc.feed in s.loads && pc.leader == s.loads[pc.feed])
                || ((s.calls[u].Waiting? || s.calls[u].Sleeping?) && s.calls[u].leader == pc.leader))
  {
  }

  lemma StepKeepsFeeds(s: State, a: Step)
    requires LoadsMatch(s) && SameFeeds(s) && Enabled(s, a)
    ensures SameFeeds(Next(s, a))
  {
    var after := Next(s, a);
    FeedsStay(s, a);
    forall u | u in after.calls && (after.calls[u].Waiting? || after.calls[u].Sleeping?)
      ensures after.calls[u].leader in after.calls
      ensures after.calls[after.calls[u].leader].feed == after.calls[u].feed
    {
      LeaderComesFromLoads(s, a, u);
      assert after.calls[u].feed == s.calls[u].feed && after.calls[u].leader in s.calls;
    }
  }

  lemma StepKeepsCached(s: State, a: Step)
    requires ResultsCached(s) && Enabled(s, a)
    ensures ResultsCached(Next(s, a)) && s.cache.Keys <= Next(s, a).cache.Keys
  {
  }

  lemma StepKeepsLoadedOnce(s: State, a: Step)
    requires LoadsMatch(s) && LoadedOnce(s) && Enabled(s, a)
    ensures LoadedOnce(Next(s, a))
    ensures s.style.OneLock? ==> forall f :: f in s.cache ==> f in Next(s, a).cache && Next(s, a).cache[f] == s.cache[f]
  {
  }

  lemma {:induction false} RunKeepsResults(style: Style, steps: seq<Step>)
    requires Legal(Initial(style), steps)
    ensures var s := Reached(Initial(style), steps); SameFeeds(s) && ResultsCached(s) && LoadedOnce(s)
  {
    if steps != [] {
      var before, last := steps[..|steps| - 1], steps[|steps| - 1];
      RunKeepsResults(style, before);
      RunKeepsInv(style, before);
      StepKeepsFeeds(Reached(Initial(style), before), last);
      StepKeepsCached(Reached(Initial(style), before), last);
      StepKeepsLoadedOnce(Reached(Initial(style), before), last);
    }
  }

  /** What is cached stays cached, and with one lock unchanged. */
  lemma {:induction false} CacheGrows(s: State, steps: seq<Step>, f: int)
    requires Inv(s) && SameFeeds(s) && ResultsCached(s) && LoadedOnce(s) && Legal(s, steps) && f in s.cache
    ensures var r := Reached(s, steps);
            && Inv(r) && SameFeeds(r) && ResultsCached(r) && LoadedOnce(r) && r.style == s.style
            && f in r.cache && (s.style.OneLock? ==> r.cache[f] == s.cache[f])
            && forall u :: u in s.calls ==> u in r.calls && r.calls[u].feed == s.calls[u].feed
  {
    if steps != [] {
      var before, last := steps[..|steps| - 1], steps[|steps| - 1];
      CacheGrows(s, before, f);
      var u := Reached(s, before);
      StepKeepsInv(u, last);
      StepKeepsFeeds(u, last);
      FeedsStay(u, last);
      StepKeepsCached(u, last);
      StepKeepsLoadedOnce(u, last);
      assert f in u.cache.Keys;
    }
  }

  /** In every run a waiter whose leader's load brought an icon returns one for its
      feed, however long it takes to read it: the cached one, and with one lock
      exactly the leader's. */
  lemma WaiterReturnsLeadersIcon(style: Style, steps: seq<Step>, more: seq<Step>, u: int, t: int)
    requires Legal(Initial(style), steps) && Legal(Reached(Initial(style), steps), more)
    requires var s := Reached(Initial(style), steps);
             u in s.calls && Waiter(s, u, t) && t in s.calls && HasResult(s.calls[t])
    requires Enabled(Reached(Reached(Initial(style), steps), more), ReadResult(u))
    ensures var s := Reached(Initial(style), steps);
            var r := Reached(s, more);
            var feed := s.calls[u].feed;
            && s.calls[t].feed == feed && feed in r.cache
            && Next(r, ReadResult(u)).calls[u] == Done(feed, Some(r.cache[feed]))
            && (feed, r.cache[feed]) in r.loaded
            && (style == OneLock ==> r.cache[feed] == s.calls[t].result.value)
  {
    RunKeepsInv(style, steps);
    RunKeepsResults(style, steps);
    var s := Reached(Initial(style), steps);
    CacheGrows(s, more, s.calls[u].feed);
  }

  lemma RegisteredAgain(loads: map<int, int>, feed: int, t: int)
    requires feed !in loads
    ensures loads[feed := t] - {feed} == loads
  {
  }

  // ---- The service in memory ----------------------------------------------------

  /** The cache, the load table and the ready flags of the slots; where each call
      stands is ghost. Every method is one critical section. */
  class IconService {
    var cache: map<int, Icon>
    var loads: map<int, int>
    var ready: map<int, bool>
    ghost var rest: State

    ghost function Now(): State
      reads this
    {
      rest.(cache := cache, loads := loads, ready := ready)
    }

    constructor (ghost style: Style)
      ensures Now() == Initial(style) && Inv(Now())
    {
      cache, loads, ready, rest := map[], map[], map[], Initial(style);
    }

    method LookInCache(t: int, feed: int) returns (icon: Option<Icon>)
      requires Inv(Now()) && Enabled(Now(), CheckCache(t)) && rest.calls[t] == Start(feed)
      modifies this
      ensures Now() == Next(old(Now()), CheckCache(t)) && Inv(Now())
      ensures icon == CacheHit(old(Now()), feed)
    {
      StepKeepsInv(Now(), CheckCache(t));
      icon := if feed in cache then Some(cache[feed]) else None;
      rest := At(rest, t, if icon.Some? then Done(feed, icon) else Missed(feed));
    }

    method FindLoad(t: int, feed: int) returns (slot: Option<int>)
      requires Inv(Now()) && Enabled(Now(), LookUp(t)) && rest.calls[t] == Missed(feed)
      modifies this
      ensures Now() == Next(old(Now()), LookUp(t)) && Inv(Now())
      ensures slot == if feed in loads then Some(loads[feed]) else None
    {
      StepKeepsInv(Now(), LookUp(t));
      slot := if feed in loads then Some(loads[feed]) else None;
      rest := At(rest, t, if slot.Some? then Waiting(feed, slot.value) else Fresh(feed));
    }

    /** Registers a new slot unless another call got there first. */
    method RegisterLoad(t: int, feed: int) returns (leads: bool)
      requires Inv(Now()) && Enabled(Now(), Insert(t)) && rest.calls[t] == Fresh(feed)
      modifies this
      ensures Now() == Next(old(Now()), Insert(t)) && Inv(Now())
      ensures leads <==> feed !in old(loads)
      ensures leads ==> loads == old(loads)[feed := t] && t in ready && !ready[t]
    {
      StepKeepsInv(Now(), Insert(t));
      leads := feed !in loads;
      if leads {
        loads, ready := loads[feed := t], ready[t := false];
        rest := At(rest, t, Loading(feed));
      } else {
        rest := At(rest, t, Start(feed));
      }
    }

    method StoreIcon(t: int, feed: int, icon: Icon)
      requires Inv(Now()) && Enabled(Now(), Store(t)) && rest.calls[t] == Loaded(feed, icon)
      modifies this
      ensures Now() == Next(old(Now()), Store(t)) && Inv(Now())
      ensures cache == old(cache)[feed := icon]
    {
      StepKeepsInv(Now(), Store(t));
      cache := cache[feed := icon];
      rest := At(rest, t, Cleaning(feed, Some(icon)));
    }

    method RemoveLoad(t: int, feed: int)
      requires Inv(Now()) && Enabled(Now(), Deregister(t)) && rest.calls[t].feed == feed
      modifies this
      ensures Now() == Next(old(Now()), Deregister(t)) && Inv(Now())
      ensures loads == old(loads) - {feed}
    {
      StepKeepsInv(Now(), Deregister(t));
      loads := loads - {feed};
      rest := At(rest, t, Removed(feed, rest.calls[t].result));
    }

    method RaiseReady(t: int)
      requires Inv(Now()) && Enabled(Now(), SetReady(t))
      modifies this
      ensures Now() == Next(old(Now()), SetReady(t)) && Inv(Now())
      ensures ready == old(ready)[t := true]
    {
      StepKeepsInv(Now(), SetReady(t));
      ready := ready[t := true];
      rest := At(rest, t, Readied(rest.calls[t].feed, rest.calls[t].result));
    }

    method WakeAll(t: int)
      requires Inv(Now()) && Enabled(Now(), NotifyAll(t))
      modifies this`rest
      ensures Now() == Next(old(Now()), NotifyAll(t)) && Inv(Now()) && SlotOpen(Now(), t)
    {
      StepKeepsInv(Now(), NotifyAll(t));
      OwedStep(Now(), NotifyAll(t), t);
      rest := Next(Now(), NotifyAll(t));
    }

    /** A whole call that no other call interrupts; `loaded` is what its load brings
        if it leads one. A call that finds a load registered would wait for it. */
    method FeedIcon(t: int, feed: int, loaded: Option<Icon>) returns (icon: Option<Icon>, waits: bool)
      requires Inv(Now()) && Now().style.Stepwise? && t !in Now().calls
      modifies this
      ensures Inv(Now()) && loads == old(loads)
      ensures waits <==> feed !in old(cache) && feed in old(loads)
      ensures icon == if feed in old(cache) then Some(old(cache)[feed]) else if waits then None else loaded
      ensures cache == if feed in old(cache) || waits || loaded.None? then old(cache)
                       else old(cache)[feed := loaded.value]
      ensures feed !in old(cache) && !waits ==> SlotOpen(Now(), t)
    {
      StepKeepsInv(Now(), Call(t, feed));
      rest := Next(Now(), Call(t, feed));
      icon := LookInCache(t, feed);
      if icon.Some? {
        return icon, false;
      }
      icon, waits := JoinOrLead(t, feed, loaded);
    }

    /** The rest of a call after a cache miss. */
    method JoinOrLead(t: int, feed: int, loaded: Option<Icon>) returns (icon: Option<Icon>, waits: bool)
      requires Inv(Now()) && Enabled(Now(), LookUp(t)) && rest.calls[t] == Missed(feed)
      modifies this
      ensures Inv(Now()) && loads == old(loads)
      ensures waits <==> feed in old(loads)
      ensures icon == if waits then None else loaded
      ensures cache == if waits || loaded.None? then old(cache) else old(cache)[feed := loaded.value]
      ensures !waits ==> SlotOpen(Now(), t)
    {
      var slot := FindLoad(t, feed);
      if slot.Some? {
        return None, true;
      }
      var leads := RegisterLoad(t, feed);
      RegisteredAgain(old(loads), feed, t);
      LeadLoad(t, feed, loaded);
      icon, waits := loaded, false;
    }

    /** What a leader does with the result of its load. */
    method LeadLoad(t: int, feed: int, loaded: Option<Icon>)
      requires Inv(Now()) && t in Now().calls && Now().calls[t] == Loading(feed)
      modifies this
      ensures Inv(Now()) && loads == old(loads) - {feed}
      ensures cache == if loaded.None? then old(cache) else old(cache)[feed := loaded.value]
      ensures SlotOpen(Now(), t)
    {
      StepKeepsInv(Now(), FinishLoad(t, loaded));
      rest := Next(Now(), FinishLoad(t, loaded));
      if loaded.Some? {
        StoreIcon(t, feed, loaded.value);
      }
      DropGuard(t, feed, loaded);
    }

    /** Dropping the guard: deregister, raise the flag, wake everyone. */
    method DropGuard(t: int, feed: int, ghost result: Option<Icon>)
      requires Inv(Now()) && t in rest.calls && rest.calls[t] == Cleaning(feed, result)
      modifies this
      ensures Inv(Now()) && loads == old(loads) - {feed} && cache == old(cache)
      ensures SlotOpen(Now(), t)
    {
      RemoveLoad(t, feed);
      RaiseReady(t);
      WakeAll(t);
    }
  }
}
