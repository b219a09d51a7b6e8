/** Configuring the runtime: stale generations are ignored and an account keeps
    one engine, hence one gate, for as long as anything still uses it. */
module Runtime {
  import opened Collections
  import opened Domain

  datatype Session = Session(account: string, generation: int, engine: nat)

  /** A weak registry entry. */
  datatype Registration = Registration(account: string, engine: nat)

  /** `handles` counts the strong references of running work; `owner` remembers
      the account of every engine that was ever published. */
  datatype Registry = Registry(
    session: Option<Session>, services: seq<Registration>, handles: map<nat, nat>, owner: map<nat, string>)

  predicate Alive(r: Registry, engine: nat) {
    || (r.session.Some? && r.session.value.engine == engine)
    || (engine in r.handles && r.handles[engine] > 0)
  }

  function Find(services: seq<Registration>, account: string): Option<nat> {
    if services == [] then None
    else if services[0].account == account then Some(services[0].engine)
    else Find(services[1..], account)
  }

  function Retained(r: Registry, services: seq<Registration>, account: string): seq<Registration> {
    if services == [] then []
    else
      var last := services[|services| - 1];
      var front := Retained(r, services[..|services| - 1], account);
      if last.account == account || Alive(r, last.engine) then front + [last] else front
  }

  function Register(services: seq<Registration>, account: string, engine: nat): seq<Registration> {
    if services == [] then [Registration(account, engine)]
    else if services[0].account == account then [Registration(account, engine)] + services[1..]
    else [services[0]] + Register(services[1..], account, engine)
  }

  /** One look of the search for the account's registration. */
  lemma RegisterAt(list: seq<Registration>, i: nat, account: string, engine: nat)
    requires i < |list|
    ensures var rest := Register(list[i..], account, engine);
            if list[i].account == account
            then list[..i] + rest == list[i := Registration(account, engine)]
            else list[..i] + rest == list[..i + 1] + Register(list[i + 1..], account, engine)
  {
    var tail, head := list[i + 1..], list[..i];
    assert list[i..] == [list[i]] + tail && list[i..][1..] == tail;
    if list[i].account == account {
      assert head + ([Registration(account, engine)] + tail) == list[i := Registration(account, engine)];
    } else {
      var registered := Register(tail, account, engine);
      assert list[..i + 1] == head + [list[i]];
      assert head + ([list[i]] + registered) == (head + [list[i]]) + registered;
    }
  }

  /** The engine a configuration publishes: the registered one while it lives. */
  function Chosen(r: Registry, account: string, candidate: nat): nat {
    var found := Find(r.services, account);
    if found.Some? && Alive(r, found.value) then found.value else candidate
  }

  function AfterConfigure(r: Registry, account: string, generation: int, candidate: nat): Registry {
    if r.session.Some? && generation < r.session.value.generation then r
    else
      var engine := Chosen(r, account, candidate);
      Registry(
        Some(Session(account, generation, engine)),
        Register(Retained(r, r.services, account), account, engine),
        r.handles, r.owner[engine := account])
  }

  class AppRuntime {
    var session: Option<Session>
    var services: seq<Registration>
    var handles: map<nat, nat>
    ghost var owner: map<nat, string>

    ghost function State(): Registry
      reads this
    {
      Registry(session, services, handles, owner)
    }

    predicate Live(engine: nat)
      reads this
    {
      || (session.Some? && session.value.engine == engine)
      || (engine in handles && handles[engine] > 0)
    }

    constructor ()
      ensures State() == Registry(None, [], map[], map[])
    {
      session, services, handles, owner := None, [], map[], map[];
    }

    /** `candidate` is the engine built before the session lock is taken. */
    method Configure(account: string, generation: int, candidate: nat)
      modifies this
      ensures State() == AfterConfigure(old(State()), account, generation, candidate)
    {
      if session.Some? && generation < session.value.generation {
        return;
      }
      var found := FindEngine(account);
      var engine := if found.Some? && Live(found.value) then found.value else candidate;
      var kept := DropDead(account);
      services := Publish(kept, account, engine);
      session := Some(Session(account, generation, engine));
      owner := owner[engine := account];
    }

    method FindEngine(account: string) returns (found: Option<nat>)
      ensures found == Find(services, account)
    {
      for i := 0 to |services|
        invariant Find(services, account) == Find(services[i..], account)
      {
        if services[i].account == account {
          return Some(services[i].engine);
        }
        assert services[i..][1..] == services[i + 1..];
      }
      found := None;
    }

    /** Drops the dead registrations of other accounts. */
    method DropDead(account: string) returns (kept: seq<Registration>)
      ensures kept == Retained(State(), services, account)
    {
      kept := [];
      for i := 0 to |services|
        invariant kept == Retained(State(), services[..i], account)
      {
        assert services[..i + 1][..i] == services[..i];
        if services[i].account == account || Live(services[i].engine) {
          kept := kept + [services[i]];
        }
      }
      assert services[..|services|] == services;
    }

    /** Replaces the account's registration in place or appends one. */
    static method Publish(list: seq<Registration>, account: string, engine: nat) returns (result: seq<Registration>)
      ensures result == Register(list, account, engine)
    {
      for i := 0 to |list|
        invariant Register(list, account, engine) == list[..i] + Register(list[i..], account, engine)
      {
        RegisterAt(list, i, account, engine);
        if list[i].account == account {
          return list[i := Registration(account, engine)];
        }
      }
      assert list[..|list|] == list && list[|list|..] == [];
      result := list + [Registration(account, engine)];
    }

    /** Work that starts on the current session takes a reference to its engine. */
    method Borrow() returns (engine: Option<nat>)
      modifies this`handles
      ensures engine == if session.Some? then Some(session.value.engine) else None
      ensures State() == if session.Some? then Cloned(old(State()), session.value.engine) else old(State())
    {
      if session.None? {
        return None;
      }
      var e := session.value.engine;
      handles := handles[e := (if e in handles then handles[e] else 0) + 1];
      engine := Some(e);
    }

    method Release(engine: nat)
      requires engine in handles && handles[engine] > 0
      modifies this`handles
      ensures State() == Dropped(old(State()), engine)
    {
      handles := handles[engine := handles[engine] - 1];
    }
  }

  function Cloned(r: Registry, engine: nat): Registry {
    r.(handles := r.handles[engine := (if engine in r.handles then r.handles[engine] else 0) + 1])
  }

  function Dropped(r: Registry, engine: nat): Registry
    requires engine in r.handles && r.handles[engine] > 0
  {
    r.(handles := r.handles[engine := r.handles[engine] - 1])
  }

  // ---- Invariant --------------------------------------------------------------

  predicate OneEntryPerAccount(services: seq<Registration>) {
    forall i, j :: 0 <= i < j < |services| ==> services[i].account != services[j].account
  }

  /** Every published engine that is still referenced is the registered engine of
      its account, and each account is registered once. */
  predicate Inv(r: Registry) {
    && OneEntryPerAccount(r.services)
    && (r.session.Some? ==>
          r.session.value.engine in r.owner && r.owner[r.session.value.engine] == r.session.value.account)
    && (forall e :: e in r.handles && r.handles[e] > 0 ==> e in r.owner)
    && (forall e :: e in r.owner && Alive(r, e) ==> Registration(r.owner[e], e) in r.services)
    && (forall x :: x in r.services ==> x.engine in r.owner && r.owner[x.engine] == x.account)
  }

  lemma {:induction false} FindRegistered(services: seq<Registration>, account: string)
    ensures var found := Find(services, account);
            && (found.Some? ==> Registration(account, found.value) in services)
            && (found.None? ==> forall x :: x in services ==> x.account != account)
  {
    if services != [] {
      FindRegistered(services[1..], account);
      assert services == [services[0]] + services[1..];
    }
  }

  lemma {:induction false} RetainedMembers(r: Registry, services: seq<Registration>, account: string)
    requires OneEntryPerAccount(services)
    ensures OneEntryPerAccount(Retained(r, services, account))
    ensures forall x :: x in Retained(r, services, account) <==>
              x in services && (x.account == account || Alive(r, x.engine))
  {
    if services != [] {
      var front, last := services[..|services| - 1], services[|services| - 1];
      RetainedMembers(r, front, account);
      assert services == front + [last];
      forall x | x in Retained(r, front, account) ensures x.account != last.account {
        assert x in front;
      }
    }
  }

  lemma {:induction false} RegisterMembers(services: seq<Registration>, account: string, engine: nat)
    requires OneEntryPerAccount(services)
    ensures OneEntryPerAccount(Register(services, account, engine))
    ensures forall x :: x in Register(services, account, engine) <==>
              x == Registration(account, engine) || (x in services && x.account != account)
  {
    if services != [] {
      var head, tail := services[0], services[1..];
      assert services == [head] + tail;
      assert forall x :: x in tail ==> x.account != head.account;
      if head.account != account {
        RegisterMembers(tail, account, engine);
        PrependKeepsOneEntry(head, Register(tail, account, engine));
      } else {
        PrependKeepsOneEntry(Registration(account, engine), tail);
      }
    }
  }

  lemma PrependKeepsOneEntry(head: Registration, tail: seq<Registration>)
    requires OneEntryPerAccount(tail)
    requires forall x :: x in tail ==> x.account != head.account
    ensures OneEntryPerAccount([head] + tail)
    ensures forall x :: x in [head] + tail <==> x == head || x in tail
  {
  }

  /** A configuration, with a freshly built candidate, keeps the registry sound
      and never lowers the generation. */
  lemma ConfigureKeepsInv(r: Registry, account: string, generation: int, candidate: nat)
    requires Inv(r) && candidate !in r.owner
    ensures var after := AfterConfigure(r, account, generation, candidate);
            && Inv(after)
            && after.session.Some?
            && after.session.value.generation ==
               (if r.session.Some? then Max(r.session.value.generation, generation) else generation)
            && (r.session.None? || generation >= r.session.value.generation ==> after.session.value.account == account)
  {
    if r.session.None? || generation >= r.session.value.generation {
      var kept, engine := Retained(r, r.services, account), Chosen(r, account, candidate);
      var after := AfterConfigure(r, account, generation, candidate);
      FindRegistered(r.services, account);
      RetainedMembers(r, r.services, account);
      RegisterMembers(kept, account, engine);
      assert Registration(account, engine) in after.services;
      forall e | e in after.owner && Alive(after, e) ensures Registration(after.owner[e], e) in after.services {
        if e != engine {
          assert Registration(r.owner[e], e) in r.services;
          SameAccountSameEngine(r, e, account);
        }
      }
    }
  }

  /** A live engine of an account is the one that would be chosen again. */
  lemma SameAccountSameEngine(r: Registry, e: nat, account: string)
    requires Inv(r) && e in r.owner && Alive(r, e)
    ensures r.owner[e] == account ==> Find(r.services, account) == Some(e)
  {
    if r.owner[e] == account {
      FindRegistered(r.services, account);
      var found := Find(r.services, account);
      assert Registration(account, e) in r.services;
      var i :| 0 <= i < |r.services| && r.services[i] == Registration(account, e);
      var j :| 0 <= j < |r.services| && r.services[j] == Registration(account, found.value);
    }
  }

  /** Both engines were published, for one account. */
  predicate SameAccount(r: Registry, d: nat, e: nat) {
    d in r.owner && e in r.owner && r.owner[d] == r.owner[e]
  }

  /** At most one published engine per account is ever alive. */
  lemma OneLiveEngine(r: Registry, d: nat, e: nat)
    requires Inv(r) && SameAccount(r, d, e) && Alive(r, d) && Alive(r, e)
    ensures d == e
  {
    SameAccountSameEngine(r, d, r.owner[d]);
    SameAccountSameEngine(r, e, r.owner[d]);
  }

  /** While work for an account runs, configuring it again hands out the engine
      that work uses, so both go through one gate. */
  lemma RunningWorkSharesItsGate(r: Registry, account: string, generation: int, candidate: nat, e: nat)
    requires Inv(r) && candidate !in r.owner && e in r.owner && r.owner[e] == account && Alive(r, e)
    requires r.session.Some? ==> generation >= r.session.value.generation
    ensures AfterConfigure(r, account, generation, candidate).session == Some(Session(account, generation, e))
  {
    SameAccountSameEngine(r, e, account);
  }

  // ---- Every run ----------------------------------------------------------------

  datatype Event =
    | Configured(account: string, generation: int, candidate: nat)
    | Took(engine: nat)      // from the session or from a reference already held
    | Gave(engine: nat)

  predicate Possible(r: Registry, e: Event) {
    match e
    case Configured(_, _, candidate) => candidate !in r.owner
    case Took(engine) => engine in r.owner && Alive(r, engine)
    case Gave(engine) => engine in r.handles && r.handles[engine] > 0
  }

  function Happen(r: Registry, e: Event): Registry
    requires Possible(r, e)
  {
    match e
    case Configured(account, generation, candidate) => AfterConfigure(r, account, generation, candidate)
    case Took(engine) => Cloned(r, engine)
    case Gave(engine) => Dropped(r, engine)
  }

  predicate Legal(events: seq<Event>)
    decreases |events|, 0
  {
    events != [] ==>
      Legal(events[..|events| - 1]) && Possible(Reached(events[..|events| - 1]), events[|events| - 1])
  }

  function Reached(events: seq<Event>): Registry
    requires Legal(events)
    decreases |events|, 1
  {
    if events == [] then Registry(None, [], map[], map[])
    else Happen(Reached(events[..|events| - 1]), events[|events| - 1])
  }

  /** The latest configuration among those with the highest generation. */
  function Winner(events: seq<Event>): Option<Event> {
    if events == [] then None
    else
      var last, earlier := events[|events| - 1], Winner(events[..|events| - 1]);
      if last.Configured?
         && (earlier.None? || !earlier.value.Configured? || last.generation >= earlier.value.generation)
      then Some(last) else earlier
  }

  /** An event keeps the registry sound; only a configuration moves the session. */
  lemma EventKeepsInv(r: Registry, e: Event)
    requires Inv(r) && Possible(r, e)
    ensures Inv(Happen(r, e))
    ensures !e.Configured? ==> Happen(r, e).session == r.session
  {
    if e.Configured? {
      ConfigureKeepsInv(r, e.account, e.generation, e.candidate);
    }
  }

  ghost predicate OneGatePerAccount(r: Registry) {
    forall d, e :: SameAccount(r, d, e) && Alive(r, d) && Alive(r, e) ==> d == e
  }

  lemma InvMeansOneGate(r: Registry)
    requires Inv(r)
    ensures OneGatePerAccount(r)
  {
    forall d, e | SameAccount(r, d, e) && Alive(r, d) && Alive(r, e) ensures d == e {
      OneLiveEngine(r, d, e);
    }
  }

  /** In any order of configurations and running work, the session belongs to the
      winner and every account has at most one live engine. */
  lemma {:induction false} EveryRunHasOneGate(events: seq<Event>)
    requires Legal(events)
    ensures Inv(Reached(events)) && OneGatePerAccount(Reached(events))
    ensures match Winner(events)
            case None => Reached(events).session.None?
            case Some(w) =>
              && w.Configured? && Reached(events).session.Some?
              && Reached(events).session.value.generation == w.generation
              && Reached(events).session.value.account == w.account
  {
    if events != [] {
      var front, last := events[..|events| - 1], events[|events| - 1];
      EveryRunHasOneGate(front);
      var r := Reached(front);
      EventKeepsInv(r, last);
      if last.Configured? {
        ConfigureKeepsInv(r, last.account, last.generation, last.candidate);
      }
    }
    InvMeansOneGate(Reached(events));
  }

  /** The last of the configurations with the highest generation. */
  ghost predicate LastHighest(events: seq<Event>, w: int) {
    && 0 <= w < |events| && events[w].Configured?
    && (forall j :: 0 <= j < w && events[j].Configured? ==> events[j].generation <= events[w].generation)
    && (forall j :: w < j < |events| && events[j].Configured? ==> events[j].generation < events[w].generation)
  }

  /** The winner has the maximum generation, and no later event ties with it. */
  lemma {:induction false} WinnerIsLastHighest(events: seq<Event>, e: Event) returns (w: int)
    requires e in events && e.Configured?
    ensures LastHighest(events, w) && Winner(events) == Some(events[w])
  {
    var front, last := events[..|events| - 1], events[|events| - 1];
    assert events == front + [last];
    WinnerConfigured(front);
    w := |front|;
    if Winner(front).Some? {
      var v := WinnerIsLastHighest(front, Winner(front).value);
      if Winner(events) != Some(last) {
        w := v;
      }
    } else if e in front {
      WinnerIsMaximal(front, e);
    }
    if w == |front| {
      forall j | 0 <= j < |front| && front[j].Configured? ensures front[j].generation <= last.generation {
        WinnerIsMaximal(front, front[j]);
      }
    }
  }

  /** The winner's generation is the maximum submitted. */
  lemma {:induction false} WinnerIsMaximal(events: seq<Event>, e: Event)
    requires e in events && e.Configured?
    ensures var w := Winner(events); w.Some? && w.value.Configured? && e.generation <= w.value.generation
  {
    var front, last := events[..|events| - 1], events[|events| - 1];
    assert events == front + [last];
    if e in front {
      WinnerIsMaximal(front, e);
    } else if front != [] {
      WinnerConfigured(front);
    }
  }

  lemma {:induction false} WinnerConfigured(events: seq<Event>)
    ensures Winner(events).Some? ==> Winner(events).value in events && Winner(events).value.Configured?
  {
    if events != [] {
      WinnerConfigured(events[..|events| - 1]);
    }
  }

  /** After an accepted configuration the registry holds the published engine and
      exactly the live ones of other accounts. */
  lemma ServicesExactly(r: Registry, account: string, generation: int, candidate: nat, x: Registration)
    requires Inv(r) && (r.session.Some? ==> generation >= r.session.value.generation)
    ensures var after := AfterConfigure(r, account, generation, candidate);
            && after.session.Some? && after.handles == r.handles
            && (x in after.services <==>
                  || x == Registration(account, after.session.value.engine)
                  || (x in r.services && x.account != account && Alive(r, x.engine)))
  {
    RetainedMembers(r, r.services, account);
    RegisterMembers(Retained(r, r.services, account), account, Chosen(r, account, candidate));
  }

  // ---- What running work keeps alive ---------------------------------------------

  function Takes(events: seq<Event>, e: nat): nat {
    if events == [] then 0 else Takes(events[..|events| - 1], e) + if events[|events| - 1] == Took(e) then 1 else 0
  }

  function Gives(events: seq<Event>, e: nat): nat {
    if events == [] then 0 else Gives(events[..|events| - 1], e) + if events[|events| - 1] == Gave(e) then 1 else 0
  }

  /** Some work took the engine and has not given it back. */
  predicate InUse(events: seq<Event>, e: nat) {
    Takes(events, e) > Gives(events, e)
  }

  predicate Current(events: seq<Event>, e: nat)
    requires Legal(events)
  {
    Reached(events).session.Some? && Reached(events).session.value.engine == e
  }

  /** In every run the references to an engine are those taken and not given back. */
  lemma {:induction false} HandlesAreLedger(events: seq<Event>, e: nat)
    requires Legal(events)
    ensures var handles := Reached(events).handles;
            (if e in handles then handles[e] else 0) == Takes(events, e) - Gives(events, e)
  {
    if events != [] {
      HandlesAreLedger(events[..|events| - 1], e);
    }
  }

  /** Alive is exactly: in use by running work, or the session's own engine. */
  lemma AliveExactly(events: seq<Event>, e: nat)
    requires Legal(events)
    ensures Alive(Reached(events), e) <==> InUse(events, e) || Current(events, e)
  {
    HandlesAreLedger(events, e);
  }

  /** The engine was the session's at some time, for this account. */
  predicate Published(events: seq<Event>, e: nat, account: string)
    requires Legal(events)
  {
    events != [] &&
    (Published(events[..|events| - 1], e, account)
     || (Current(events, e) && Reached(events).session.value.account == account))
  }

  lemma {:induction false} OwnerIsPublished(events: seq<Event>, e: nat, account: string)
    requires Legal(events)
    ensures e in Reached(events).owner && Reached(events).owner[e] == account <==> Published(events, e, account)
  {
    EveryRunHasOneGate(events);
    if events != [] {
      var front, last := events[..|events| - 1], events[|events| - 1];
      OwnerIsPublished(front, e, account);
      EveryRunHasOneGate(front);
      if last.Configured? {
        ChosenOwner(Reached(front), last.account, last.candidate);
      }
    }
  }

  lemma ChosenOwner(r: Registry, account: string, candidate: nat)
    requires Inv(r) && candidate !in r.owner
    ensures var e := Chosen(r, account, candidate); e in r.owner ==> r.owner[e] == account
  {
    FindRegistered(r.services, account);
  }

  predicate Accepted(events: seq<Event>, generation: int)
    requires Legal(events)
  {
    Reached(events).session.Some? ==> generation >= Reached(events).session.value.generation
  }

  /** An engine of the account that must not be replaced. */
  predicate Busy(events: seq<Event>, e: nat, account: string)
    requires Legal(events)
  {
    Published(events, e, account) && (InUse(events, e) || Current(events, e))
  }

  /** In every run an accepted configuration publishes the one engine of its account
      that is in use or current, and a new one exactly if there is none; a stale
      configuration changes nothing. */
  lemma NextEngineExactly(events: seq<Event>, account: string, generation: int, candidate: nat, e: nat)
    requires Legal(events) && candidate !in Reached(events).owner
    ensures var next := Configured(account, generation, candidate);
            && Legal(events + [next])
            && var session := Reached(events + [next]).session;
               if Accepted(events, generation) then
                 && session.Some? && session.value.account == account && session.value.generation == generation
                 && (Busy(events, e, account) ==> session.value.engine == e)
                 && (session.value.engine != candidate ==> Busy(events, session.value.engine, account))
                 && !Busy(events, candidate, account)
               else Reached(events + [next]) == Reached(events)
  {
    var next := Configured(account, generation, candidate);
    assert (events + [next])[..|events|] == events;
    EveryRunHasOneGate(events);
    var r := Reached(events);
    var chosen := Chosen(r, account, candidate);
    OwnerIsPublished(events, e, account);
    OwnerIsPublished(events, candidate, account);
    OwnerIsPublished(events, chosen, account);
    AliveExactly(events, e);
    AliveExactly(events, chosen);
    FindRegistered(r.services, account);
    if Busy(events, e, account) {
      SameAccountSameEngine(r, e, account);
    }
  }
}
