/** Marking articles read as they scroll past: what had to be seen before. */
module Scrollover {
  import opened Collections
  import opened Domain

  /** A standardized rectangle: width and height are not negative. */
  datatype Rect = Rect(x: real, y: real, width: real, height: real) {
    function MaxX(): real { x + width }
    function MaxY(): real { y + height }
    function MidY(): real { y + height / 2.0 }
  }

  datatype Configuration = Configuration(
    minimumVisibleFraction: real, minimumVisibleDuration: real, maximumViewportJumpFraction: real)

  const DEFAULT := Configuration(0.60, 0.70, 0.85)

  datatype Exposure = Exposure(
    visibleSince: Option<real>, qualified: bool, processedFrame: Rect, currentFrame: Rect)

  type Exposures = map<int, Exposure>

  function MinReal(a: real, b: real): real { if b < a then b else a }
  function MaxReal(a: real, b: real): real { if a < b then b else a }

  function IntersectionHeight(a: Rect, b: Rect): real {
    var top, bottom := MaxReal(a.y, b.y), MinReal(a.MaxY(), b.MaxY());
    if bottom < top || MinReal(a.MaxX(), b.MaxX()) < MaxReal(a.x, b.x) then 0.0 else bottom - top
  }

  function VisibleFraction(frame: Rect, viewport: Rect): real {
    if frame.height <= 0.0 then 0.0
    else MaxReal(0.0, IntersectionHeight(frame, viewport) / frame.height)
  }

  // ---- The tracker's transitions --------------------------------------------

  function Seen(c: Configuration, e: Exposure, frame: Rect, fraction: real, time: real): Exposure {
    if fraction >= c.minimumVisibleFraction then
      var since := if e.visibleSince.Some? then e.visibleSince.value else time;
      Exposure(Some(since), e.qualified || time - since >= c.minimumVisibleDuration, e.processedFrame, frame)
    else if !e.qualified then e.(visibleSince := None, currentFrame := frame)
    else e.(currentFrame := frame)
  }

  function Known(exposures: Exposures, id: int, frame: Rect): Exposure {
    if id in exposures then exposures[id] else Exposure(None, false, frame, frame)
  }

  function Fractions(frames: map<int, Rect>, viewport: Rect, unread: set<int>): map<int, real> {
    map id | id in frames && id in unread :: VisibleFraction(frames[id], viewport)
  }

  function Observed(
      c: Configuration, exposures: Exposures, frames: map<int, Rect>, viewport: Rect,
      unread: set<int>, time: real): Exposures {
    map id | id in exposures.Keys + frames.Keys && id in unread ::
      if id in frames
      then Seen(c, Known(exposures, id, frames[id]), frames[id], VisibleFraction(frames[id], viewport), time)
      else exposures[id]
  }

  function Rebased(exposures: Exposures, frames: map<int, Rect>, unread: set<int>): Exposures {
    map id | id in exposures && id in unread ::
      if id in frames then exposures[id].(processedFrame := frames[id], currentFrame := frames[id])
      else exposures[id]
  }

  /** The row crossed the top edge, or vanished from the upper half. */
  predicate PassedTop(e: Exposure, id: int, frames: map<int, Rect>, viewport: Rect) {
    if id in frames then e.processedFrame.MaxY() > viewport.y && frames[id].MaxY() <= viewport.y
    else e.currentFrame.MidY() < viewport.MidY()
  }

  function Marked(exposures: Exposures, frames: map<int, Rect>, viewport: Rect, unread: set<int>): set<int> {
    set id | id in exposures && exposures[id].qualified && id in unread
      && PassedTop(exposures[id], id, frames, viewport)
  }

  predicate Accepts(c: Configuration, viewport: Rect, delta: real, userInitiated: bool) {
    userInitiated && delta > 0.0 && delta <= viewport.height * c.maximumViewportJumpFraction
  }

  function Settled(exposures: Exposures): Exposures {
    map id | id in exposures :: exposures[id].(processedFrame := exposures[id].currentFrame)
  }

  // ---- What the tracker has been shown ----------------------------------------

  datatype Event =
    | Looked(time: real, fractions: map<int, real>)   // the unread rows shown, with fractions
    | Kept(ids: set<int>)                             // every other exposure is dropped
    | Taken(ids: set<int>)                            // marked read and dropped

  predicate Drops(e: Event, id: int) {
    match e
    case Looked(_, _) => false
    case Kept(ids) => id !in ids
    case Taken(ids) => id in ids
  }

  predicate Shows(e: Event, id: int) {
    e.Looked? && id in e.fractions
  }

  predicate Visible(c: Configuration, e: Event, id: int) {
    Shows(e, id) && e.fractions[id] >= c.minimumVisibleFraction
  }

  /** From event `i` on, `id` was never dropped. */
  predicate Undropped(log: seq<Event>, id: int, i: nat) {
    forall k :: i <= k < |log| ==> !Drops(log[k], id)
  }

  /** `id` was visible in every look that showed it between two events. */
  predicate VisibleThroughout(c: Configuration, log: seq<Event>, id: int, i: nat, j: nat) {
    forall k :: i <= k <= j && k < |log| ==> (Shows(log[k], id) ==> Visible(c, log[k], id))
  }

  /** A stretch of visibility that starts at event `i` and still lasts. */
  predicate Lasting(c: Configuration, log: seq<Event>, id: int, i: nat) {
    && i < |log| && Visible(c, log[i], id)
    && Undropped(log, id, i) && VisibleThroughout(c, log, id, i, |log|)
  }

  /** Two looks far enough apart, visible in every look between them, no drop since. */
  predicate Qualifies(c: Configuration, log: seq<Event>, id: int, i: nat, j: nat) {
    && i <= j < |log| && Visible(c, log[i], id) && Visible(c, log[j], id)
    && log[j].time - log[i].time >= c.minimumVisibleDuration
    && Undropped(log, id, i) && VisibleThroughout(c, log, id, i, j)
  }

  ghost predicate SinceJustified(c: Configuration, log: seq<Event>, id: int, since: real) {
    exists i: nat :: Lasting(c, log, id, i) && log[i].time == since
  }

  ghost predicate Qualified(c: Configuration, log: seq<Event>, id: int) {
    exists i: nat, j: nat :: Qualifies(c, log, id, i, j)
  }

  /** Everything the tracker remembers is justified by what it was shown. */
  ghost predicate Justified(c: Configuration, exposures: Exposures, log: seq<Event>) {
    forall id :: id in exposures ==>
      && (exposures[id].qualified ==> Qualified(c, log, id))
      && (!exposures[id].qualified && exposures[id].visibleSince.Some? ==>
            SinceJustified(c, log, id, exposures[id].visibleSince.value))
  }

  lemma LookExtendsLasting(c: Configuration, log: seq<Event>, e: Event, id: int, i: nat)
    requires e.Looked? && Lasting(c, log, id, i) && (Shows(e, id) ==> Visible(c, e, id))
    ensures Lasting(c, log + [e], id, i)
  {
  }

  lemma LookExtendsQualifies(c: Configuration, log: seq<Event>, e: Event, id: int, i: nat, j: nat)
    requires !Drops(e, id) && Qualifies(c, log, id, i, j)
    ensures Qualifies(c, log + [e], id, i, j)
  {
  }

  lemma SeenJustified(c: Configuration, exposures: Exposures, log: seq<Event>, id: int, frame: Rect, e: Event)
    requires Justified(c, exposures, log) && e.Looked? && Shows(e, id)
    ensures var seen := Seen(c, Known(exposures, id, frame), frame, e.fractions[id], e.time);
            && (seen.qualified ==> Qualified(c, log + [e], id))
            && (!seen.qualified && seen.visibleSince.Some? ==>
                  SinceJustified(c, log + [e], id, seen.visibleSince.value))
  {
    var known := Known(exposures, id, frame);
    var log' := log + [e];
    var n := |log|;
    assert log'[n] == e;
    if known.qualified {
      var i, j :| Qualifies(c, log, id, i, j);
      LookExtendsQualifies(c, log, e, id, i, j);
    } else if Visible(c, e, id) {
      if known.visibleSince.Some? {
        var i: nat :| Lasting(c, log, id, i) && log[i].time == known.visibleSince.value;
        LookExtendsLasting(c, log, e, id, i);
        assert log'[i] == log[i];
        if e.time - known.visibleSince.value >= c.minimumVisibleDuration {
          assert Qualifies(c, log', id, i, n);
        }
      } else {
        assert Lasting(c, log', id, n);
        if 0.0 >= c.minimumVisibleDuration {
          assert Qualifies(c, log', id, n, n);
        }
      }
    }
  }

  // ---- And everything it was shown is remembered --------------------------------

  /** Time does not run backwards between looks. */
  predicate Monotone(log: seq<Event>) {
    forall k, l :: 0 <= k <= l < |log| && log[k].Looked? && log[l].Looked? ==> log[k].time <= log[l].time
  }

  ghost predicate TimeOf(log: seq<Event>, time: real) {
    exists k :: 0 <= k < |log| && log[k].Looked? && log[k].time == time
  }

  ghost predicate Remembered(c: Configuration, exposures: Exposures, log: seq<Event>) {
    && (forall id :: id in exposures && exposures[id].visibleSince.Some? ==>
          TimeOf(log, exposures[id].visibleSince.value))
    && (forall id, i: nat :: Lasting(c, log, id, i) ==>
          && id in exposures && exposures[id].visibleSince.Some?
          && exposures[id].visibleSince.value <= log[i].time)
    && (forall id :: Qualified(c, log, id) ==> id in exposures && exposures[id].qualified)
  }

  lemma LastingBefore(c: Configuration, log: seq<Event>, e: Event, id: int, i: nat)
    requires Lasting(c, log + [e], id, i) && i < |log|
    ensures Lasting(c, log, id, i) && !Drops(e, id) && (Shows(e, id) ==> Visible(c, e, id))
  {
    var log' := log + [e];
    assert log'[|log|] == e;
    assert !Drops(log'[|log|], id) && (Shows(log'[|log|], id) ==> Visible(c, log'[|log|], id));
    assert forall k :: 0 <= k < |log| ==> log'[k] == log[k];
  }

  lemma QualifiesBefore(c: Configuration, log: seq<Event>, e: Event, id: int, i: nat, j: nat)
    requires Qualifies(c, log + [e], id, i, j) && j < |log|
    ensures Qualifies(c, log, id, i, j) && !Drops(e, id)
  {
    var log' := log + [e];
    assert log'[|log|] == e;
    assert !Drops(log'[|log|], id);
    assert forall k :: 0 <= k < |log| ==> log'[k] == log[k];
  }

  /** The newest look completes a qualifying stretch of an earlier look. */
  lemma QualifiesNow(c: Configuration, log: seq<Event>, e: Event, id: int, i: nat)
    requires Qualifies(c, log + [e], id, i, |log|) && i < |log|
    ensures Lasting(c, log, id, i) && Visible(c, e, id) && e.time - log[i].time >= c.minimumVisibleDuration
  {
    var log' := log + [e];
    assert log'[|log|] == e && log'[i] == log[i];
    assert forall k :: 0 <= k < |log| ==> log'[k] == log[k];
  }

  lemma MonotonePast(log: seq<Event>, e: Event, time: real)
    requires Monotone(log + [e]) && e.Looked? && TimeOf(log, time)
    ensures time <= e.time
  {
    var k :| 0 <= k < |log| && log[k].Looked? && log[k].time == time;
    var log' := log + [e];
    assert log'[k] == log[k] && log'[|log|] == e;
  }

  lemma TimesStay(log: seq<Event>, e: Event, time: real)
    requires TimeOf(log, time)
    ensures TimeOf(log + [e], time)
  {
    var k :| 0 <= k < |log| && log[k].Looked? && log[k].time == time;
    assert (log + [e])[k] == log[k];
  }

  /** One look, before rows that are no longer unread are dropped. */
  function Looking(
      c: Configuration, exposures: Exposures, frames: map<int, Rect>, viewport: Rect,
      unread: set<int>, time: real): Exposures {
    map id | id in exposures.Keys + Fractions(frames, viewport, unread).Keys ::
      if id in Fractions(frames, viewport, unread)
      then Seen(c, Known(exposures, id, frames[id]), frames[id], Fractions(frames, viewport, unread)[id], time)
      else exposures[id]
  }

  function Keeping(exposures: Exposures, ids: set<int>): Exposures {
    map id | id in exposures && id in ids :: exposures[id]
  }

  lemma LookThenKeep(
      c: Configuration, exposures: Exposures, frames: map<int, Rect>, viewport: Rect, unread: set<int>, time: real)
    ensures Observed(c, exposures, frames, viewport, unread, time) ==
            Keeping(Looking(c, exposures, frames, viewport, unread, time), unread)
  {
  }

  lemma LookJustified(
      c: Configuration, exposures: Exposures, log: seq<Event>,
      frames: map<int, Rect>, viewport: Rect, unread: set<int>, time: real)
    requires Justified(c, exposures, log)
    ensures Justified(c, Looking(c, exposures, frames, viewport, unread, time),
                      log + [Looked(time, Fractions(frames, viewport, unread))])
  {
    var e := Looked(time, Fractions(frames, viewport, unread));
    var after := Looking(c, exposures, frames, viewport, unread, time);
    forall id | id in after
      ensures after[id].qualified ==> Qualified(c, log + [e], id)
      ensures !after[id].qualified && after[id].visibleSince.Some? ==>
                SinceJustified(c, log + [e], id, after[id].visibleSince.value)
    {
      if id in e.fractions {
        SeenJustified(c, exposures, log, id, frames[id], e);
      } else if after[id].qualified {
        var i, j :| Qualifies(c, log, id, i, j);
        LookExtendsQualifies(c, log, e, id, i, j);
      } else if after[id].visibleSince.Some? {
        var i: nat :| Lasting(c, log, id, i) && log[i].time == after[id].visibleSince.value;
        LookExtendsLasting(c, log, e, id, i);
        assert (log + [e])[i] == log[i];
      }
    }
  }

  lemma LookRemembered(
      c: Configuration, exposures: Exposures, log: seq<Event>,
      frames: map<int, Rect>, viewport: Rect, unread: set<int>, time: real)
    requires Remembered(c, exposures, log)
    requires Monotone(log + [Looked(time, Fractions(frames, viewport, unread))])
    ensures Remembered(c, Looking(c, exposures, frames, viewport, unread, time),
                       log + [Looked(time, Fractions(frames, viewport, unread))])
  {
    var e := Looked(time, Fractions(frames, viewport, unread));
    var log', n := log + [e], |log|;
    var after := Looking(c, exposures, frames, viewport, unread, time);
    assert log'[n] == e && TimeOf(log', time);
    forall id | id in exposures && exposures[id].visibleSince.Some?
      ensures TimeOf(log', exposures[id].visibleSince.value) && exposures[id].visibleSince.value <= time
    {
      TimesStay(log, e, exposures[id].visibleSince.value);
      MonotonePast(log, e, exposures[id].visibleSince.value);
    }
    forall id, i: nat | Lasting(c, log', id, i)
      ensures id in after && after[id].visibleSince.Some? && after[id].visibleSince.value <= log'[i].time
    {
      if i < n {
        LastingBefore(c, log, e, id, i);
        assert log'[i] == log[i];
      }
    }
    forall id | Qualified(c, log', id) ensures id in after && after[id].qualified {
      var i: nat, j: nat :| Qualifies(c, log', id, i, j);
      if j < n {
        QualifiesBefore(c, log, e, id, i, j);
        assert Qualified(c, log, id);
      } else if i < n {
        QualifiesNow(c, log, e, id, i);
      }
    }
  }

  /** Frames move without changing what was seen. */
  predicate SameSight(a: Exposure, b: Exposure) {
    a.qualified == b.qualified && a.visibleSince == b.visibleSince
  }

  /** Dropping exposures and recording the drop. */
  lemma DropJustified(c: Configuration, exposures: Exposures, log: seq<Event>, e: Event, after: Exposures)
    requires Justified(c, exposures, log) && !e.Looked?
    requires forall id :: id in after <==> id in exposures && !Drops(e, id)
    requires forall id :: id in after ==> SameSight(after[id], exposures[id])
    ensures Justified(c, after, log + [e])
  {
    forall id | id in after
      ensures after[id].qualified ==> Qualified(c, log + [e], id)
      ensures !after[id].qualified && after[id].visibleSince.Some? ==>
                SinceJustified(c, log + [e], id, after[id].visibleSince.value)
    {
      if after[id].qualified {
        var i, j :| Qualifies(c, log, id, i, j);
        LookExtendsQualifies(c, log, e, id, i, j);
      } else if after[id].visibleSince.Some? {
        var i: nat :| Lasting(c, log, id, i) && log[i].time == after[id].visibleSince.value;
        assert (log + [e])[i] == log[i];
        assert Lasting(c, log + [e], id, i);
      }
    }
  }

  lemma DropRemembered(c: Configuration, exposures: Exposures, log: seq<Event>, e: Event, after: Exposures)
    requires Remembered(c, exposures, log) && !e.Looked?
    requires forall id :: id in after <==> id in exposures && !Drops(e, id)
    requires forall id :: id in after ==> SameSight(after[id], exposures[id])
    ensures Remembered(c, after, log + [e])
  {
    var log' := log + [e];
    forall id | id in after && after[id].visibleSince.Some?
      ensures TimeOf(log', after[id].visibleSince.value)
    {
      TimesStay(log, e, after[id].visibleSince.value);
    }
    forall id, i: nat | Lasting(c, log', id, i)
      ensures id in after && after[id].visibleSince.Some? && after[id].visibleSince.value <= log'[i].time
    {
      assert log'[|log|] == e;
      LastingBefore(c, log, e, id, i);
      assert log'[i] == log[i];
    }
    forall id | Qualified(c, log', id) ensures id in after && after[id].qualified {
      var i: nat, j: nat :| Qualifies(c, log', id, i, j);
      assert log'[|log|] == e;
      QualifiesBefore(c, log, e, id, i, j);
      assert Qualified(c, log, id);
    }
  }

  /** After an article was marked, only fresh looks can qualify it again. */
  lemma RequalifiesAfterMark(c: Configuration, log: seq<Event>, id: int, n: nat, i: nat, j: nat)
    requires n < |log| && log[n].Taken? && id in log[n].ids && Qualifies(c, log, id, i, j)
    ensures n < i
  {
    assert Drops(log[n], id);
  }

  lemma SightDecides(c: Configuration, exposures: Exposures, after: Exposures, log: seq<Event>)
    requires forall id :: id in after <==> id in exposures
    requires forall id :: id in after ==> SameSight(after[id], exposures[id])
    ensures Justified(c, exposures, log) ==> Justified(c, after, log)
    ensures Remembered(c, exposures, log) ==> Remembered(c, after, log)
  {
  }

  lemma MonotonePrefix(log: seq<Event>, e: Event)
    requires Monotone(log + [e])
    ensures Monotone(log)
  {
    assert forall k :: 0 <= k < |log| ==> (log + [e])[k] == log[k];
  }

  /** What the tracker remembers and what it was shown say the same. */
  ghost predicate Faithful(c: Configuration, exposures: Exposures, log: seq<Event>) {
    Justified(c, exposures, log) && (Monotone(log) ==> Remembered(c, exposures, log))
  }

  lemma LookFaithful(
      c: Configuration, exposures: Exposures, log: seq<Event>,
      frames: map<int, Rect>, viewport: Rect, unread: set<int>, time: real)
    requires Faithful(c, exposures, log)
    ensures Faithful(c, Looking(c, exposures, frames, viewport, unread, time),
                     log + [Looked(time, Fractions(frames, viewport, unread))])
  {
    var e := Looked(time, Fractions(frames, viewport, unread));
    LookJustified(c, exposures, log, frames, viewport, unread, time);
    if Monotone(log + [e]) {
      MonotonePrefix(log, e);
      LookRemembered(c, exposures, log, frames, viewport, unread, time);
    }
  }

  lemma DropFaithful(c: Configuration, exposures: Exposures, log: seq<Event>, e: Event, after: Exposures)
    requires Faithful(c, exposures, log) && !e.Looked?
    requires forall id :: id in after <==> id in exposures && !Drops(e, id)
    requires forall id :: id in after ==> SameSight(after[id], exposures[id])
    ensures Faithful(c, after, log + [e])
  {
    DropJustified(c, exposures, log, e, after);
    if Monotone(log + [e]) {
      MonotonePrefix(log, e);
      DropRemembered(c, exposures, log, e, after);
    }
  }

  // ---- Every sequence of calls -------------------------------------------------

  datatype Tracker = Tracker(exposures: Exposures, log: seq<Event>)

  datatype Operation =
    | Clear
    | Shift(frames: map<int, Rect>, unread: set<int>)
    | Look(frames: map<int, Rect>, viewport: Rect, unread: set<int>, time: real)
    | Scroll(frames: map<int, Rect>, viewport: Rect, unread: set<int>, time: real, delta: real, userInitiated: bool)

  function Cleared(t: Tracker): Tracker {
    Tracker(map[], t.log + [Kept({})])
  }

  function LookedAt(
      c: Configuration, t: Tracker, frames: map<int, Rect>, viewport: Rect, unread: set<int>, time: real): Tracker {
    Tracker(Observed(c, t.exposures, frames, viewport, unread, time),
            t.log + [Looked(time, Fractions(frames, viewport, unread))] + [Kept(unread)])
  }

  function WithoutIds(t: Tracker, ids: set<int>): Tracker {
    Tracker(t.exposures - ids, t.log + [Taken(ids)])
  }

  function Performed(c: Configuration, t: Tracker, op: Operation): Tracker {
    match op
    case Clear => Cleared(t)
    case Shift(frames, unread) => Tracker(Rebased(t.exposures, frames, unread), t.log + [Kept(unread)])
    case Look(frames, viewport, unread, time) => LookedAt(c, t, frames, viewport, unread, time)
    case Scroll(frames, viewport, unread, time, delta, userInitiated) =>
      if Accepts(c, viewport, delta, userInitiated) then
        var rest := WithoutIds(t, Marked(t.exposures, frames, viewport, unread));
        var seen := LookedAt(c, rest, frames, viewport, unread, time);
        seen.(exposures := Settled(seen.exposures))
      else LookedAt(c, Cleared(t), frames, viewport, unread, time)
  }

  function Tracked(c: Configuration, ops: seq<Operation>): Tracker {
    if ops == [] then Tracker(map[], []) else Performed(c, Tracked(c, ops[..|ops| - 1]), ops[|ops| - 1])
  }

  lemma LookedAtFaithful(
      c: Configuration, t: Tracker, frames: map<int, Rect>, viewport: Rect, unread: set<int>, time: real)
    requires Faithful(c, t.exposures, t.log)
    ensures var after := LookedAt(c, t, frames, viewport, unread, time); Faithful(c, after.exposures, after.log)
  {
    var looking := Looking(c, t.exposures, frames, viewport, unread, time);
    var log := t.log + [Looked(time, Fractions(frames, viewport, unread))];
    LookFaithful(c, t.exposures, t.log, frames, viewport, unread, time);
    LookThenKeep(c, t.exposures, frames, viewport, unread, time);
    DropFaithful(c, looking, log, Kept(unread), Keeping(looking, unread));
  }

  lemma PerformedFaithful(c: Configuration, t: Tracker, op: Operation)
    requires Faithful(c, t.exposures, t.log)
    ensures Faithful(c, Performed(c, t, op).exposures, Performed(c, t, op).log)
  {
    match op {
      case Clear => DropFaithful(c, t.exposures, t.log, Kept({}), map[]);
      case Shift(frames, unread) =>
        DropFaithful(c, t.exposures, t.log, Kept(unread), Rebased(t.exposures, frames, unread));
      case Look(frames, viewport, unread, time) => LookedAtFaithful(c, t, frames, viewport, unread, time);
      case Scroll(frames, viewport, unread, time, delta, userInitiated) =>
        if Accepts(c, viewport, delta, userInitiated) {
          var taken := Marked(t.exposures, frames, viewport, unread);
          DropFaithful(c, t.exposures, t.log, Taken(taken), t.exposures - taken);
          LookedAtFaithful(c, WithoutIds(t, taken), frames, viewport, unread, time);
          var seen := LookedAt(c, WithoutIds(t, taken), frames, viewport, unread, time);
          SightDecides(c, seen.exposures, Settled(seen.exposures), seen.log);
        } else {
          DropFaithful(c, t.exposures, t.log, Kept({}), map[]);
          LookedAtFaithful(c, Cleared(t), frames, viewport, unread, time);
        }
    }
  }

  lemma {:induction false} TrackedFaithful(c: Configuration, ops: seq<Operation>)
    ensures Faithful(c, Tracked(c, ops).exposures, Tracked(c, ops).log)
  {
    if ops != [] {
      TrackedFaithful(c, ops[..|ops| - 1]);
      PerformedFaithful(c, Tracked(c, ops[..|ops| - 1]), ops[|ops| - 1]);
    }
  }

  /** After any sequence of calls in the order of time, a row counts as qualified
      exactly when the history holds a qualifying stretch of it. */
  lemma QualifiedExactly(c: Configuration, ops: seq<Operation>, id: int)
    requires Monotone(Tracked(c, ops).log)
    ensures var t := Tracked(c, ops);
            id in t.exposures && t.exposures[id].qualified <==> Qualified(c, t.log, id)
  {
    TrackedFaithful(c, ops);
  }

  // ---- Which frames count -------------------------------------------------------

  /** How much of a row shows: the height of the overlap over the row's height, from
      nothing when the two are apart to one when the row lies inside. */
  lemma VisibleFractionExactly(frame: Rect, viewport: Rect)
    ensures var fraction := VisibleFraction(frame, viewport);
            var top := if frame.y < viewport.y then viewport.y else frame.y;
            var bottom := if frame.y + frame.height < viewport.y + viewport.height
                          then frame.y + frame.height else viewport.y + viewport.height;
            var beside := frame.x + frame.width < viewport.x || viewport.x + viewport.width < frame.x
                          || frame.width < 0.0 || viewport.width < 0.0;
            && 0.0 <= fraction <= 1.0
            && (frame.height <= 0.0 ==> fraction == 0.0)
            && (beside || bottom <= top ==> fraction == 0.0)
            && (frame.height > 0.0 && !beside && top < bottom ==> fraction * frame.height == bottom - top)
  {
    if frame.height > 0.0 {
      var overlap := IntersectionHeight(frame, viewport);
      assert overlap <= frame.height;
      DivideWithin(overlap, frame.height);
    }
  }

  lemma DivideWithin(part: real, whole: real)
    requires whole > 0.0 && part <= whole
    ensures part / whole <= 1.0 && part / whole * whole == part && (part <= 0.0 <==> part / whole <= 0.0)
  {
  }

  function FramesOf(op: Operation): map<int, Rect> {
    if op.Clear? then map[] else op.frames
  }

  /** The frame a row had when a call last showed it. */
  function LastShown(ops: seq<Operation>, id: int): Option<Rect> {
    if ops == [] then None
    else
      var last := ops[|ops| - 1];
      if id in FramesOf(last) then Some(FramesOf(last)[id]) else LastShown(ops[..|ops| - 1], id)
  }

  /** The frame a scroll compares with: the one after the latest scroll or shift, or
      the first one of a row that appeared since. */
  function LastSettled(c: Configuration, ops: seq<Operation>, id: int): Option<Rect> {
    if ops == [] then None
    else
      var before, last := ops[..|ops| - 1], ops[|ops| - 1];
      match last
      case Clear => None
      case Shift(frames, _) => if id in frames then Some(frames[id]) else LastSettled(c, before, id)
      case Look(frames, _, _, _) =>
        if id in Tracked(c, before).exposures then LastSettled(c, before, id) else LastShown(ops, id)
      case Scroll(_, _, _, _, _, _) => LastShown(ops, id)
  }

  /** Which rows a call keeps track of. */
  lemma PerformedTracks(c: Configuration, t: Tracker, op: Operation, id: int)
    ensures var tracked := id in Performed(c, t, op).exposures;
            match op
            case Clear => !tracked
            case Shift(_, unread) => tracked <==> id in t.exposures && id in unread
            case Look(frames, _, unread, _) => tracked <==> id in unread && (id in t.exposures || id in frames)
            case Scroll(frames, viewport, unread, _, delta, userInitiated) =>
              if userInitiated && 0.0 < delta <= viewport.height * c.maximumViewportJumpFraction then
                var kept := id in t.exposures && id !in Marked(t.exposures, frames, viewport, unread);
                tracked <==> id in unread && (id in frames || kept)
              else tracked <==> id in unread && id in frames
  {
  }

  lemma PerformedFrames(c: Configuration, t: Tracker, op: Operation, id: int)
    requires id in Performed(c, t, op).exposures
    ensures var e := Performed(c, t, op).exposures[id];
            && e.currentFrame == (if id in FramesOf(op) then FramesOf(op)[id] else t.exposures[id].currentFrame)
            && e.processedFrame ==
               (if op.Scroll? then e.currentFrame
                else if op.Shift? && id in op.frames then op.frames[id]
                else if id in t.exposures then t.exposures[id].processedFrame
                else e.currentFrame)
  {
  }

  /** After any sequence of calls a tracked row has the frame it was last shown with,
      and is compared with the frame it last settled at. */
  lemma {:induction false} FramesAreLast(c: Configuration, ops: seq<Operation>, id: int)
    requires id in Tracked(c, ops).exposures
    ensures LastShown(ops, id) == Some(Tracked(c, ops).exposures[id].currentFrame)
    ensures LastSettled(c, ops, id) == Some(Tracked(c, ops).exposures[id].processedFrame)
  {
    var before, last := ops[..|ops| - 1], ops[|ops| - 1];
    PerformedTracks(c, Tracked(c, before), last, id);
    PerformedFrames(c, Tracked(c, before), last, id);
    if id in Tracked(c, before).exposures {
      FramesAreLast(c, before, id);
    }
  }

  /** After any sequence of calls in the order of time, a scroll marks exactly the
      unread rows with a qualifying stretch whose bottom edge moved past the top of
      the viewport, or that vanished while their middle was in its upper half. */
  lemma MarkedExactly(
      c: Configuration, ops: seq<Operation>, frames: map<int, Rect>, viewport: Rect, unread: set<int>, id: int)
    requires Monotone(Tracked(c, ops).log)
    ensures var t := Tracked(c, ops);
            var shown, settled := LastShown(ops, id), LastSettled(c, ops, id);
            id in Marked(t.exposures, frames, viewport, unread) <==>
            && id in unread && Qualified(c, t.log, id) && shown.Some? && settled.Some?
            && (if id in frames
                then settled.value.y + settled.value.height > viewport.y
                     && frames[id].y + frames[id].height <= viewport.y
                else shown.value.y + shown.value.height / 2.0 < viewport.y + viewport.height / 2.0)
  {
    QualifiedExactly(c, ops, id);
    if id in Tracked(c, ops).exposures {
      FramesAreLast(c, ops, id);
    }
  }

  class ScrolloverExposureTracker {
    const configuration: Configuration
    var exposures: Exposures
    ghost var log: seq<Event>

    ghost predicate Valid()
      reads this
    {
      Faithful(configuration, exposures, log)
    }

    ghost function State(): Tracker
      reads this
    {
      Tracker(exposures, log)
    }

    constructor (configuration: Configuration := DEFAULT)
      ensures State() == Tracked(configuration, [])
      ensures Valid() && this.configuration == configuration && exposures == map[] && log == []
    {
      this.configuration, exposures, log := configuration, map[], [];
    }

    method Reset()
      requires Valid()
      modifies this
      ensures Valid() && State() == Performed(configuration, old(State()), Clear)
    {
      PerformedFaithful(configuration, State(), Clear);
      exposures := map[];
      log := log + [Kept({})];
    }

    method Rebase(frames: map<int, Rect>, unread: set<int>)
      requires Valid()
      modifies this
      ensures Valid() && State() == Performed(configuration, old(State()), Shift(frames, unread))
    {
      PerformedFaithful(configuration, State(), Shift(frames, unread));
      exposures := Keeping(exposures, unread);
      ShiftEach(frames, unread);
      log := log + [Kept(unread)];
    }

    /** The loop over the frames of rows that are still known and unread. */
    method ShiftEach(frames: map<int, Rect>, unread: set<int>)
      requires exposures == Keeping(exposures, unread)
      modifies this`exposures
      ensures exposures == Rebased(old(exposures), frames, unread)
    {
      var todo := frames.Keys;
      while todo != {}
        invariant todo <= frames.Keys
        invariant exposures == map id | id in old(exposures) ::
          if id in frames && id !in todo
          then old(exposures)[id].(processedFrame := frames[id], currentFrame := frames[id])
          else old(exposures)[id]
      {
        Inhabited(todo);
        var id :| id in todo;
        todo := todo - {id};
        if id in unread && id in exposures {
          exposures := exposures[id := exposures[id].(processedFrame := frames[id], currentFrame := frames[id])];
        }
      }
    }

    method Observe(frames: map<int, Rect>, viewport: Rect, unread: set<int>, time: real)
      requires Valid()
      modifies this
      ensures Valid() && State() == Performed(configuration, old(State()), Look(frames, viewport, unread, time))
    {
      PerformedFaithful(configuration, State(), Look(frames, viewport, unread, time));
      LookThenKeep(configuration, exposures, frames, viewport, unread, time);
      LookEach(frames, viewport, unread, time);
      exposures := Keeping(exposures, unread);
      log := log + [Looked(time, Fractions(frames, viewport, unread))] + [Kept(unread)];
    }

    /** The loop over the frames of unread rows. */
    method LookEach(frames: map<int, Rect>, viewport: Rect, unread: set<int>, time: real)
      modifies this`exposures
      ensures exposures == Looking(configuration, old(exposures), frames, viewport, unread, time)
    {
      var shown := Fractions(frames, viewport, unread);
      var todo := shown.Keys;
      while todo != {}
        invariant todo <= shown.Keys
        invariant exposures == map id | id in old(exposures).Keys + (shown.Keys - todo) ::
          if id in shown && id !in todo
          then Seen(configuration, Known(old(exposures), id, frames[id]), frames[id], shown[id], time)
          else old(exposures)[id]
      {
        Inhabited(todo);
        var id :| id in todo;
        todo := todo - {id};
        exposures := exposures[id :=
          Seen(configuration, Known(exposures, id, frames[id]), frames[id], shown[id], time)];
      }
    }

    /** Exactly the unread rows that passed the top and have a qualifying stretch of
        looks in the history are returned; they are dropped before the new frames
        are looked at. A stretch is needed even if time runs backwards. */
    method ProcessScroll(
        frames: map<int, Rect>, viewport: Rect, unread: set<int>, time: real, delta: real, userInitiated: bool)
      returns (marked: seq<int>)
      requires Valid()
      modifies this
      ensures Valid()
      ensures State() == Performed(
                configuration, old(State()), Scroll(frames, viewport, unread, time, delta, userInitiated))
      ensures Increasing(marked)
      ensures !(userInitiated && 0.0 < delta <= viewport.height * configuration.maximumViewportJumpFraction) ==>
                marked == []
      ensures Elements(marked) == if Accepts(configuration, viewport, delta, userInitiated)
                                  then Marked(old(exposures), frames, viewport, unread) else {}
      ensures forall id :: id in marked ==> id in unread && Qualified(configuration, old(log), id)
      ensures Accepts(configuration, viewport, delta, userInitiated) && Monotone(old(log)) ==>
                forall id :: id in marked <==>
                  && id in unread && Qualified(configuration, old(log), id)
                  && id in old(exposures) && PassedTop(old(exposures)[id], id, frames, viewport)
    {
      PerformedFaithful(configuration, State(), Scroll(frames, viewport, unread, time, delta, userInitiated));
      if !Accepts(configuration, viewport, delta, userInitiated) {
        Reset();
        Observe(frames, viewport, unread, time);
        return [];
      }
      var taken := Marked(exposures, frames, viewport, unread);
      marked := SortedIds(taken);
      forall id ensures id in marked <==> id in taken {
        assert id in marked <==> id in Elements(marked);
      }
      DropFaithful(configuration, exposures, log, Taken(taken), exposures - taken);
      exposures := exposures - taken;
      log := log + [Taken(taken)];
      Observe(frames, viewport, unread, time);
      exposures := Settled(exposures);
    }

    static method SortedIds(ids: set<int>) returns (sorted: seq<int>)
      ensures Increasing(sorted) && Elements(sorted) == ids
    {
      sorted := [];
      var todo := ids;
      while todo != {}
        invariant todo <= ids && Elements(sorted) == ids - todo && Increasing(sorted)
        invariant forall x, y :: x in sorted && y in todo ==> x < y
      {
        var least := Least(todo);
        Appended(sorted, least);
        todo := todo - {least};
        sorted := sorted + [least];
      }
    }

    static method Least(ids: set<int>) returns (least: int)
      requires ids != {}
      ensures least in ids && forall x :: x in ids ==> least <= x
    {
      Inhabited(ids);
      least :| least in ids;
      var todo := ids - {least};
      while todo != {}
        invariant todo <= ids && least in ids
        invariant forall x :: x in ids && x !in todo ==> least <= x
      {
        Inhabited(todo);
        var x :| x in todo;
        todo := todo - {x};
        if x < least {
          least := x;
        }
      }
    }
  }

  predicate Increasing(s: seq<int>) {
    forall i, j :: 0 <= i < j < |s| ==> s[i] < s[j]
  }

  lemma Appended(s: seq<int>, x: int)
    requires Increasing(s) && forall y :: y in s ==> y < x
    ensures Increasing(s + [x]) && Elements(s + [x]) == Elements(s) + {x}
  {
    forall i | 0 <= i < |s| ensures s[i] < x {
      assert s[i] in s;
    }
    assert forall y :: y in s + [x] <==> y in s || y == x;
  }
}
