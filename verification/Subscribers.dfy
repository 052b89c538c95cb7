/** One subscriber: buffered wakeups, a failure, an end, and the promises its waits hand out. */
module Subscribers {
  import opened Wrappers

  type Problem = nat

  datatype Promise = Pending | Woken | Over | Rejected(problem: Problem)

  /** `promises` are all promises handed out so far; `waiter` is the one the next event settles. */
  datatype Sub = Sub(
    notified: bool,
    failure: Option<Problem>,
    finished: bool,
    closed: bool,
    waiter: Option<nat>,
    promises: seq<Promise>)

  predicate SubOk(s: Sub) {
    s.waiter.Some? ==>
      && s.waiter.value < |s.promises| && s.promises[s.waiter.value] == Pending
      && !s.notified && !s.finished && !s.closed && s.failure.None?
  }

  function NewSub(aborted: bool): Sub {
    Sub(false, None, aborted, false, None, [])
  }

  function Settle(s: Sub, p: Promise): Sub
    requires SubOk(s)
  {
    if s.waiter.Some? then s.(waiter := None, promises := s.promises[s.waiter.value := p]) else s
  }

  datatype Event = Notify | Fail(problem: Problem) | End | Wait | Close

  /** What one event does to a subscriber. */
  function Step(s: Sub, event: Event): (r: Sub)
    requires SubOk(s)
    ensures SubOk(r)
  {
    match event
    case Notify => if s.waiter.Some? then Settle(s, Woken) else s.(notified := true)
    case Fail(problem) =>
      var kept := if s.failure.None? then problem else s.failure.value;
      Settle(s, Rejected(kept)).(failure := Some(kept))
    case End => Settle(s, Over).(finished := true)
    case Wait =>
      if s.finished || s.closed then s.(promises := s.promises + [Over])
      else if s.notified then s.(notified := false, promises := s.promises + [Woken])
      else if s.failure.Some? then s.(promises := s.promises + [Rejected(s.failure.value)])
      else s.(waiter := Some(|s.promises|), promises := s.promises + [Pending])
    case Close => if s.closed then s else Settle(s, Over).(closed := true)
  }

  function Steps(s: Sub, events: seq<Event>): (r: Sub)
    requires SubOk(s)
    ensures SubOk(r)
  {
    if events == [] then s else Step(Steps(s, events[..|events| - 1]), events[|events| - 1])
  }

  class Subscriber {
    var notified: bool
    var failure: Option<Problem>
    var finished: bool
    var closed: bool
    var waiter: Option<nat>
    var promises: seq<Promise>

    function State(): Sub
      reads this
    {
      Sub(notified, failure, finished, closed, waiter, promises)
    }

    constructor (aborted: bool)
      ensures State() == NewSub(aborted)
    {
      notified, failure, finished, closed, waiter, promises := false, None, aborted, false, None, [];
    }

    method TakeWaiter() returns (taken: Option<nat>)
      modifies `waiter
      ensures taken == old(waiter) && waiter == None
    {
      taken := waiter;
      waiter := None;
    }

    method OnNotify()
      requires SubOk(State())
      modifies this
      ensures State() == Step(old(State()), Notify)
    {
      var taken := TakeWaiter();
      if taken.Some? { promises := promises[taken.value := Woken]; } else { notified := true; }
    }

    method OnFail(problem: Problem)
      requires SubOk(State())
      modifies this
      ensures State() == Step(old(State()), Fail(problem))
    {
      if failure.None? { failure := Some(problem); }
      var taken := TakeWaiter();
      if taken.Some? { promises := promises[taken.value := Rejected(failure.value)]; }
    }

    method OnEnd()
      requires SubOk(State())
      modifies this
      ensures State() == Step(old(State()), End)
    {
      finished := true;
      var taken := TakeWaiter();
      if taken.Some? { promises := promises[taken.value := Over]; }
    }

    method DoWait() returns (promise: nat)
      requires SubOk(State())
      modifies this
      ensures State() == Step(old(State()), Wait) && promise == old(|promises|) < |promises|
    {
      promise := |promises|;
      if finished || closed {
        promises := promises + [Over];
      } else if notified {
        notified := false;
        promises := promises + [Woken];
      } else if failure.Some? {
        promises := promises + [Rejected(failure.value)];
      } else {
        promises := promises + [Pending];
        waiter := Some(promise);
      }
    }

    method DoClose() returns (releases: bool)
      requires SubOk(State())
      modifies this
      ensures State() == Step(old(State()), Close) && releases == !old(closed)
    {
      if closed { return false; }
      closed := true;
      var taken := TakeWaiter();
      if taken.Some? { promises := promises[taken.value := Over]; }
      return true;
    }
  }

  // --------------------------------------------------------------------- no lost wakeup

  predicate Quiet(event: Event) {
    event.Notify? || event.Fail?
  }

  predicate LiveSub(s: Sub) {
    !s.finished && !s.closed
  }

  lemma {:induction false} StaysNotified(s: Sub, events: seq<Event>)
    requires SubOk(s) && LiveSub(s) && s.notified && forall event <- events :: Quiet(event)
    ensures Steps(s, events).notified && LiveSub(Steps(s, events)) && Steps(s, events).promises == s.promises
  {
    if events != [] {
      var init := events[..|events| - 1];
      assert events[|events| - 1] in events && forall event <- init :: event in events;
      StaysNotified(s, init);
    }
  }

  /**
   * `r` has been woken for `s`: the wait `s` has is woken, or else the next one is, whatever
   * failures and further notifications come in between.
   */
  ghost predicate Woke(s: Sub, r: Sub)
    requires SubOk(s) && SubOk(r)
  {
    if s.waiter.Some? then s.waiter.value < |r.promises| && r.promises[s.waiter.value] == Woken
    else
      forall events: seq<Event> :: (forall event <- events :: Quiet(event)) ==>
        Step(Steps(r, events), Wait).promises == s.promises + [Woken]
  }

  /** No lost wakeup: a notification wakes the wait of a live subscriber, or else its next one. */
  lemma WakeupIsNotLost(s: Sub)
    requires SubOk(s) && LiveSub(s)
    ensures Woke(s, Step(s, Notify))
  {
    forall events: seq<Event> | s.waiter.None? && forall event <- events :: Quiet(event)
      ensures Step(Steps(Step(s, Notify), events), Wait).promises == s.promises + [Woken]
    {
      StaysNotified(Step(s, Notify), events);
    }
  }

  // --------------------------------------------------------------------- failures are told

  predicate Lasting(event: Event) {
    event.Notify? || event.Fail? || event.Wait?
  }

  /** A notification is buffered: one since the last wait, or `before` it all with no wait since. */
  ghost predicate Buffered(before: bool, events: seq<Event>) {
    || (before && forall k :: 0 <= k < |events| ==> !events[k].Wait?)
    || exists k :: 0 <= k < |events| && events[k].Notify? && forall n :: k < n < |events| ==> !events[n].Wait?
  }

  lemma BufferedStep(before: bool, events: seq<Event>)
    requires events != []
    ensures var last := events[|events| - 1];
            Buffered(before, events) <==> last.Notify? || (!last.Wait? && Buffered(before, events[..|events| - 1]))
  {
    var init, last := events[..|events| - 1], events[|events| - 1];
    if Buffered(before, init) && !last.Wait? && !(before && forall k :: 0 <= k < |init| ==> !init[k].Wait?) {
      var k :| 0 <= k < |init| && init[k].Notify? && forall n :: k < n < |init| ==> !init[n].Wait?;
      assert events[k].Notify? && forall n :: k < n < |init| ==> events[n] == init[n];
    }
    if Buffered(before, events) && !last.Notify? && !(before && forall k :: 0 <= k < |events| ==> !events[k].Wait?) {
      var k :| 0 <= k < |events| && events[k].Notify? && forall n :: k < n < |events| ==> !events[n].Wait?;
      assert init[k].Notify? && forall n :: k < n < |init| ==> init[n] == events[n];
    }
  }

  /** The problem a subscriber tells: the first one. */
  function FirstProblem(s: Sub, problem: Problem): Problem {
    if s.failure.Some? then s.failure.value else problem
  }

  /**
   * `r` has been told of a problem that `s` met: the wait `s` has is rejected with it; and from then
   * on, until an end, each wait is answered at once, woken when a notification is buffered and else
   * rejected with the first problem.
   */
  ghost predicate Told(s: Sub, problem: Problem, r: Sub)
    requires SubOk(s) && SubOk(r)
  {
    && (s.waiter.Some? ==> s.waiter.value < |r.promises| && r.promises[s.waiter.value] == Rejected(problem))
    && forall events: seq<Event> :: (forall event <- events :: Lasting(event)) ==>
         var later := Steps(r, events);
         Step(later, Wait).promises ==
           later.promises + [if Buffered(s.notified, events) then Woken else Rejected(FirstProblem(s, problem))]
  }

  lemma {:induction false} StaysFailed(s: Sub, before: bool, events: seq<Event>)
    requires SubOk(s) && LiveSub(s) && s.waiter.None? && s.failure.Some? && s.notified == before
    requires forall event <- events :: Lasting(event)
    ensures var later := Steps(s, events);
            && LiveSub(later) && later.waiter.None? && later.failure == s.failure
            && (later.notified <==> Buffered(before, events))
  {
    if events != [] {
      var init := events[..|events| - 1];
      assert events[|events| - 1] in events && forall event <- init :: event in events;
      StaysFailed(s, before, init);
      BufferedStep(before, events);
    }
  }

  /** No failure is forgotten, whenever it comes. */
  lemma FailureIsTold(s: Sub, problem: Problem)
    requires SubOk(s) && LiveSub(s)
    ensures Told(s, problem, Step(s, Fail(problem)))
  {
    var r := Step(s, Fail(problem));
    forall events: seq<Event> | forall event <- events :: Lasting(event)
      ensures var later := Steps(r, events);
        Step(later, Wait).promises ==
          later.promises + [if Buffered(s.notified, events) then Woken else Rejected(FirstProblem(s, problem))]
    {
      StaysFailed(r, s.notified, events);
    }
  }

  // --------------------------------------------------------------------- ends are final

  /** `r` has ended for `s`: the wait `s` has is over, and so is at once every later one. */
  ghost predicate IsOver(s: Sub, r: Sub)
    requires SubOk(s) && SubOk(r)
  {
    && (s.waiter.Some? ==> s.waiter.value < |r.promises| && r.promises[s.waiter.value] == Over)
    && forall events: seq<Event> :: Step(Steps(r, events), Wait).promises == Steps(r, events).promises + [Over]
  }

  lemma {:induction false} StaysOver(s: Sub, events: seq<Event>)
    requires SubOk(s) && !LiveSub(s)
    ensures !LiveSub(Steps(s, events))
  {
    if events != [] { StaysOver(s, events[..|events| - 1]); }
  }

  /** An end, and the first close, ends the wait there is and every later one. */
  lemma EndIsFinal(s: Sub, event: Event)
    requires SubOk(s) && (event.End? || event.Close?)
    ensures IsOver(s, Step(s, event))
  {
    forall events: seq<Event>
      ensures Step(Steps(Step(s, event), events), Wait).promises == Steps(Step(s, event), events).promises + [Over]
    {
      StaysOver(Step(s, event), events);
    }
  }

  /** A settled promise keeps its answer. */
  lemma SettledStays(s: Sub, event: Event, i: nat)
    requires SubOk(s) && i < |s.promises| && s.promises[i] != Pending
    ensures i < |Step(s, event).promises| && Step(s, event).promises[i] == s.promises[i]
  {
  }

  /** Waits one at a time: the waiter is the only pending promise. */
  predicate OneWait(s: Sub) {
    forall i :: 0 <= i < |s.promises| && s.promises[i] == Pending ==> s.waiter == Some(i)
  }

  lemma OneWaitKept(s: Sub, event: Event)
    requires SubOk(s) && OneWait(s) && (event.Wait? ==> s.waiter.None?)
    ensures OneWait(Step(s, event))
  {
  }

  /** A wait that overlaps a pending one abandons it: nothing ever settles that promise. */
  lemma {:induction false} OverlapAbandons(s: Sub, events: seq<Event>)
    requires SubOk(s) && s.waiter.Some?
    ensures var later := Steps(Step(s, Wait), events);
            && |s.promises| < |later.promises| && later.promises[s.waiter.value] == Pending
            && later.waiter != s.waiter
  {
    if events != [] { OverlapAbandons(s, events[..|events| - 1]); }
  }
}
