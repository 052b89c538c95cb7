/**
 * The LISTEN/NOTIFY multiplexer: slots, one listener connection per channel, and its subscribers.
 * Every method is one uninterrupted turn of the event loop, in any order.
 */
module NotificationHub {
  import opened Wrappers
  import opened Subscribers

  type SubId = nat
  type StateId = nat
  type Channel = nat

  /** A subscriber and where it was attached. */
  datatype Attached = Attached(state: StateId, key: string, sub: Sub)

  /** A channel's listener; `ends` counts how often its client was ended. */
  datatype ChannelState = ChannelState(
    channel: Channel, keys: map<string, set<SubId>>, refCount: int, retired: bool, ends: nat)

  datatype HubError = UnknownChannel | ShuttingDown | SubscriptionAborted | LimitReached | ConnectFailed

  type Subs = map<SubId, Attached>

  /** The subscribers that hold a slot. */
  function Open(subs: Subs): set<SubId> {
    set id | id in subs && !subs[id].sub.closed
  }

  function OpenAt(subs: Subs, st: StateId): set<SubId> {
    set id | id in subs && !subs[id].sub.closed && subs[id].state == st
  }

  function OpenFor(subs: Subs, st: StateId, key: string): set<SubId> {
    set id | id in subs && !subs[id].sub.closed && subs[id].state == st && subs[id].key == key
  }

  ghost predicate KeysOk(subs: Subs, id: StateId, keys: map<string, set<SubId>>) {
    && (forall key <- keys :: keys[key] == OpenFor(subs, id, key) && keys[key] != {})
    && (forall s <- OpenAt(subs, id) :: subs[s].key in keys)
  }

  /** The key sets hold exactly the attached open subscribers, the count is theirs, and a client ends once. */
  ghost predicate StateOk(subs: Subs, id: StateId, st: ChannelState) {
    && KeysOk(subs, id, st.keys)
    && (!st.retired ==> st.refCount == |OpenAt(subs, id)| && st.refCount > 0)
    && st.ends == (if st.retired then 1 else 0)
  }

  function AddTo(keys: map<string, set<SubId>>, key: string, id: SubId): map<string, set<SubId>> {
    if key in keys then keys[key := keys[key] + {id}] else keys[key := {id}]
  }

  function RemoveFrom(keys: map<string, set<SubId>>, key: string, id: SubId): map<string, set<SubId>> {
    if key !in keys then keys
    else if keys[key] - {id} == {} then keys - {key}
    else keys[key := keys[key] - {id}]
  }

  /** Some subscribers take an event, the others stay. */
  function Deliver(subs: Subs, to: set<SubId>, event: Event): (r: Subs)
    requires forall id <- subs :: SubOk(subs[id].sub)
  {
    map id | id in subs :: if id in to then subs[id].(sub := Step(subs[id].sub, event)) else subs[id]
  }

  lemma DeliverKeepsOpen(subs: Subs, to: set<SubId>, event: Event)
    requires (forall id <- subs :: SubOk(subs[id].sub)) && !event.Close?
    ensures Open(Deliver(subs, to, event)) == Open(subs)
    ensures forall st :: OpenAt(Deliver(subs, to, event), st) == OpenAt(subs, st)
    ensures forall st, key :: OpenFor(Deliver(subs, to, event), st, key) == OpenFor(subs, st, key)
  {
    assert forall id <- subs :: Deliver(subs, to, event)[id].sub.closed == subs[id].sub.closed;
  }

  ghost predicate AllSubsOk(subs: Subs) {
    forall id <- subs :: SubOk(subs[id].sub)
  }

  /** The live ones of these subscribers have been woken, told of a problem, or ended. */
  ghost predicate AllWoke(subs: Subs, ids: set<SubId>, subs': Subs) {
    forall id <- ids :: id in subs && id in subs' && SubOk(subs[id].sub) && SubOk(subs'[id].sub)
      && (LiveSub(subs[id].sub) ==> Woke(subs[id].sub, subs'[id].sub))
  }

  ghost predicate AllTold(subs: Subs, ids: set<SubId>, problem: Problem, subs': Subs) {
    forall id <- ids :: id in subs && id in subs' && SubOk(subs[id].sub) && SubOk(subs'[id].sub)
      && (LiveSub(subs[id].sub) ==> Told(subs[id].sub, problem, subs'[id].sub))
  }

  ghost predicate AllOver(subs: Subs, ids: set<SubId>, subs': Subs) {
    forall id <- ids :: id in subs && id in subs' && SubOk(subs[id].sub) && SubOk(subs'[id].sub)
      && IsOver(subs[id].sub, subs'[id].sub)
  }

  lemma DeliveredWakes(subs: Subs, ids: set<SubId>)
    requires AllSubsOk(subs) && ids <= subs.Keys
    ensures AllWoke(subs, ids, Deliver(subs, ids, Notify))
  {
    hide Woke, LiveSub;
    forall id <- ids | LiveSub(subs[id].sub) ensures Woke(subs[id].sub, Step(subs[id].sub, Notify)) {
      WakeupIsNotLost(subs[id].sub);
    }
  }

  lemma DeliveredTells(subs: Subs, ids: set<SubId>, problem: Problem)
    requires AllSubsOk(subs) && ids <= subs.Keys
    ensures AllTold(subs, ids, problem, Deliver(subs, ids, Fail(problem)))
  {
    hide Told, LiveSub;
    forall id <- ids | LiveSub(subs[id].sub) ensures Told(subs[id].sub, problem, Step(subs[id].sub, Fail(problem))) {
      FailureIsTold(subs[id].sub, problem);
    }
  }

  lemma DeliveredEnds(subs: Subs, ids: set<SubId>)
    requires AllSubsOk(subs) && ids <= subs.Keys
    ensures AllOver(subs, ids, Deliver(subs, ids, End))
  {
    hide IsOver;
    forall id <- ids ensures IsOver(subs[id].sub, Step(subs[id].sub, End)) { EndIsFinal(subs[id].sub, End); }
  }

  // --------------------------------------------------------------------- attaching and releasing

  lemma Attaching(subs: Subs, id: SubId, a: Attached)
    requires id !in subs && !a.sub.closed
    ensures Open(subs[id := a]) == Open(subs) + {id} && id !in Open(subs)
    ensures OpenAt(subs[id := a], a.state) == OpenAt(subs, a.state) + {id} && id !in OpenAt(subs, a.state)
    ensures OpenFor(subs[id := a], a.state, a.key) == OpenFor(subs, a.state, a.key) + {id}
    ensures forall st :: st != a.state ==> OpenAt(subs[id := a], st) == OpenAt(subs, st)
    ensures forall st, key :: st != a.state || key != a.key ==>
      OpenFor(subs[id := a], st, key) == OpenFor(subs, st, key)
  {
  }

  lemma Releasing(subs: Subs, id: SubId, a: Attached)
    requires id in subs && !subs[id].sub.closed && a.sub.closed && a.state == subs[id].state && a.key == subs[id].key
    ensures Open(subs[id := a]) == Open(subs) - {id} && id in Open(subs)
    ensures OpenAt(subs[id := a], a.state) == OpenAt(subs, a.state) - {id} && id in OpenAt(subs, a.state)
    ensures OpenFor(subs[id := a], a.state, a.key) == OpenFor(subs, a.state, a.key) - {id}
    ensures id in OpenFor(subs, a.state, a.key)
    ensures forall st :: st != a.state ==> OpenAt(subs[id := a], st) == OpenAt(subs, st)
    ensures forall st, key :: st != a.state || key != a.key ==>
      OpenFor(subs[id := a], st, key) == OpenFor(subs, st, key)
  {
  }

  /** A state before its first subscriber is attached, or an established one. */
  ghost predicate NearlyOk(subs: Subs, id: StateId, st: ChannelState) {
    || StateOk(subs, id, st)
    || (st.keys == map[] && st.refCount == 0 && !st.retired && st.ends == 0 && OpenAt(subs, id) == {})
  }

  lemma AttachKeepsKeys(subs: Subs, id: SubId, a: Attached, keys: map<string, set<SubId>>)
    requires id !in subs && !a.sub.closed && KeysOk(subs, a.state, keys)
    ensures KeysOk(subs[id := a], a.state, AddTo(keys, a.key, id))
  {
    hide Open, OpenAt, OpenFor;
    Attaching(subs, id, a);
    if a.key !in keys { NoneForAbsentKey(subs, a.state, keys, a.key); }
    AttachedKeys(subs, a.state);
  }

  lemma AttachKeepsState(subs: Subs, id: SubId, a: Attached, st: ChannelState)
    requires id !in subs && !a.sub.closed && NearlyOk(subs, a.state, st) && !st.retired
    ensures StateOk(subs[id := a], a.state, st.(keys := AddTo(st.keys, a.key, id), refCount := st.refCount + 1))
  {
    hide OpenFor, AddTo, OpenAt;
    Attaching(subs, id, a);
    AttachKeepsKeys(subs, id, a, st.keys);
  }

  /** No open subscriber is attached under a key the state does not hold. */
  lemma NoneForAbsentKey(subs: Subs, id: StateId, keys: map<string, set<SubId>>, key: string)
    requires KeysOk(subs, id, keys) && key !in keys
    ensures OpenFor(subs, id, key) == {}
  {
    forall s: SubId ensures s !in OpenFor(subs, id, key) {
      assert s in OpenFor(subs, id, key) ==> s in OpenAt(subs, id);
    }
  }

  lemma AttachedKeys(subs: Subs, st: StateId)
    ensures OpenAt(subs, st) <= subs.Keys
  {
  }

  lemma OtherStateKept(subs: Subs, subs': Subs, id: StateId, st: ChannelState)
    requires StateOk(subs, id, st)
    requires OpenAt(subs', id) == OpenAt(subs, id)
    requires forall key :: OpenFor(subs', id, key) == OpenFor(subs, id, key)
    requires forall s <- OpenAt(subs, id) :: s in subs && s in subs' && subs'[s].key == subs[s].key
    ensures StateOk(subs', id, st)
  {
    hide OpenAt, OpenFor;
  }

  /** The state a release leaves: one key entry less, and ended when the last subscriber left. */
  function Released(st: ChannelState, key: string, id: SubId): ChannelState {
    var fewer := st.(keys := RemoveFrom(st.keys, key, id));
    if st.retired then fewer
    else if st.refCount > 1 then fewer.(refCount := st.refCount - 1)
    else fewer.(refCount := 0, retired := true, ends := st.ends + 1)
  }

  lemma ReleaseKeepsState(subs: Subs, id: SubId, a: Attached, st: ChannelState)
    requires id in subs && !subs[id].sub.closed && a.sub.closed && a.state == subs[id].state && a.key == subs[id].key
    requires StateOk(subs, a.state, st)
    ensures StateOk(subs[id := a], a.state, Released(st, a.key, id))
    ensures !st.retired ==> st.refCount >= 1
  {
    hide Open, OpenAt, OpenFor;
    Releasing(subs, id, a);
    AttachedKeys(subs, a.state);
    AttachedKeys(subs[id := a], a.state);
    forall s | s in OpenAt(subs, a.state) ensures s in OpenFor(subs, a.state, subs[s].key) { KeyOf(subs, a.state, s); }
  }

  lemma KeyOf(subs: Subs, st: StateId, id: SubId)
    requires id in OpenAt(subs, st)
    ensures id in subs && id in OpenFor(subs, st, subs[id].key)
  {
  }

  function Unregistered(channels: map<Channel, StateId>, channel: Channel, st: StateId): map<Channel, StateId> {
    if channel in channels && channels[channel] == st then channels - {channel} else channels
  }

  // --------------------------------------------------------------------- the parts of the invariant

  ghost predicate SubsOk(subs: Subs, states: map<StateId, ChannelState>, next: SubId) {
    forall id <- subs :: id < next && SubOk(subs[id].sub) && subs[id].state in states
  }

  ghost predicate StatesOk(subs: Subs, states: map<StateId, ChannelState>, next: StateId) {
    forall st <- states :: st < next && StateOk(subs, st, states[st])
  }

  /** Each registered channel has one live listener of its own, and no other listener is live. */
  ghost predicate Registered(channels: map<Channel, StateId>, states: map<StateId, ChannelState>) {
    && (forall c <- channels ::
          channels[c] in states && states[channels[c]].channel == c && !states[channels[c]].retired)
    && (forall st <- states ::
          !states[st].retired ==> states[st].channel in channels && channels[states[st].channel] == st)
  }

  lemma RetireKeeps(
      subs: Subs, states: map<StateId, ChannelState>, channels: map<Channel, StateId>, next: StateId, st: StateId,
          to: ChannelState)
    requires StatesOk(subs, states, next) && Registered(channels, states) && st in states && !states[st].retired
    requires to.channel == states[st].channel && to.retired && StateOk(subs, st, to)
    ensures StatesOk(subs, states[st := to], next)
    ensures Registered(channels - {to.channel}, states[st := to])
    ensures Unregistered(channels, to.channel, st) == channels - {to.channel}
  {
    hide StateOk;
  }

  lemma RetiredIsOk(subs: Subs, id: StateId, st: ChannelState)
    requires StateOk(subs, id, st) && !st.retired
    ensures StateOk(subs, id, st.(retired := true, ends := st.ends + 1)) && st.ends == 0
  {
  }

  /** A state rewritten without being retired or revived. */
  lemma RewriteKeeps(
      states: map<StateId, ChannelState>, channels: map<Channel, StateId>, st: StateId, to: ChannelState)
    requires Registered(channels, states) && st in states
    requires to.channel == states[st].channel && to.retired == states[st].retired
    ensures Registered(channels, states[st := to])
  {
  }

  /** A new subscriber leaves every listener but its own as it was. */
  lemma AttachKeepsStates(
      subs: Subs, id: SubId, a: Attached, states: map<StateId, ChannelState>, next: StateId, to: ChannelState)
    requires id !in subs && !a.sub.closed && a.state in states && StateOk(subs[id := a], a.state, to)
    requires forall st <- states :: st < next && (st != a.state ==> StateOk(subs, st, states[st]))
    ensures StatesOk(subs[id := a], states[a.state := to], next)
  {
    hide StateOk, OpenAt, OpenFor, Open;
    Attaching(subs, id, a);
    forall st | st in states && st != a.state ensures StateOk(subs[id := a], st, states[st]) {
      AttachedKeys(subs, st);
      OtherStateKept(subs, subs[id := a], st, states[st]);
    }
  }

  lemma ReleaseKeepsStates(
      subs: Subs, id: SubId, a: Attached, states: map<StateId, ChannelState>, next: StateId, to: ChannelState)
    requires id in subs && !subs[id].sub.closed && a.sub.closed && a.state == subs[id].state && a.key == subs[id].key
    requires StatesOk(subs, states, next) && a.state in states && StateOk(subs[id := a], a.state, to)
    ensures StatesOk(subs[id := a], states[a.state := to], next)
  {
    hide StateOk, OpenAt, OpenFor, Open;
    Releasing(subs, id, a);
    forall st | st in states && st != a.state ensures StateOk(subs[id := a], st, states[st]) {
      AttachedKeys(subs, st);
      OtherStateKept(subs, subs[id := a], st, states[st]);
    }
  }

  lemma DeliverKeepsStates(
      subs: Subs, to: set<SubId>, event: Event, states: map<StateId, ChannelState>, next: StateId, nextSub: SubId)
    requires SubsOk(subs, states, nextSub) && StatesOk(subs, states, next) && !event.Close?
    ensures SubsOk(Deliver(subs, to, event), states, nextSub) && StatesOk(Deliver(subs, to, event), states, next)
    ensures Open(Deliver(subs, to, event)) == Open(subs)
  {
    hide StateOk, OpenAt, OpenFor, Open;
    DeliverKeepsOpen(subs, to, event);
    forall st | st in states ensures StateOk(Deliver(subs, to, event), st, states[st]) {
      AttachedKeys(subs, st);
      OtherStateKept(subs, Deliver(subs, to, event), st, states[st]);
    }
  }

  class Hub {
    const maxConcurrent: nat
    var active: int
    var closed: bool
    var channels: map<Channel, StateId>
    var states: map<StateId, ChannelState>
    var subs: Subs
    var nextSub: SubId
    var nextState: StateId
    /** Calls whose client could not be created: each keeps the slot it took. */
    ghost var leaked: nat

    ghost predicate Valid()
      reads `active, `channels, `states, `subs, `nextSub, `nextState, `leaked
    {
      && SubsOk(subs, states, nextSub) && StatesOk(subs, states, nextState) && Registered(channels, states)
      && active == |Open(subs)| + leaked
      && active <= maxConcurrent
    }

    constructor (maxConcurrent: nat)
      ensures Valid() && this.maxConcurrent == maxConcurrent && active == 0 && leaked == 0
    {
      this.maxConcurrent := maxConcurrent;
      active, closed, channels, states, subs, nextSub, nextState, leaked := 0, false, map[], map[], map[], 0, 0, 0;
    }

    // ------------------------------------------------------------------- subscribing

    /** The state a channel is served by, made and registered when there is none. */
    method EnsureChannel(channel: Channel) returns (st: StateId)
      requires Valid()
      modifies `channels, `states, `nextState
      ensures st in states && states[st].channel == channel && !states[st].retired && NearlyOk(subs, st, states[st])
      ensures forall x <- states :: x < nextState && (x != st ==> StateOk(subs, x, states[x]))
      ensures Registered(channels, states) && SubsOk(subs, states, nextSub)
      ensures channels == old(channels)[channel := st]
      ensures channel in old(channels) ==> st == old(channels)[channel] && states == old(states)
      ensures channel !in old(channels) ==>
        st == old(nextState) && states == old(states)[st := ChannelState(channel, map[], 0, false, 0)]
    {
      hide StateOk;
      if channel in channels { return channels[channel]; }
      st := nextState;
      nextState := nextState + 1;
      NobodyAtNew(subs, states, nextSub, st);
      states := states[st := ChannelState(channel, map[], 0, false, 0)];
      channels := channels[channel := st];
    }

    method Attach(st: StateId, key: string) returns (id: SubId)
      requires st in states
      modifies `subs, `states, `nextSub
      ensures id == old(nextSub) && nextSub == id + 1
      ensures subs == old(subs)[id := Attached(st, key, NewSub(false))]
      ensures states == old(states)[st := old(states)[st].(
        keys := AddTo(old(states)[st].keys, key, id), refCount := old(states)[st].refCount + 1)]
    {
      id := nextSub;
      nextSub := nextSub + 1;
      subs := subs[id := Attached(st, key, NewSub(false))];
      states := states[st := states[st].(keys := AddTo(states[st].keys, key, id), refCount := states[st].refCount + 1)];
    }

    /**
     * Take a slot and attach a subscriber to its channel's one listener. `created` tells whether a
     * client for a new listener could be made; a throw there loses the slot.
     */
    method Subscribe(known: bool, channel: Channel, key: string, aborted: bool, created: bool)
      returns (r: Result<SubId, HubError>)
      requires Valid()
      modifies this
      ensures Valid()
      ensures r.Success? ==>
        && r.value !in old(subs) && active == old(active) + 1 && leaked == old(leaked)
        && channel in channels
        && subs == old(subs)[r.value := Attached(channels[channel], key, NewSub(false))]
        && (channel in old(channels) ==> channels == old(channels))
      ensures r.Success? <==>
        known && !old(closed) && !aborted && old(active) < maxConcurrent && (channel in old(channels) || created)
      ensures r.Failure? ==> subs == old(subs) && states == old(states) && channels == old(channels)
      ensures r == Failure(UnknownChannel) <==> !known
      ensures r == Failure(ShuttingDown) <==> known && old(closed)
      ensures r == Failure(SubscriptionAborted) <==> known && !old(closed) && aborted
      ensures r == Failure(LimitReached) <==> known && !old(closed) && !aborted && old(active) >= maxConcurrent
      ensures r.Failure? ==>
        if r.error == ConnectFailed then active == old(active) + 1 && leaked == old(leaked) + 1
        else active == old(active) && leaked == old(leaked)
      ensures closed == old(closed)
    {
      hide StateOk, NearlyOk, StatesOk, Registered, AddTo, Open, OpenAt, OpenFor;
      if !known { return Failure(UnknownChannel); }
      if closed { return Failure(ShuttingDown); }
      if aborted { return Failure(SubscriptionAborted); }
      if active >= maxConcurrent { return Failure(LimitReached); }
      if channel !in channels && !created {
        active := active + 1;
        leaked := leaked + 1;
        return Failure(ConnectFailed);
      }
      var st := EnsureChannel(channel);
      active := active + 1;
      ghost var before, listeners := subs, states;
      var id := Attach(st, key);
      var a := Attached(st, key, NewSub(false));
      Attaching(before, id, a);
      AttachKeepsState(before, id, a, listeners[st]);
      AttachKeepsStates(before, id, a, listeners, nextState, states[st]);
      RewriteKeeps(listeners, channels, st, states[st]);
      return Success(id);
    }

    // ------------------------------------------------------------------- leaving

    /** Close a subscriber and, the first time, release its slot; the clamps at zero never bind. */
    method CloseSubscriber(id: SubId)
      requires Valid() && id in subs
      modifies `active, `channels, `states, `subs
      ensures Valid()
      ensures subs == old(subs)[id := old(subs)[id].(sub := Step(old(subs)[id].sub, Close))]
      ensures AllOver(old(subs), {id}, subs)
      ensures active == old(active) - (if old(subs)[id].sub.closed then 0 else 1)
      ensures
        var a := old(subs)[id];
        states == if a.sub.closed then old(states)
                  else old(states)[a.state := Released(old(states)[a.state], a.key, id)]
    {
      hide StateOk, StatesOk, Registered, RemoveFrom, Open, OpenAt, OpenFor, IsOver;
      var a := subs[id];
      EndIsFinal(a.sub, Close);
      if a.sub.closed {
        assert subs == subs[id := a.(sub := Step(a.sub, Close))];
        return;
      }
      var a' := a.(sub := Step(a.sub, Close));
      ghost var st, to := states[a.state], Released(states[a.state], a.key, id);
      OneOfStates(subs, states, nextState, a.state);
      Releasing(subs, id, a');
      ReleaseKeepsState(subs, id, a', st);
      ReleaseKeepsStates(subs, id, a', states, nextState, to);
      ReleaseKeepsRegistered(subs[id := a'], states, channels, a.state, to);
      subs := subs[id := a'];
      Release(a, id);
    }

    /** `release` of a subscriber that was attached as `a`. */
    method Release(a: Attached, id: SubId)
      requires a.state in states && active >= 1
      requires !states[a.state].retired ==> states[a.state].refCount >= 1
      modifies `active, `states, `channels
      ensures active == old(active) - 1
      ensures states == old(states)[a.state := Released(old(states)[a.state], a.key, id)]
      ensures channels == AfterRelease(old(channels), old(states)[a.state], a.state)
    {
      hide RemoveFrom;
      active := if active - 1 > 0 then active - 1 else 0;
      var st := states[a.state];
      st := st.(keys := RemoveFrom(st.keys, a.key, id));
      if !st.retired {
        st := st.(refCount := if st.refCount - 1 > 0 then st.refCount - 1 else 0);
        if st.refCount <= 0 {
          st := st.(retired := true, ends := st.ends + 1);
          channels := Unregistered(channels, st.channel, a.state);
        }
      }
      states := states[a.state := st];
    }

    // ------------------------------------------------------------------- events

    /** An event for some subscribers that closes none. */
    method Tell(to: set<SubId>, event: Event)
      requires Valid() && !event.Close?
      modifies `subs
      ensures Valid() && subs == Deliver(old(subs), to, event)
    {
      hide StatesOk, Registered, Open;
      DeliverKeepsStates(subs, to, event, states, nextState, nextSub);
      subs := Deliver(subs, to, event);
    }

    /** A notification on a listener reaches exactly the open subscribers of its payload's key. */
    method Dispatch(st: StateId, key: string)
      requires Valid() && st in states
      modifies `subs
      ensures Valid() && subs == Deliver(old(subs), OpenFor(old(subs), st, key), Notify)
      ensures AllWoke(old(subs), OpenFor(old(subs), st, key), subs)
    {
      hide Registered, Open, OpenAt, OpenFor, Deliver, AllWoke, SubOk;
      EachSubOk(subs, states, nextSub);
      AttachedKeysFor(subs, st, key);
      DeliveredWakes(subs, OpenFor(subs, st, key));
      OneOfStates(subs, states, nextState, st);
      if key in states[st].keys {
        Tell(states[st].keys[key], Notify);
      } else {
        NoneForAbsentKey(subs, st, states[st].keys, key);
        NobodyToTell(subs, Notify);
      }
    }

    method AbortSubscriber(id: SubId)
      requires Valid() && id in subs
      modifies `subs
      ensures Valid() && subs == Deliver(old(subs), {id}, End)
      ensures AllOver(old(subs), {id}, subs)
    {
      hide Deliver, AllOver, SubOk, Registered, StatesOk, Open;
      EachSubOk(subs, states, nextSub);
      DeliveredEnds(subs, {id});
      Tell({id}, End);
    }

    method Await(id: SubId) returns (promise: nat)
      requires Valid() && id in subs
      modifies `subs
      ensures Valid() && subs == Deliver(old(subs), {id}, Wait)
      ensures promise == |old(subs)[id].sub.promises| < |subs[id].sub.promises|
    {
      hide StatesOk, Registered, Open;
      promise := |subs[id].sub.promises|;
      Tell({id}, Wait);
    }

    /** Retire a listener: unregister it and end its client. */
    method Retire(st: StateId)
      requires Valid() && st in states && !states[st].retired
      modifies `states, `channels
      ensures Valid()
      ensures states == old(states)[st := old(states)[st].(retired := true, ends := old(states)[st].ends + 1)]
      ensures channels == old(channels) - {old(states)[st].channel}
    {
      hide StateOk, StatesOk, Registered, Open, Unregistered;
      OneOfStates(subs, states, nextState, st);
      var to := states[st].(retired := true, ends := states[st].ends + 1);
      RetiredIsOk(subs, st, states[st]);
      RetireKeeps(subs, states, channels, nextState, st, to);
      channels := Unregistered(channels, states[st].channel, st);
      states := states[st := to];
    }

    /** A failed listener is retired once and tells each of its open subscribers. */
    method FailChannel(st: StateId, problem: Problem)
      requires Valid() && st in states
      modifies `states, `channels, `subs
      ensures Valid()
      ensures old(states)[st].retired ==> states == old(states) && channels == old(channels) && subs == old(subs)
      ensures !old(states)[st].retired ==>
        && states == old(states)[st := old(states)[st].(retired := true, ends := 1)]
        && channels == old(channels) - {old(states)[st].channel}
        && subs == Deliver(old(subs), OpenAt(old(subs), st), Fail(problem))
        && AllTold(old(subs), OpenAt(old(subs), st), problem, subs)
    {
      hide StateOk, StatesOk, Registered, Open, OpenAt, Deliver, AllTold, SubOk;
      if states[st].retired { return; }
      OneOfStates(subs, states, nextState, st);
      RetiredIsOk(subs, st, states[st]);
      EachSubOk(subs, states, nextSub);
      AttachedKeys(subs, st);
      DeliveredTells(subs, OpenAt(subs, st), problem);
      Retire(st);
      Tell(OpenAt(subs, st), Fail(problem));
    }

    /** Retire the listener of one channel and end its open subscribers. */
    method EndChannel(channel: Channel, ghost was: Subs, ghost done: set<StateId>)
      requires Valid() && channel in channels && channels[channel] !in done
      requires AllSubsOk(was) && subs == Deliver(was, OpenIn(was, done), End)
      modifies `states, `channels, `subs
      ensures Valid() && channels == old(channels) - {channel} && |channels| < |old(channels)|
      ensures states.Keys == old(states).Keys
      ensures old(channels)[channel] in Live(old(states))
      ensures Live(states) == Live(old(states)) - {old(channels)[channel]}
      ensures subs == Deliver(was, OpenIn(was, done + {old(channels)[channel]}), End)
    {
      hide StateOk, StatesOk, SubsOk, Open, OpenAt, OpenIn, Deliver, Live, Registered;
      var st := channels[channel];
      RegisteredIsLive(channels, states, channel);
      OneLiveLess(states, st);
      OneMoreEnds(was, done, st);
      Retire(st);
      Tell(OpenAt(subs, st), End);
      OneChannelLess(old(channels), channel);
    }

    lemma WhileOpen()
      requires Valid()
      ensures AllSubsOk(subs)
      ensures forall channel <- channels :: channels[channel] in Live(states)
      ensures channels == map[] ==> Live(states) == {}
    {
      hide StateOk, StatesOk, Open;
    }

    lemma AllRetired()
      requires Valid() && Live(states) == {}
      ensures forall st <- states :: states[st].retired && states[st].ends == 1
    {
      hide StateOk, Registered, SubsOk, Live;
      forall st | st in states ensures states[st].retired && states[st].ends == 1 {
        OneOfStates(subs, states, nextState, st);
        LiveOrRetired(states, st);
        RetiredEndedOnce(subs, st, states[st]);
      }
    }

    /** Shutdown: no more subscriptions, every live listener is retired, and exactly its open subscribers end. */
    method CloseHub()
      requires Valid()
      modifies `closed, `states, `channels, `subs
      ensures Valid() && closed && channels == map[]
      ensures forall st <- states :: states[st].retired && states[st].ends == 1
      ensures states.Keys == old(states).Keys
      ensures subs == Deliver(old(subs), OpenIn(old(subs), Live(old(states))), End)
      ensures AllOver(old(subs), OpenIn(old(subs), Live(old(states))), subs)
    {
      hide Valid, OpenIn, Deliver, Live, SubOk, AllOver;
      WhileOpen();
      closed := true;
      ghost var was, live, done: set<StateId> := subs, Live(states), {};
      NobodyIn(subs);
      while channels != map[]
        invariant Valid() && closed && states.Keys == old(states).Keys
        invariant done <= live && Live(states) == live - done
        invariant subs == Deliver(was, OpenIn(was, done), End)
        decreases |channels|
      {
        RegisteredOne(channels);
        var channel :| channel in channels;
        WhileOpen();
        ghost var st := channels[channel];
        EndChannel(channel, was, done);
        done := done + {st};
      }
      WhileOpen();
      assert done == live;
      OpenInKeys(was, done);
      DeliveredEnds(was, OpenIn(was, done));
      AllRetired();
    }
  }

  /** The listeners that have not been retired. */
  function Live(states: map<StateId, ChannelState>): set<StateId> {
    set st | st in states && !states[st].retired
  }

  /** The open subscribers of some listeners. */
  function OpenIn(subs: Subs, sts: set<StateId>): set<SubId> {
    set id | id in subs && !subs[id].sub.closed && subs[id].state in sts
  }

  lemma NobodyIn(subs: Subs)
    requires AllSubsOk(subs)
    ensures Deliver(subs, OpenIn(subs, {}), End) == subs
  {
  }

  lemma OneMoreEnds(subs: Subs, done: set<StateId>, st: StateId)
    requires AllSubsOk(subs) && st !in done
    ensures var some := Deliver(subs, OpenIn(subs, done), End);
            && AllSubsOk(some)
            && Deliver(some, OpenAt(some, st), End) == Deliver(subs, OpenIn(subs, done + {st}), End)
  {
  }

  lemma OpenInKeys(subs: Subs, sts: set<StateId>)
    ensures OpenIn(subs, sts) <= subs.Keys
  {
  }

  lemma EachSubOk(subs: Subs, states: map<StateId, ChannelState>, next: SubId)
    requires SubsOk(subs, states, next)
    ensures AllSubsOk(subs)
  {
  }

  lemma NobodyToTell(subs: Subs, event: Event)
    requires AllSubsOk(subs)
    ensures Deliver(subs, {}, event) == subs
  {
  }

  lemma AttachedKeysFor(subs: Subs, st: StateId, key: string)
    ensures OpenFor(subs, st, key) <= subs.Keys
  {
  }

  lemma OneChannelLess(channels: map<Channel, StateId>, channel: Channel)
    requires channel in channels
    ensures |channels - {channel}| < |channels|
  {
    assert (channels - {channel}).Keys == channels.Keys - {channel};
    assert |channels| == |channels.Keys| && |channels - {channel}| == |(channels - {channel}).Keys|;
  }

  lemma RegisteredIsLive(channels: map<Channel, StateId>, states: map<StateId, ChannelState>, channel: Channel)
    requires Registered(channels, states) && channel in channels
    ensures channels[channel] in Live(states) && channels[channel] in states && !states[channels[channel]].retired
    ensures states[channels[channel]].channel == channel
  {
  }

  lemma OneLiveLess(states: map<StateId, ChannelState>, st: StateId)
    requires st in states
    ensures Live(states[st := states[st].(retired := true, ends := states[st].ends + 1)]) == Live(states) - {st}
  {
  }

  lemma LiveOrRetired(states: map<StateId, ChannelState>, st: StateId)
    requires st in states
    ensures st in Live(states) <==> !states[st].retired
  {
  }

  function AfterRelease(channels: map<Channel, StateId>, st: ChannelState, id: StateId): map<Channel, StateId> {
    if st.retired || st.refCount > 1 then channels else Unregistered(channels, st.channel, id)
  }

  lemma ReleaseKeepsRegistered(
      subs: Subs, states: map<StateId, ChannelState>, channels: map<Channel, StateId>, st: StateId, to: ChannelState)
    requires Registered(channels, states) && st in states && to.channel == states[st].channel
    requires to.retired <==> states[st].retired || states[st].refCount <= 1
    ensures Registered(AfterRelease(channels, states[st], st), states[st := to])
  {
  }

  lemma RegisteredOne(channels: map<Channel, StateId>)
    ensures channels == map[] || exists c :: c in channels
  {
    if forall c :: c !in channels { assert channels == map[]; }
  }

  lemma RetiredEndedOnce(subs: Subs, id: StateId, st: ChannelState)
    requires StateOk(subs, id, st) && st.retired
    ensures st.ends == 1
  {
  }

  lemma OneOfStates(subs: Subs, states: map<StateId, ChannelState>, next: StateId, st: StateId)
    requires StatesOk(subs, states, next) && st in states
    ensures StateOk(subs, st, states[st])
  {
  }

  lemma NobodyAtNew(subs: Subs, states: map<StateId, ChannelState>, next: SubId, st: StateId)
    requires SubsOk(subs, states, next) && st !in states
    ensures OpenAt(subs, st) == {}
  {
  }

  // --------------------------------------------------------------------- the count is the sum

  /** The sizes of some of the key sets added up. */
  ghost function SumSizes(sets: map<string, set<SubId>>, keys: set<string>): nat
    requires keys <= sets.Keys
  {
    if keys == {} then 0
    else
      var key :| key in keys;
      |sets[key]| + SumSizes(sets, keys - {key})
  }

  function Under(subs: Subs, st: StateId, keys: set<string>): set<SubId> {
    set id | id in subs && !subs[id].sub.closed && subs[id].state == st && subs[id].key in keys
  }

  lemma {:induction false} SumCounts(subs: Subs, st: StateId, sets: map<string, set<SubId>>, keys: set<string>)
    requires keys <= sets.Keys && forall key <- sets :: sets[key] == OpenFor(subs, st, key)
    ensures SumSizes(sets, keys) == |Under(subs, st, keys)|
    decreases |keys|
  {
    if keys == {} {
      assert Under(subs, st, keys) == {};
    } else {
      var key :| key in keys && SumSizes(sets, keys) == |sets[key]| + SumSizes(sets, keys - {key});
      SumCounts(subs, st, sets, keys - {key});
      OneKeyMore(subs, st, keys, key);
    }
  }

  lemma OneKeyMore(subs: Subs, st: StateId, keys: set<string>, key: string)
    requires key in keys
    ensures |Under(subs, st, keys)| == |Under(subs, st, keys - {key})| + |OpenFor(subs, st, key)|
  {
    var rest, these := Under(subs, st, keys - {key}), OpenFor(subs, st, key);
    assert Under(subs, st, keys) == rest + these && rest !! these;
  }

  /** A live listener's reference count is the sum of its key-set sizes. */
  lemma RefCountIsSum(subs: Subs, id: StateId, st: ChannelState)
    requires StateOk(subs, id, st) && !st.retired
    ensures st.refCount == SumSizes(st.keys, st.keys.Keys)
  {
    SumCounts(subs, id, st.keys, st.keys.Keys);
    assert Under(subs, id, st.keys.Keys) == OpenAt(subs, id) by {
      forall s | s in OpenAt(subs, id) ensures s in Under(subs, id, st.keys.Keys) {}
    }
  }
}
