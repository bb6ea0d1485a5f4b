/**
 * The publish-state callback tracker of Simplenote's `PublishController`.
 *
 * A request to change a note's `published` flag stores a completion callback
 * under the note's key, changes and saves the note and arms a sweep timer.
 * When the sync engine reports an update for that key the callback fires once
 * and is forgotten; every tick of the timer silently drops callbacks older
 * than `TimeOut`, and a tick that finds nothing pending invalidates the timer.
 *
 * Time is an abstract clock passed to each operation, the persistence hook is
 * a counter, and invoking a callback appends (callback, note) to a log.
 */
module PublishControl {
  import opened Wrappers

  /** A point on the abstract clock that replaces `Date()`. */
  type Time = int

  /** Identifies a completion block passed to `UpdatePublishState`. */
  type CallbackId = nat

  /** `Constants.timeOut`: the timer interval and the expiry threshold. */
  const TimeOut: int := 5

  /** The Core Data note, reduced to the three fields the tracker uses. */
  class Note {
    const simperiumKey: string
    var published: bool
    var modificationDate: Time

    constructor (key: string, published: bool, modificationDate: Time)
      ensures simperiumKey == key
      ensures this.published == published && this.modificationDate == modificationDate
    {
      simperiumKey := key;
      this.published := published;
      this.modificationDate := modificationDate;
    }
  }

  /** `PublishListenWrapper`: the note, its completion block and the time it was registered. */
  datatype Wrapper = Wrapper(note: Note, block: CallbackId, expiration: Time)

  /** One call `block(note)` of a completion block. */
  datatype Invocation = Invocation(block: CallbackId, note: Note)

  /** A repeating timer handle; an invalidated timer never fires again. */
  datatype Timer = Timer(id: nat, interval: Time, isValid: bool)

  /**
   * Everything the tracker owns: the callback map, the timer handle, how many
   * timers the factory has made, how many saves were issued, and the log of
   * callback invocations.
   */
  datatype PublishState = PublishState(
    callbacks: map<string, Wrapper>,
    timer: Option<Timer>,
    timersCreated: nat,
    saves: nat,
    invocations: seq<Invocation>)

  /** A freshly initialised controller. */
  const Initial: PublishState := PublishState(map[], None, 0, 0, [])

  predicate TimerIsValid(t: Option<Timer>) {
    t.Some? && t.value.isValid
  }

  /** `PublishListenWrapper.isExpired`: registered strictly more than `TimeOut` ago. */
  function IsExpired(w: Wrapper, now: Time): (r: bool)
    ensures r <==> now - w.expiration > TimeOut
    ensures now == w.expiration + TimeOut ==> !r
  {
    w.expiration - now < -TimeOut
  }

  /** The callback map after `removeExpiredCallbacks`: exactly the unexpired entries remain. */
  function Sweep(m: map<string, Wrapper>, now: Time): (r: map<string, Wrapper>)
    ensures r.Keys <= m.Keys
    ensures forall k :: k in m ==> (k in r <==> !IsExpired(m[k], now))
    ensures forall k :: k in r ==> r[k] == m[k]
  {
    map k | k in m && !IsExpired(m[k], now) :: m[k]
  }

  /**
   * `prepareTimerIfNeeded`: the timer handle and the factory's count afterwards.
   * A valid timer is kept; a missing or invalidated one is replaced by a new one.
   */
  function PreparedTimer(t: Option<Timer>, made: nat): (r: (Option<Timer>, nat))
    ensures TimerIsValid(r.0)
    ensures TimerIsValid(t) ==> r == (t, made)
    ensures !TimerIsValid(t) ==> r.0.value.id == made && r.1 == made + 1 && r.0.value.interval == TimeOut
  {
    if TimerIsValid(t) then (t, made) else (Some(Timer(made, TimeOut, true)), made + 1)
  }

  /**
   * `updatePublishState` when the flag really changes: the new wrapper replaces
   * any earlier one for the note's key without invoking it, the note is saved
   * once and the timer is armed.
   */
  function RequestChange(s: PublishState, w: Wrapper): (r: PublishState)
    ensures r.callbacks.Keys == s.callbacks.Keys + {w.note.simperiumKey}
    ensures r.callbacks[w.note.simperiumKey] == w
    ensures forall k :: k in s.callbacks && k != w.note.simperiumKey ==> r.callbacks[k] == s.callbacks[k]
    ensures r.invocations == s.invocations
    ensures r.saves == s.saves + 1
    ensures TimerIsValid(r.timer)
    ensures TimerIsValid(s.timer) ==> r.timer == s.timer && r.timersCreated == s.timersCreated
    ensures !TimerIsValid(s.timer) ==> r.timer == Some(Timer(s.timersCreated, TimeOut, true)) && r.timersCreated == s.timersCreated + 1
  {
    var prepared := PreparedTimer(s.timer, s.timersCreated);
    s.(callbacks := s.callbacks[w.note.simperiumKey := w],
       saves := s.saves + 1,
       timer := prepared.0,
       timersCreated := prepared.1)
  }

  /**
   * `didReceiveUpdateFromSimperium`: an unknown key changes nothing; a known one
   * fires its callback once, with the note stored beside it, and is removed.
   */
  function Delivered(s: PublishState, key: string): (r: PublishState)
    ensures key !in s.callbacks ==> r == s
    ensures key in s.callbacks ==>
      && r.invocations == s.invocations + [Invocation(s.callbacks[key].block, s.callbacks[key].note)]
      && r.callbacks == s.callbacks - {key}
      && r.timer == s.timer && r.timersCreated == s.timersCreated && r.saves == s.saves
  {
    if key in s.callbacks then
      var w := s.callbacks[key];
      s.(invocations := s.invocations + [Invocation(w.block, w.note)],
         callbacks := s.callbacks - {key})
    else
      s
  }

  /**
   * One firing of the timer made by `timeOutTimer`. Only a valid timer fires.
   * With nothing pending it invalidates itself; otherwise it drops the expired
   * entries, invokes none of them and stays valid.
   */
  function Ticked(s: PublishState, now: Time): (r: PublishState)
    ensures !TimerIsValid(s.timer) ==> r == s
    ensures TimerIsValid(s.timer) && s.callbacks == map[] ==>
      r.timer == Some(s.timer.value.(isValid := false)) && r.callbacks == s.callbacks
    ensures TimerIsValid(s.timer) && s.callbacks != map[] ==>
      r.timer == s.timer && r.callbacks == Sweep(s.callbacks, now)
    ensures r.invocations == s.invocations && r.saves == s.saves && r.timersCreated == s.timersCreated
  {
    if !TimerIsValid(s.timer) then s
    else if s.callbacks == map[] then s.(timer := Some(s.timer.value.(isValid := false)))
    else s.(callbacks := Sweep(s.callbacks, now))
  }

  /** The controller's object invariant. */
  ghost predicate Consistent(s: PublishState) {
    // every pending callback is filed under its own note's key
    && (forall k :: k in s.callbacks ==> s.callbacks[k].note.simperiumKey == k)
    // while anything is pending, a valid timer will sweep it
    && (s.callbacks != map[] ==> TimerIsValid(s.timer))
    // the handle is the factory's latest timer, repeating every TimeOut
    && (s.timer.Some? ==> s.timer.value.id < s.timersCreated && s.timer.value.interval == TimeOut)
  }

  /**
   * The tracker itself. `callbackMap` and `timer` are the source's fields;
   * `timersCreated`, `saveCount` and `invocations` record what the timer
   * factory, the persistence hook and the completion blocks were asked to do.
   */
  class PublishController {
    var callbackMap: map<string, Wrapper>
    var timer: Option<Timer>
    var timersCreated: nat
    var saveCount: nat
    var invocations: seq<Invocation>

    function State(): PublishState
      reads this
    {
      PublishState(callbackMap, timer, timersCreated, saveCount, invocations)
    }

    ghost predicate Valid()
      reads this
    {
      Consistent(State())
    }

    constructor ()
      ensures Valid() && State() == Initial
    {
      callbackMap := map[];
      timer := None;
      timersCreated := 0;
      saveCount := 0;
      invocations := [];
    }

    /** Change the note's flag and wait for the remote round trip, or do nothing if it already matches. */
    method UpdatePublishState(note: Note, published: bool, completion: CallbackId, now: Time)
      requires Valid()
      modifies this, note
      ensures Valid()
      ensures old(note.published) == published ==> unchanged(this) && unchanged(note)
      ensures old(note.published) != published ==>
        && note.published == published && note.modificationDate == now
        && State() == RequestChange(old(State()), Wrapper(note, completion, now))
    {
      if note.published == published {
        return;
      }
      callbackMap := callbackMap[note.simperiumKey := Wrapper(note, completion, now)];
      ChangePublishState(note, published, now);
      PrepareTimerIfNeeded();
      RequestChangeConsistent(old(State()), Wrapper(note, completion, now));
    }

    /** The sync engine saw a remote update for `key`. */
    method DidReceiveUpdateFromSimperium(key: string)
      requires Valid()
      modifies this`callbackMap, this`invocations
      ensures Valid()
      ensures State() == Delivered(old(State()), key)
    {
      if key !in callbackMap {
        return;
      }
      var wrapper := callbackMap[key];
      invocations := invocations + [Invocation(wrapper.block, wrapper.note)];
      RemoveCallbackFor(key);
    }

    method ChangePublishState(note: Note, published: bool, now: Time)
      modifies note, this`saveCount
      ensures note.published == published && note.modificationDate == now
      ensures saveCount == old(saveCount) + 1
    {
      note.published := published;
      note.modificationDate := now;
      saveCount := saveCount + 1;
    }

    /** Drop, without invoking them, the callbacks registered more than `TimeOut` ago. */
    method RemoveExpiredCallbacks(now: Time)
      modifies this`callbackMap
      ensures callbackMap == Sweep(old(callbackMap), now)
    {
      var entries := callbackMap;
      var pending := entries.Keys;
      while pending != {}
        invariant pending <= entries.Keys
        invariant callbackMap.Keys <= entries.Keys
        invariant forall k :: k in callbackMap ==> callbackMap[k] == entries[k]
        invariant forall k :: k in pending ==> k in callbackMap
        invariant forall k :: k in entries && k !in pending ==> (k in callbackMap <==> !IsExpired(entries[k], now))
        decreases pending
      {
        var key :| key in pending;
        if IsExpired(entries[key], now) {
          RemoveCallbackFor(key);
        }
        pending := pending - {key};
      }
      assert callbackMap.Keys == Sweep(entries, now).Keys;
    }

    method RemoveCallbackFor(key: string)
      modifies this`callbackMap
      ensures callbackMap == old(callbackMap) - {key}
    {
      callbackMap := callbackMap - {key};
    }

    /** Arm the sweep timer unless a valid one is already running. */
    method PrepareTimerIfNeeded()
      modifies this`timer, this`timersCreated
      ensures (timer, timersCreated) == PreparedTimer(old(timer), old(timersCreated))
    {
      if timer.None? {
        timer := Some(Timer(timersCreated, TimeOut, true));
        timersCreated := timersCreated + 1;
        return;
      }
      if !timer.value.isValid {
        timer := Some(Timer(timersCreated, TimeOut, true));
        timersCreated := timersCreated + 1;
      }
    }

    /** The body of the repeating timer's closure, run when the timer fires at `now`. */
    method TimerFired(now: Time)
      requires Valid()
      modifies this`timer, this`callbackMap
      ensures Valid()
      ensures State() == Ticked(old(State()), now)
    {
      if timer.None? || !timer.value.isValid {
        return;
      }
      if callbackMap == map[] {
        timer := Some(timer.value.(isValid := false));
      } else {
        RemoveExpiredCallbacks(now);
      }
    }
  }

  /* ---------------------------------------------------------------------- */
  /* Each operation keeps the object invariant.                             */

  lemma RequestChangeConsistent(s: PublishState, w: Wrapper)
    requires Consistent(s)
    ensures Consistent(RequestChange(s, w))
  {
  }

  /* ---------------------------------------------------------------------- */
  /* Runs of the tracker: requests, remote updates and timer ticks.         */

  datatype Event =
    | Request(listener: Wrapper)
    | RemoteUpdate(key: string)
    | TimerTick(now: Time)

  function Apply(s: PublishState, e: Event): PublishState {
    match e
    case Request(w) => RequestChange(s, w)
    case RemoteUpdate(key) => Delivered(s, key)
    case TimerTick(now) => Ticked(s, now)
  }

  function Run(s: PublishState, es: seq<Event>): PublishState
    decreases |es|
  {
    if es == [] then s else Run(Apply(s, es[0]), es[1..])
  }

  lemma {:induction false} RunConsistent(s: PublishState, es: seq<Event>)
    requires Consistent(s)
    ensures Consistent(Run(s, es))
    decreases |es|
  {
    if es != [] {
      assert Consistent(Apply(s, es[0]));
      RunConsistent(Apply(s, es[0]), es[1..]);
    }
  }

  /* ---------------------------------------------------------------------- */
  /* A completion block fires at most once.                                 */

  function PendingBlocks(s: PublishState): set<CallbackId> {
    set k | k in s.callbacks :: s.callbacks[k].block
  }

  function FiredBlocks(s: PublishState): set<CallbackId> {
    set i | 0 <= i < |s.invocations| :: s.invocations[i].block
  }

  /** No block was invoked twice, none waits under two keys, none waits after firing. */
  ghost predicate FiresAtMostOnce(s: PublishState) {
    && (forall i, j :: 0 <= i < j < |s.invocations| ==> s.invocations[i].block != s.invocations[j].block)
    && (forall k1, k2 :: k1 in s.callbacks && k2 in s.callbacks && k1 != k2 ==>
          s.callbacks[k1].block != s.callbacks[k2].block)
    && PendingBlocks(s) !! FiredBlocks(s)
  }

  /** Every request of the run passes a block never seen before. */
  ghost predicate FreshRequests(s: PublishState, es: seq<Event>) {
    && (forall i, j :: 0 <= i < j < |es| && es[i].Request? && es[j].Request? ==>
          es[i].listener.block != es[j].listener.block)
    && (forall i :: 0 <= i < |es| && es[i].Request? ==>
          es[i].listener.block !in PendingBlocks(s) + FiredBlocks(s))
  }

  lemma StepFiresAtMostOnce(s: PublishState, e: Event)
    requires FiresAtMostOnce(s)
    requires e.Request? ==> e.listener.block !in PendingBlocks(s) + FiredBlocks(s)
    ensures FiresAtMostOnce(Apply(s, e))
    ensures PendingBlocks(Apply(s, e)) + FiredBlocks(Apply(s, e))
      <= PendingBlocks(s) + FiredBlocks(s) + (if e.Request? then {e.listener.block} else {})
  {
    var r := Apply(s, e);
    match e
    case Request(w) =>
      var key := w.note.simperiumKey;
      forall k | k in r.callbacks ensures r.callbacks[k].block in PendingBlocks(s) + {w.block} {
        if k != key {
          assert r.callbacks[k] == s.callbacks[k];
        }
      }
    case RemoteUpdate(key) =>
      if key in s.callbacks {
        var n := |s.invocations|;
        assert r.invocations[n].block == s.callbacks[key].block;
        assert forall i :: 0 <= i < n ==> r.invocations[i] == s.invocations[i];
        assert s.callbacks[key].block in PendingBlocks(s);
        forall k | k in r.callbacks ensures r.callbacks[k].block !in FiredBlocks(r) {
          assert r.callbacks[k] == s.callbacks[k];
          assert s.callbacks[k].block in PendingBlocks(s);
          assert s.callbacks[k].block != s.callbacks[key].block;
        }
        forall i | 0 <= i < |r.invocations| ensures r.invocations[i].block in FiredBlocks(s) + PendingBlocks(s) {
          if i < n {
            assert r.invocations[i].block == s.invocations[i].block;
          }
        }
      }
    case TimerTick(now) =>
      forall k | k in r.callbacks ensures r.callbacks[k].block in PendingBlocks(s) {
        assert r.callbacks[k] == s.callbacks[k];
      }
  }

  /**
   * Over any run in which each request passes a new completion block, no block
   * is ever invoked twice: overwriting, delivery and expiry never fire a block
   * a second time.
   */
  lemma {:induction false} CallbacksFireAtMostOnce(s: PublishState, es: seq<Event>)
    requires FiresAtMostOnce(s) && FreshRequests(s, es)
    ensures FiresAtMostOnce(Run(s, es))
    decreases |es|
  {
    if es != [] {
      var s' := Apply(s, es[0]);
      StepFiresAtMostOnce(s, es[0]);
      var rest := es[1..];
      forall i | 0 <= i < |rest| && rest[i].Request?
        ensures rest[i].listener.block !in PendingBlocks(s') + FiredBlocks(s')
      {
        assert rest[i] == es[i + 1];
        if es[0].Request? {
          assert es[0].listener.block != es[i + 1].listener.block;
        }
      }
      forall i, j | 0 <= i < j < |rest| && rest[i].Request? && rest[j].Request?
        ensures rest[i].listener.block != rest[j].listener.block
      {
        assert rest[i] == es[i + 1] && rest[j] == es[j + 1];
      }
      CallbacksFireAtMostOnce(s', rest);
    }
  }

  /** From a fresh controller: with distinct completion blocks, no block is ever invoked twice. */
  lemma FreshControllerFiresAtMostOnce(es: seq<Event>)
    requires forall i, j :: 0 <= i < j < |es| && es[i].Request? && es[j].Request? ==>
      es[i].listener.block != es[j].listener.block
    ensures var r := Run(Initial, es);
      forall i, j :: 0 <= i < j < |r.invocations| ==> r.invocations[i].block != r.invocations[j].block
  {
    CallbacksFireAtMostOnce(Initial, es);
  }

  /* ---------------------------------------------------------------------- */
  /* A completion block fires only with the note it was registered with.    */

  /** The (block, note) pairs of the run's requests. */
  function RequestedPairs(es: seq<Event>): set<(CallbackId, Note)> {
    set i | 0 <= i < |es| && es[i].Request? :: (es[i].listener.block, es[i].listener.note)
  }

  /** Every pending wrapper and every logged invocation pairs a block with a note from `pairs`. */
  ghost predicate PairedWithin(s: PublishState, pairs: set<(CallbackId, Note)>) {
    && (forall k :: k in s.callbacks ==> (s.callbacks[k].block, s.callbacks[k].note) in pairs)
    && (forall i :: 0 <= i < |s.invocations| ==> (s.invocations[i].block, s.invocations[i].note) in pairs)
  }

  lemma StepPairedWithin(s: PublishState, e: Event, pairs: set<(CallbackId, Note)>)
    requires PairedWithin(s, pairs)
    requires e.Request? ==> (e.listener.block, e.listener.note) in pairs
    ensures PairedWithin(Apply(s, e), pairs)
  {
    var r := Apply(s, e);
    match e
    case Request(w) =>
      forall k | k in r.callbacks ensures (r.callbacks[k].block, r.callbacks[k].note) in pairs {
        if k != w.note.simperiumKey {
          assert r.callbacks[k] == s.callbacks[k];
        }
      }
    case RemoteUpdate(key) =>
      if key in s.callbacks {
        forall i | 0 <= i < |r.invocations| ensures (r.invocations[i].block, r.invocations[i].note) in pairs {
          if i < |s.invocations| {
            assert r.invocations[i] == s.invocations[i];
          }
        }
        forall k | k in r.callbacks ensures (r.callbacks[k].block, r.callbacks[k].note) in pairs {
          assert r.callbacks[k] == s.callbacks[k];
        }
      }
    case TimerTick(now) =>
      forall k | k in r.callbacks ensures (r.callbacks[k].block, r.callbacks[k].note) in pairs {
        assert r.callbacks[k] == s.callbacks[k];
      }
  }

  lemma {:induction false} RunPairedWithin(s: PublishState, es: seq<Event>, pairs: set<(CallbackId, Note)>)
    requires PairedWithin(s, pairs) && RequestedPairs(es) <= pairs
    ensures PairedWithin(Run(s, es), pairs)
    decreases |es|
  {
    if es != [] {
      if es[0].Request? {
        assert (es[0].listener.block, es[0].listener.note) in RequestedPairs(es);
      }
      StepPairedWithin(s, es[0], pairs);
      forall p | p in RequestedPairs(es[1..]) ensures p in pairs {
        var i :| 0 <= i < |es[1..]| && es[1..][i].Request? && p == (es[1..][i].listener.block, es[1..][i].listener.note);
        assert es[1..][i] == es[i + 1];
      }
      RunPairedWithin(Apply(s, es[0]), es[1..], pairs);
    }
  }

  /**
   * From a fresh controller, every invocation in any run calls a requested
   * block with the very note that was passed along with that block.
   */
  lemma FreshControllerFiresWithRequestedNote(es: seq<Event>)
    ensures var r := Run(Initial, es);
      forall i :: 0 <= i < |r.invocations| ==> (r.invocations[i].block, r.invocations[i].note) in RequestedPairs(es)
  {
    RunPairedWithin(Initial, es, RequestedPairs(es));
  }

  /* ---------------------------------------------------------------------- */
  /* Single-operation properties.                                           */

  /** A second update for the same key is a no-op. */
  lemma SecondDeliveryIsNoOp(s: PublishState, key: string)
    ensures Delivered(Delivered(s, key), key) == Delivered(s, key)
  {
  }

  /** Only the latest of two requests for one key fires; the superseded block never does. */
  lemma SupersededCallbackNeverFires(s: PublishState, w1: Wrapper, w2: Wrapper)
    requires w1.note.simperiumKey == w2.note.simperiumKey
    ensures var r := Delivered(RequestChange(RequestChange(s, w1), w2), w2.note.simperiumKey);
      && r.invocations == s.invocations + [Invocation(w2.block, w2.note)]
      && w2.note.simperiumKey !in r.callbacks
  {
  }

  /** A tick after an entry's timeout drops it silently; a late update for it is then a no-op. */
  lemma ExpiredCallbackIsDropped(s: PublishState, key: string, now: Time)
    requires TimerIsValid(s.timer) && key in s.callbacks
    requires now > s.callbacks[key].expiration + TimeOut
    ensures var r := Ticked(s, now);
      && key !in r.callbacks
      && r.invocations == s.invocations
      && TimerIsValid(r.timer)
      && Delivered(r, key) == r
  {
  }

  /** A tick at exactly the timeout keeps the entry. */
  lemma CallbackAtTimeoutIsKept(s: PublishState, key: string)
    requires key in s.callbacks
    ensures key in Ticked(s, s.callbacks[key].expiration + TimeOut).callbacks
  {
  }

  /** The timer stops on a tick that finds nothing pending and the next request arms a new one. */
  lemma TimerStopsAndRearms(s: PublishState, now: Time, w: Wrapper)
    requires TimerIsValid(s.timer) && s.callbacks == map[]
    ensures !TimerIsValid(Ticked(s, now).timer)
    ensures var r := RequestChange(Ticked(s, now), w);
      r.timer == Some(Timer(s.timersCreated, TimeOut, true)) && r.timersCreated == s.timersCreated + 1
  {
  }

  /** Arming is idempotent: a second request while the timer runs creates no timer. */
  lemma RearmingIsIdempotent(s: PublishState, w1: Wrapper, w2: Wrapper)
    ensures var r1 := RequestChange(s, w1);
      var r2 := RequestChange(r1, w2);
      r2.timer == r1.timer && r2.timersCreated == r1.timersCreated
  {
  }

  /**
   * A lone request whose update never arrives: the first tick past its timeout
   * drops it without firing and leaves the timer valid; the next tick finds the
   * map empty and invalidates the timer.
   */
  lemma AbandonedRequestScenario(w: Wrapper, now: Time, later: Time)
    requires now > w.expiration + TimeOut
    ensures var s1 := Ticked(RequestChange(Initial, w), now);
      && s1.callbacks == map[] && s1.invocations == [] && TimerIsValid(s1.timer)
      && !TimerIsValid(Ticked(s1, later).timer)
  {
  }
}
