/** The deduplicating work set with its one-slot wakeup, and the pump that empties it. */
module Pending {
  import opened Sorting

  datatype Kind = DeviceKind | DeviceTypeKind | GraphKind

  datatype Trigger = Trigger(kind: Kind, id: Id)

  /** The kinds' own strings order them: "device", "device-type", "graph". */
  function KindRank(k: Kind): nat {
    match k case DeviceKind => 0 case DeviceTypeKind => 1 case GraphKind => 2
  }

  predicate TriggerBefore(a: Trigger, b: Trigger) {
    if a.kind != b.kind then KindRank(a.kind) < KindRank(b.kind) else Before(a.id, b.id)
  }

  lemma TriggerOrder()
    ensures StrictOrder(TriggerBefore)
    ensures forall a: Trigger, b: Trigger :: a != b ==> TriggerBefore(a, b) || TriggerBefore(b, a)
  {
    BeforeIsStrictOrder();
    forall a: Trigger, b: Trigger | a != b && a.kind == b.kind ensures Before(a.id, b.id) || Before(b.id, a.id) {
      BeforeTotal(a.id, b.id);
    }
  }

  /** The sections of Add and Take that run as one step: under the mutex, or on the channel. */
  class Work {
    var set_: set<Trigger>
    var wake: bool

    constructor ()
      ensures set_ == {} && !wake
    {
      set_, wake := {}, false;
    }

    /** The fields are the work and the token of a state of the interleavings below. */
    predicate Holds(s: State)
      reads this
    {
      s.work == set_ && s.token == wake
    }

    method Record(t: Trigger)
      modifies this`set_
      ensures set_ == old(set_) + {t}
      ensures forall s: State :: old(Holds(s)) ==> Holds(Step(s, AddLocks(t)))
    {
      set_ := set_ + {t};
    }

    /** A token already queued is enough: a second one is dropped. */
    method Signal()
      modifies this`wake
      ensures wake
      ensures forall s: State :: old(Holds(s)) && s.sending > 0 ==> Holds(Step(s, AddSends))
    {
      if !wake { wake := true; }
    }

    /** Everything accumulated, each once, sorted; the set is empty afterwards. */
    method Drain() returns (batch: seq<Trigger>)
      modifies this`set_
      ensures set_ == {}
      ensures StrictlySorted(TriggerBefore, batch) && forall t :: t in batch <==> t in old(set_)
      ensures forall s: State :: old(Holds(s)) && s.pump.Checking? ==> Holds(Step(s, PumpLooks))
    {
      var listed := ListOf(set_);
      TriggerOrder();
      SortSorts(TriggerBefore, listed);
      batch := Sort(TriggerBefore, listed);
      set_ := {};
    }
  }

  // ---- every interleaving of Adds with the one pump ----

  datatype Pump =
    | Checking                      // about to look under the mutex
    | Parked                        // in the select: waiting for a token or for the end
    | Holding(batch: set<Trigger>)  // offering a batch to the loop
    | Stopped

  /** `sending` counts the Adds between their unlock and their send. */
  datatype State = State(
    work: set<Trigger>, token: bool, sending: nat, pump: Pump, cancelled: bool,
    clock: nat, added: map<Trigger, nat>, resolved: map<Trigger, nat>)

  const START := State({}, false, 0, Checking, false, 0, map[], map[])

  datatype Event = AddLocks(t: Trigger) | AddSends | PumpLooks | PumpWakes | PumpHandsOver | Cancel | PumpStops

  function Stamp(m: map<Trigger, nat>, ts: set<Trigger>, time: nat): map<Trigger, nat> {
    map t | t in m.Keys + ts :: if t in ts then time else m[t]
  }

  /** One atomic step; an event that cannot happen changes nothing but the clock. */
  function Step(s: State, e: Event): State {
    var n := s.(clock := s.clock + 1);
    match e
    case AddLocks(t) => n.(work := s.work + {t}, sending := s.sending + 1, added := s.added[t := s.clock])
    case AddSends => if s.sending > 0 then n.(token := true, sending := s.sending - 1) else n
    case PumpLooks =>
      if !s.pump.Checking? then n
      else if s.work != {} then n.(work := {}, pump := Holding(s.work))
      else n.(pump := Parked)
    case PumpWakes => if s.pump.Parked? && s.token then n.(token := false, pump := Checking) else n
    case PumpHandsOver =>
      if s.pump.Holding? then n.(pump := Checking, resolved := Stamp(s.resolved, s.pump.batch, s.clock)) else n
    case Cancel => n.(cancelled := true)
    case PumpStops => if s.cancelled && (s.pump.Parked? || s.pump.Holding?) then n.(pump := Stopped) else n
  }

  function Run(s: State, events: seq<Event>): State
    decreases |events|
  {
    if events == [] then s else Run(Step(s, events[0]), events[1..])
  }

  /** Work and a parked pump: then a token is queued, or an Add is about to send one. */
  predicate NoLostWakeup(s: State) {
    s.work != {} && s.pump.Parked? ==> s.token || s.sending > 0
  }

  /** Every trigger is in the set, in the pump's hand, or was handed over after its last Add. */
  ghost predicate NoLostTrigger(s: State) {
    forall t :: t in s.added && !s.cancelled ==>
      t in s.work || (s.pump.Holding? && t in s.pump.batch) || (t in s.resolved && s.added[t] < s.resolved[t])
  }

  ghost predicate Sound(s: State) {
    && NoLostWakeup(s) && NoLostTrigger(s)
    && (s.pump.Stopped? ==> s.cancelled)
    && (forall t :: t in s.added ==> s.added[t] < s.clock)
    && (forall t :: t in s.work ==> t in s.added)
  }

  lemma StepKeepsSound(s: State, e: Event)
    requires Sound(s)
    ensures Sound(Step(s, e))
  {
    if e.PumpHandsOver? && s.pump.Holding? {
      assert forall t :: t in s.resolved.Keys + s.pump.batch ==> t in Stamp(s.resolved, s.pump.batch, s.clock);
    }
  }

  lemma {:induction false} RunKeepsSound(s: State, events: seq<Event>)
    requires Sound(s)
    ensures Sound(Run(s, events))
    decreases |events|
  {
    if events != [] {
      StepKeepsSound(s, events[0]);
      RunKeepsSound(Step(s, events[0]), events[1..]);
    }
  }

  /**
   * From the start, in every interleaving: no wakeup and no trigger is lost until cancellation.
   */
  lemma NothingIsLost(events: seq<Event>)
    ensures var s := Run(START, events); NoLostWakeup(s) && NoLostTrigger(s)
  {
    RunKeepsSound(START, events);
  }

  /** Left alone - no Add under way, nothing to wake on - a parked pump has resolved everything. */
  lemma QuietMeansResolved(events: seq<Event>)
    ensures var s := Run(START, events);
            s.pump.Parked? && !s.token && s.sending == 0 && !s.cancelled ==>
              s.work == {} && forall t :: t in s.added ==> t in s.resolved && s.added[t] < s.resolved[t]
  {
    NothingIsLost(events);
  }

  /** With work pending, the pump's own steps bring it into the pump's hand. */
  lemma PumpTakesWhatIsThere(s: State)
    requires Sound(s) && s.work != {} && s.pump.Parked? && !s.cancelled
    ensures Run(s, [AddSends, PumpWakes, PumpLooks]).pump == Holding(s.work)
  {
    var events := [AddSends, PumpWakes, PumpLooks];
    assert events[1..] == [PumpWakes, PumpLooks] && events[1..][1..] == [PumpLooks] && events[1..][1..][1..] == [];
    var a := Step(s, AddSends);
    var b := Step(a, PumpWakes);
    var c := Step(b, PumpLooks);
    assert Run(s, events) == Run(a, events[1..]) == Run(b, [PumpLooks]) == Run(c, []);
  }

  // ---- in terms of what happened ----

  lemma {:induction false} RunLast(s: State, events: seq<Event>, e: Event)
    ensures Run(s, events + [e]) == Step(Run(s, events), e)
    decreases |events|
  {
    hide Step;
    if events == [] {
      assert (events + [e])[1..] == [];
      assert Run(Step(s, e), []) == Step(s, e);
    } else {
      assert (events + [e])[1..] == events[1..] + [e];
      RunLast(Step(s, events[0]), events[1..], e);
    }
  }

  /** At this time the pump handed over a batch that the trigger was in. */
  ghost predicate HandedOver(events: seq<Event>, k: nat, t: Trigger) {
    && k < |events| && events[k] == PumpHandsOver
    && var s := Run(START, events[..k]); s.pump.Holding? && t in s.pump.batch
  }

  /** The times in the state are those of the events. */
  ghost predicate Dated(events: seq<Event>, s: State, t: Trigger) {
    && s.clock == |events|
    && (forall i :: 0 <= i < |events| && events[i] == AddLocks(t) ==> t in s.added && i <= s.added[t])
    && (t in s.resolved ==> HandedOver(events, s.resolved[t], t))
  }

  lemma HandedOverStays(events: seq<Event>, e: Event, t: Trigger)
    ensures forall k :: HandedOver(events, k, t) ==> HandedOver(events + [e], k, t)
    ensures e == PumpHandsOver && HoldsNow(Run(START, events), t) ==> HandedOver(events + [e], |events|, t)
  {
    hide Run;
    var more := events + [e];
    assert forall k :: 0 <= k <= |events| ==> more[..k] == events[..k];
    assert events[..|events|] == events;
  }

  predicate HoldsNow(s: State, t: Trigger) { s.pump.Holding? && t in s.pump.batch }

  lemma StepIsDated(events: seq<Event>, s: State, e: Event, t: Trigger)
    requires Dated(events, s, t)
    requires forall k :: HandedOver(events, k, t) ==> HandedOver(events + [e], k, t)
    requires e == PumpHandsOver && HoldsNow(s, t) ==> HandedOver(events + [e], |events|, t)
    requires forall x :: x in s.added ==> s.added[x] < s.clock
    ensures Dated(events + [e], Step(s, e), t)
  {
    hide HandedOver;
  }

  lemma {:induction false} RunIsDated(events: seq<Event>, t: Trigger)
    ensures Dated(events, Run(START, events), t)
  {
    hide Dated, HandedOver, Step;
    if events == [] {
      NothingDated(t);
    } else {
      var before, e := events[..|events| - 1], events[|events| - 1];
      RunIsDated(before, t);
      RunLast(START, before, e);
      assert before + [e] == events;
      RunKeepsSound(START, before);
      HandedOverStays(before, e, t);
      StepIsDated(before, Run(START, before), e, t);
    }
  }

  lemma NothingDated(t: Trigger)
    ensures Dated([], START, t)
  {}

  /**
   * Whatever happened: once the pump has come to rest, every trigger added at some time was in a batch
   * handed over later.
   */
  lemma EveryTriggerIsHandedOver(events: seq<Event>, t: Trigger, i: nat)
    requires i < |events| && events[i] == AddLocks(t)
    ensures var s := Run(START, events);
            s.pump.Parked? && !s.token && s.sending == 0 && !s.cancelled ==>
              exists k :: i < k && HandedOver(events, k, t)
  {
    hide Run, HandedOver;
    RunIsDated(events, t);
    QuietMeansResolved(events);
    var s := Run(START, events);
    if s.pump.Parked? && !s.token && s.sending == 0 && !s.cancelled {
      assert i < s.resolved[t];
    }
  }
}
