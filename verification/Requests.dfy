/** The reconciler's request loop: wishes about groups, a one-slot wakeup, and the drain. */
module Requests {

  type Path = string

  /** The mutex-guarded fields and the channel, with the sections that run as one step. */
  class Wishes {
    var requested: set<Path>
    var all: bool
    var wake: bool

    constructor ()
      ensures requested == {} && !all && !wake
    {
      requested, all, wake := {}, false, false;
    }

    /** The fields are the wishes and the token of a state of the interleavings below. */
    predicate Holds(s: State)
      reads this
    {
      s.requested == requested && s.all == all && s.token == wake
    }

    method RequestGroup(path: Path)
      modifies this`requested
      ensures requested == old(requested) + {path}
      ensures forall s: State :: old(Holds(s)) ==> Holds(Step(s, GroupRequested(path)))
    {
      requested := requested + {path};
    }

    method RequestAll()
      modifies this`all
      ensures all
      ensures forall s: State :: old(Holds(s)) ==> Holds(Step(s, AllRequested))
    {
      all := true;
    }

    method Signal()
      modifies this`wake
      ensures wake
      ensures forall s: State :: old(Holds(s)) && s.signalling > 0 ==> Holds(Step(s, Signalled))
    {
      if !wake { wake := true; }
    }

    /** The head of a drain round: both wishes are taken and cleared together. */
    method TakeRound() returns (everything: bool, paths: set<Path>)
      modifies this`requested, this`all
      ensures everything == old(all) && paths == old(requested)
      ensures requested == {} && !all
      ensures forall s: State :: old(Holds(s)) && s.loop.Draining? ==> Holds(Step(s, RoundTaken))
    {
      everything, paths := all, requested;
      requested, all := {}, false;
    }
  }

  /** Where the loop goroutine stands; `since` is when the round or the pass it works on began. */
  datatype Loop =
    | Parked
    | Scheduled(full: bool, since: nat)          // a ticker's work: a full pass, or a poll of the groups
    | Draining                                   // about to take a round under the mutex
    | Full(paths: set<Path>, since: nat)         // the round asked for everything; its paths are dropped
    | Listing(paths: set<Path>, since: nat)      // about to list the default graphs
    | Passing(paths: set<Path>, since: nat)      // group passes still to run
  {
    /** The paths of the round under way. */
    function Round(): set<Path> { if Full? || Listing? || Passing? then paths else {} }

    predicate Dated() { Scheduled? || Full? || Listing? || Passing? }
  }

  /**
   * `signalling` counts requesters between their unlock and their signal. `asked` and `served` say when
   * a path was last asked for and when the last round began that ran its group; `lost` are the paths a
   * failed round took with it, and neither a new request nor a full pass has brought back.
   */
  datatype State = State(
    requested: set<Path>, all: bool, token: bool, signalling: nat, loop: Loop, clock: nat,
    asked: map<Path, nat>, askedAll: int, served: map<Path, nat>, servedAll: int, lost: set<Path>, lostAll: bool)

  const START := State({}, false, false, 0, Parked, 0, map[], -1, map[], -1, {}, false)

  datatype Event =
    | GroupRequested(path: Path) | AllRequested | Signalled
    | TokenReceived          // <-wake, then drain
    | BatchResolved          // a batch of triggers was resolved, then drain
    | Ticked(full: bool) | TickDone(ok: bool)
    | RoundTaken
    | FullDone(ok: bool)
    | Listed(ok: bool)
    | GroupDone(path: Path)

  predicate ByRequester(e: Event) { e.GroupRequested? || e.AllRequested? || e.Signalled? }

  function RequesterStep(s: State, e: Event): State {
    match e
    case GroupRequested(p) =>
      s.(requested := s.requested + {p}, signalling := s.signalling + 1, asked := s.asked[p := s.clock],
        lost := s.lost - {p})
    case AllRequested => s.(all := true, signalling := s.signalling + 1, askedAll := s.clock, lostAll := false)
    case _ => if s.signalling > 0 then s.(token := true, signalling := s.signalling - 1) else s
  }

  function TakeRound(s: State): State {
    var taken := s.(requested := {}, all := false);
    if s.all then taken.(loop := Full(s.requested, s.clock))
    else if s.requested == {} then taken.(loop := Parked)
    else taken.(loop := Listing(s.requested, s.clock))
  }

  /** A full pass serves everything asked for before it began, also what had been lost. */
  function ServeAll(s: State, since: nat): State { s.(servedAll := since, lost := {}, lostAll := false) }

  /** What a round loses when it fails: the paths not asked for again, nor since the last full pass began. */
  function Lose(s: State, paths: set<Path>): State {
    s.(lost := s.lost + set p | p in paths - s.requested && p in s.asked && s.servedAll <= s.asked[p])
  }

  function LoseAll(s: State): State { s.(lostAll := s.lostAll || (!s.all && s.servedAll <= s.askedAll)) }

  function IdleStep(s: State, e: Event): State {
    if e.TokenReceived? && s.token then s.(token := false, loop := Draining)
    else if e.BatchResolved? then s.(loop := Draining)
    else if e.Ticked? then s.(loop := Scheduled(e.full, s.clock))
    else s
  }

  function TickStep(s: State, e: Event): State
    requires s.loop.Scheduled?
  {
    if !e.TickDone? then s
    else if s.loop.full && e.ok then ServeAll(s, s.loop.since).(loop := Parked)
    else s.(loop := Parked)
  }

  function FullStep(s: State, e: Event): State
    requires s.loop.Full?
  {
    if !e.FullDone? then s
    else if e.ok then ServeAll(s, s.loop.since).(loop := Draining)
    else LoseAll(Lose(s, s.loop.paths)).(loop := Draining)
  }

  function ListStep(s: State, e: Event): State
    requires s.loop.Listing?
  {
    if !e.Listed? then s
    else if e.ok then s.(loop := Passing(s.loop.paths, s.loop.since))
    else Lose(s, s.loop.paths).(loop := Parked)
  }

  function PassStep(s: State, e: Event): State
    requires s.loop.Passing?
  {
    if !e.GroupDone? || e.path !in s.loop.paths then s
    else
      var rest := s.loop.paths - {e.path};
      s.(served := s.served[e.path := s.loop.since], loop := if rest == {} then Draining
        else Passing(rest, s.loop.since))
  }

  function LoopStep(s: State, e: Event): State {
    match s.loop
    case Parked => IdleStep(s, e)
    case Scheduled(_, _) => TickStep(s, e)
    case Draining => if e.RoundTaken? then TakeRound(s) else s
    case Full(_, _) => FullStep(s, e)
    case Listing(_, _) => ListStep(s, e)
    case Passing(_, _) => PassStep(s, e)
  }

  function Later(s: State): State { s.(clock := s.clock + 1) }

  /** One atomic step, at its own time; an event that cannot happen changes nothing else. */
  function Step(s: State, e: Event): State {
    Later(if ByRequester(e) then RequesterStep(s, e) else LoopStep(s, e))
  }

  function Run(s: State, events: seq<Event>): State
    decreases |events|
  {
    if events == [] then s else Run(Step(s, events[0]), events[1..])
  }

  // ---- what every step keeps ----

  /** The loop never sleeps on work. */
  predicate NeverSleepsOnWork(s: State) {
    (s.requested != {} || s.all) && !s.loop.Draining? ==> s.token || s.signalling > 0
  }

  /** The path has been served by a pass that began after it was last asked for. */
  predicate Served(s: State, p: Path)
    requires p in s.asked
  {
    s.asked[p] < s.servedAll || (p in s.served && s.asked[p] < s.served[p])
  }

  /** Times lie in the past, and no full pass began after the work under way. */
  predicate Dates(s: State) {
    && s.askedAll < s.clock && s.servedAll < s.clock
    && (s.loop.Dated() ==> s.loop.since < s.clock && s.servedAll <= s.loop.since)
  }

  predicate Timely(s: State, p: Path) {
    (p in s.asked ==> s.asked[p] < s.clock) && (p in s.served ==> s.served[p] < s.clock)
  }

  /** Where one path stands: not asked for, lost, queued, in the round under way, or served. */
  predicate Placed(s: State, p: Path) {
    && (p in s.requested + s.loop.Round() + s.lost ==> p in s.asked)
    && (p in s.asked ==> p in s.lost || p in s.requested || p in s.loop.Round() || Served(s, p))
  }

  /** A lost path is nowhere else, was lost before the work under way began, and has not been served. */
  predicate Lost(s: State, p: Path) {
    p in s.lost && p in s.asked ==>
      && p !in s.requested && p !in s.loop.Round() && !Served(s, p)
      && (s.loop.Dated() ==> s.asked[p] < s.loop.since)
  }

  /** A path queued or in hand was not asked for before the round that last served it began. */
  predicate Due(s: State, p: Path) {
    && (p in s.requested + s.loop.Round() && p in s.asked && p in s.served ==> s.served[p] <= s.asked[p])
    && (p in s.loop.Round() && p in s.asked ==>
       if p in s.requested then s.loop.since <= s.asked[p] else s.asked[p] < s.loop.since)
  }

  predicate Accounted(s: State, p: Path) { Timely(s, p) && Placed(s, p) && Lost(s, p) && Due(s, p) }

  /** The same for the wish for everything. */
  predicate Everything(s: State) {
    && (s.all || s.loop.Full? ==> 0 <= s.askedAll)
    && (0 <= s.askedAll ==>
       s.all || s.lostAll || (s.loop.Full? && s.askedAll < s.loop.since) || s.askedAll < s.servedAll)
    && (s.lostAll ==>
       !s.all && !s.loop.Full? && s.servedAll <= s.askedAll && (s.loop.Dated() ==> s.askedAll < s.loop.since))
    && (s.loop.Full? && s.all ==> s.loop.since <= s.askedAll)
    && (s.loop.Full? && !s.all ==> s.askedAll < s.loop.since)
  }

  /** What holds of the state as a whole. */
  predicate Overall(s: State) { Dates(s) && NeverSleepsOnWork(s) && Everything(s) }

  ghost predicate Sound(s: State) { Overall(s) && forall p :: Accounted(s, p) }

  lemma WaitingKeepsAccounted(s: State, p: Path)
    requires Accounted(s, p)
    ensures Accounted(Later(s), p)
  {}

  /** A full pass that succeeded accounts for every path, whether its round's, queued or lost. */
  lemma ServingKeepsAccounted(s: State, next: Loop, p: Path)
    requires (s.loop.Full? || s.loop.Scheduled?) && Dates(s) && Accounted(s, p) && !next.Dated()
    ensures Accounted(Later(ServeAll(s, s.loop.since).(loop := next)), p)
  {}

  /** A round that failed accounts for its paths: asked for again, served by a full pass since, or lost. */
  lemma LosingKeepsAccounted(s: State, next: Loop, p: Path)
    requires (s.loop.Full? || s.loop.Listing?) && Accounted(s, p) && !next.Dated()
    ensures Accounted(Later(Lose(s, s.loop.paths).(loop := next)), p)
  {}

  lemma OnePathOnly(s: State, n: State, p: Path)
    requires n == s.(lostAll := n.lostAll) && Accounted(Later(s), p)
    ensures Accounted(Later(n), p)
  {}

  lemma RequesterKeepsOverall(s: State, e: Event)
    requires ByRequester(e) && Overall(s)
    ensures Overall(Later(RequesterStep(s, e)))
  {}

  lemma RequesterKeepsAccounted(s: State, e: Event, p: Path)
    requires ByRequester(e) && Dates(s) && Accounted(s, p)
    ensures Accounted(Later(RequesterStep(s, e)), p)
  {}

  lemma IdleKeepsOverall(s: State, e: Event)
    requires s.loop.Parked? && Overall(s)
    ensures Overall(Later(IdleStep(s, e)))
  {}

  lemma IdleKeepsAccounted(s: State, e: Event, p: Path)
    requires s.loop.Parked? && Dates(s) && Accounted(s, p)
    ensures Accounted(Later(IdleStep(s, e)), p)
  {}

  lemma TickKeepsOverall(s: State, e: Event)
    requires s.loop.Scheduled? && Overall(s)
    ensures Overall(Later(TickStep(s, e)))
  {}

  lemma TickKeepsAccounted(s: State, e: Event, p: Path)
    requires s.loop.Scheduled? && Dates(s) && Accounted(s, p)
    ensures Accounted(Later(TickStep(s, e)), p)
  {
    ServingKeepsAccounted(s, Parked, p);
    hide ServeAll, Dates;
  }

  lemma RoundKeepsOverall(s: State)
    requires s.loop.Draining? && Overall(s)
    ensures Overall(Later(TakeRound(s)))
  {}

  lemma RoundKeepsAccounted(s: State, p: Path)
    requires s.loop.Draining? && Dates(s) && Accounted(s, p)
    ensures Accounted(Later(TakeRound(s)), p)
  {}

  lemma FullKeepsOverall(s: State, e: Event)
    requires s.loop.Full? && Overall(s)
    ensures Overall(Later(FullStep(s, e)))
  {}

  lemma FullKeepsAccounted(s: State, e: Event, p: Path)
    requires s.loop.Full? && Dates(s) && Accounted(s, p)
    ensures Accounted(Later(FullStep(s, e)), p)
  {
    hide Accounted, Lose, ServeAll, Dates;
    WaitingKeepsAccounted(s, p);
    ServingKeepsAccounted(s, Draining, p);
    LosingKeepsAccounted(s, Draining, p);
    OnePathOnly(Lose(s, s.loop.paths).(loop := Draining), LoseAll(Lose(s, s.loop.paths)).(loop := Draining), p);
  }

  lemma ListKeepsOverall(s: State, e: Event)
    requires s.loop.Listing? && Overall(s)
    ensures Overall(Later(ListStep(s, e)))
  {}

  lemma ListKeepsAccounted(s: State, e: Event, p: Path)
    requires s.loop.Listing? && Dates(s) && Accounted(s, p)
    ensures Accounted(Later(ListStep(s, e)), p)
  {
    LosingKeepsAccounted(s, Parked, p);
    hide Lose, Dates;
    WaitingKeepsAccounted(s, p);
  }

  lemma PassKeepsOverall(s: State, e: Event)
    requires s.loop.Passing? && Overall(s)
    ensures Overall(Later(PassStep(s, e)))
  {}

  lemma PassKeepsAccounted(s: State, e: Event, p: Path)
    requires s.loop.Passing? && Dates(s) && Accounted(s, p)
    ensures Accounted(Later(PassStep(s, e)), p)
  {}

  lemma WaitingKeeps(s: State, p: Path)
    requires Overall(s) && Accounted(s, p)
    ensures Overall(Later(s)) && Accounted(Later(s), p)
  {}

  lemma StepKeepsOverall(s: State, e: Event, p: Path)
    requires Overall(s) && Accounted(s, p)
    ensures Overall(Step(s, e)) && Accounted(Step(s, e), p)
  {
    assert Dates(s);
    hide Dates, NeverSleepsOnWork, Everything, Accounted, Overall, Later;
    hide RequesterStep, IdleStep, TickStep, TakeRound, FullStep, ListStep, PassStep;
    WaitingKeeps(s, p);
    if ByRequester(e) {
      RequesterKeepsOverall(s, e);
      RequesterKeepsAccounted(s, e, p);
    } else {
      match s.loop {
        case Parked => IdleKeepsOverall(s, e);
        case Scheduled(_, _) => TickKeepsOverall(s, e);
        case Draining => RoundKeepsOverall(s);
        case Full(_, _) => FullKeepsOverall(s, e);
        case Listing(_, _) => ListKeepsOverall(s, e);
        case Passing(_, _) => PassKeepsOverall(s, e);
      }
      match s.loop {
        case Parked => IdleKeepsAccounted(s, e, p);
        case Scheduled(_, _) => TickKeepsAccounted(s, e, p);
        case Draining => RoundKeepsAccounted(s, p);
        case Full(_, _) => FullKeepsAccounted(s, e, p);
        case Listing(_, _) => ListKeepsAccounted(s, e, p);
        case Passing(_, _) => PassKeepsAccounted(s, e, p);
      }
    }
  }

  lemma StepKeepsSound(s: State, e: Event)
    requires Sound(s)
    ensures Sound(Step(s, e))
  {
    hide Step, Overall, Accounted;
    StepKeepsOverall(s, e, "");
    forall p ensures Accounted(Step(s, e), p) { StepKeepsOverall(s, e, p); }
  }

  lemma {:induction false} RunKeepsSound(s: State, events: seq<Event>)
    requires Sound(s)
    ensures Sound(Run(s, events))
    decreases |events|
  {
    if events != [] {
      StepKeepsSound(s, events[0]);
      RunKeepsSound(Step(s, events[0]), events[1..]);
    }
  }

  lemma StartIsSound()
    ensures Sound(START)
  {}

  /** In every interleaving: whenever work is queued and the loop is parked, a wakeup is on its way. */
  lemma LoopWakes(events: seq<Event>)
    ensures var s := Run(START, events);
            s.loop.Parked? && (s.requested != {} || s.all) ==> s.token || s.signalling > 0
  {
    StartIsSound();
    RunKeepsSound(START, events);
  }

  /** Nothing queued and nothing under way that could queue or serve anything. */
  predicate AtRest(s: State) { s.loop.Parked? && !s.token && s.signalling == 0 }

  /**
   * Once the loop has come to rest a request - also one dropped with a round that ran everything - has
   * been followed by a pass that began after it if and only if no failed round took it along for good.
   */
  lemma EveryRequestServed(events: seq<Event>, p: Path)
    ensures var s := Run(START, events);
            AtRest(s) ==>
              && (p in s.asked ==> (Served(s, p) <==> p !in s.lost))
              && (0 <= s.askedAll ==> (s.askedAll < s.servedAll <==> !s.lostAll))
  {
    StartIsSound();
    RunKeepsSound(START, events);
    var s := Run(START, events);
    assert Overall(s) && Accounted(s, p);
  }

  lemma OthersLoseNothing(s: State, e: Event)
    requires ByRequester(e) || !(s.loop.Full? || s.loop.Listing?)
    ensures Step(s, e).lost <= s.lost
  {}

  lemma RoundLoses(s: State, e: Event)
    requires !ByRequester(e) && (s.loop.Full? || s.loop.Listing?)
    ensures e != FullDone(false) && e != Listed(false) ==> Step(s, e).lost <= s.lost
    ensures Step(s, e).lost <= s.lost + (s.loop.Round() - s.requested)
  {
    assert Lose(s, s.loop.Round()).lost <= s.lost + (s.loop.Round() - s.requested);
    hide Lose;
  }

  /** A failure loses paths of its own round at most, and none that was asked for again meanwhile. */
  lemma FailureLosesItsRoundOnly(events: seq<Event>, e: Event, p: Path)
    ensures var s := Run(START, events);
            p in Step(s, e).lost && p !in s.lost ==>
              && p in s.loop.Round() && p !in s.requested && (e == Listed(false) || e == FullDone(false))
              && p in s.asked && s.asked[p] < s.loop.since
  {
    StartIsSound();
    RunKeepsSound(START, events);
    var s := Run(START, events);
    assert Accounted(s, p);
    hide Step, Run, Sound;
    if ByRequester(e) || !(s.loop.Full? || s.loop.Listing?) { OthersLoseNothing(s, e); } else { RoundLoses(s, e); }
  }

  lemma RequestBringsBack(s: State, e: Event, p: Path)
    requires ByRequester(e) && p in s.lost && p !in Step(s, e).lost
    ensures e == GroupRequested(p)
  {}

  /** What is lost comes back with the next request for it, and with the next full pass that succeeds. */
  lemma LostUntilAskedAgain(s: State, e: Event, p: Path)
    requires p in s.lost && p !in Step(s, e).lost
    ensures e == GroupRequested(p) || ((e == FullDone(true) || e == TickDone(true)) && Step(s, e).lost == {})
  {
    hide Lose;
    if ByRequester(e) { RequestBringsBack(s, e, p); } else { LosingKeepsTheLost(s); }
  }

  lemma LosingKeepsTheLost(s: State)
    ensures forall paths :: s.lost <= Lose(s, paths).lost
  {}

  /** The condition is not idle: a listing that fails after the round was taken loses a request. */
  lemma FailedListingLosesTheRound(p: Path)
    ensures var s := Run(START, [GroupRequested(p), Signalled, TokenReceived, RoundTaken, Listed(false)]);
            AtRest(s) && p in s.lost && p in s.asked && !Served(s, p)
  {
    var events := [GroupRequested(p), Signalled, TokenReceived, RoundTaken, Listed(false)];
    assert events[1..] == [Signalled, TokenReceived, RoundTaken, Listed(false)];
    assert events[1..][1..] == [TokenReceived, RoundTaken, Listed(false)];
    assert events[1..][1..][1..] == [RoundTaken, Listed(false)];
    assert events[1..][1..][1..][1..] == [Listed(false)];
    assert events[1..][1..][1..][1..][1..] == [];
    var a := Step(START, events[0]);
    var b := Step(a, Signalled);
    var c := Step(b, TokenReceived);
    var d := Step(c, RoundTaken);
    var e := Step(d, Listed(false));
    assert Run(START, events) == Run(a, events[1..]) == Run(b, events[1..][1..]) == Run(c, [RoundTaken, Listed(false)]);
    assert Run(c, [RoundTaken, Listed(false)]) == Run(d, [Listed(false)]) == Run(e, []) == e;
  }

  // ---- in terms of what happened ----

  lemma {:induction false} RunLast(s: State, events: seq<Event>, e: Event)
    ensures Run(s, events + [e]) == Step(Run(s, events), e)
    decreases |events|
  {
    hide Step;
    if events == [] {
      assert (events + [e])[1..] == [];
      assert Run(Step(s, e), []) == Step(s, e);
    } else {
      assert (events + [e])[1..] == events[1..] + [e];
      RunLast(Step(s, events[0]), events[1..], e);
    }
  }

  /** The last event of this kind before time n was at this time. */
  ghost predicate LastWas(events: seq<Event>, e: Event, at: int) {
    && 0 <= at < |events| && events[at] == e && forall j :: at < j < |events| ==> events[j] != e
  }

  /** A round taken, or a full pass scheduled, at the first time was brought to an end by this event at the second. */
  ghost predicate Ended(events: seq<Event>, begin: int, end: int, e: Event) {
    0 <= begin < end < |events| && events[end] == e &&
    events[begin] == if e == TickDone(true) then Ticked(true) else RoundTaken
  }

  ghost predicate RanSince(events: seq<Event>, begin: int, e: Event) { exists end :: Ended(events, begin, end, e) }

  /** The times in the state are those of the events. */
  ghost predicate Dated(events: seq<Event>, s: State, p: Path) {
    && s.clock == |events|
    && (if p in s.asked then LastWas(events, GroupRequested(p), s.asked[p])
        else forall j :: 0 <= j < |events| ==> events[j] != GroupRequested(p))
    && (if 0 <= s.askedAll then LastWas(events, AllRequested, s.askedAll)
        else forall j :: 0 <= j < |events| ==> events[j] != AllRequested)
    && (s.loop.Scheduled? ==> s.loop.since < |events| && events[s.loop.since] == Ticked(s.loop.full))
    && (s.loop.Dated() && !s.loop.Scheduled? ==> s.loop.since < |events| && events[s.loop.since] == RoundTaken)
    && (p in s.served ==> RanSince(events, s.served[p], GroupDone(p)))
    && (0 <= s.servedAll ==>
          RanSince(events, s.servedAll, FullDone(true)) || RanSince(events, s.servedAll, TickDone(true)))
  }

  lemma EventsStay(events: seq<Event>, e: Event)
    ensures forall begin, end, x :: Ended(events, begin, end, x) ==> Ended(events + [e], begin, end, x)
    ensures forall begin, x :: RanSince(events, begin, x) ==> RanSince(events + [e], begin, x)
    ensures forall at, x :: LastWas(events, x, at) && x != e ==> LastWas(events + [e], x, at)
    ensures LastWas(events + [e], e, |events|)
  {
    var more := events + [e];
    forall begin, end, x | Ended(events, begin, end, x) ensures Ended(more, begin, end, x) {
      assert more[begin] == events[begin] && more[end] == events[end];
    }
    forall begin, x | RanSince(events, begin, x) ensures RanSince(more, begin, x) {
      var end :| Ended(events, begin, end, x);
      assert Ended(more, begin, end, x);
    }
    forall at, x | LastWas(events, x, at) && x != e ensures LastWas(more, x, at) {
      assert more[at] == events[at];
      forall j | at < j < |more| ensures more[j] != x {
        if j < |events| { assert more[j] == events[j]; }
      }
    }
  }

  lemma RequesterKeepsDated(events: seq<Event>, s: State, e: Event, p: Path)
    requires ByRequester(e) && Dated(events, s, p)
    ensures Dated(events + [e], Later(RequesterStep(s, e)), p)
  {
    EventsStay(events, e);
    hide LastWas, RanSince;
  }

  /** What a step of the loop does to the times. */
  ghost predicate Moves(s: State, n: State, e: Event, p: Path) {
    && n.clock == s.clock && n.asked == s.asked && n.askedAll == s.askedAll
    && (n.loop.Scheduled? ==> n.loop == s.loop || (e == Ticked(n.loop.full) && n.loop.since == s.clock))
    && (n.loop.Dated() && !n.loop.Scheduled? ==>
          (s.loop.Dated() && !s.loop.Scheduled? && n.loop.since == s.loop.since)
          || (e == RoundTaken && n.loop.since == s.clock))
    && (p in n.served ==>
          (p in s.served && n.served[p] == s.served[p])
          || (s.loop.Passing? && e == GroupDone(p) && n.served[p] == s.loop.since))
    && (n.servedAll == s.servedAll
        || (s.loop.Full? && e == FullDone(true) && n.servedAll == s.loop.since)
        || (s.loop.Scheduled? && s.loop.full && n.servedAll == s.loop.since && e == TickDone(true)))
  }

  lemma IdleMoves(s: State, e: Event, p: Path)
    requires s.loop.Parked?
    ensures Moves(s, IdleStep(s, e), e, p)
  {}

  lemma TickMoves(s: State, e: Event, p: Path)
    requires s.loop.Scheduled?
    ensures Moves(s, TickStep(s, e), e, p)
  {}

  lemma RoundMoves(s: State, p: Path)
    requires s.loop.Draining?
    ensures Moves(s, TakeRound(s), RoundTaken, p)
  {}

  lemma FullMoves(s: State, e: Event, p: Path)
    requires s.loop.Full?
    ensures Moves(s, FullStep(s, e), e, p)
  {}

  lemma ListMoves(s: State, e: Event, p: Path)
    requires s.loop.Listing?
    ensures Moves(s, ListStep(s, e), e, p)
  {}

  lemma PassMoves(s: State, e: Event, p: Path)
    requires s.loop.Passing?
    ensures Moves(s, PassStep(s, e), e, p)
  {}

  lemma NothingMoves(s: State, e: Event, p: Path)
    ensures Moves(s, s, e, p)
  {}

  lemma LoopMoves(s: State, e: Event, p: Path)
    ensures Moves(s, LoopStep(s, e), e, p)
  {
    hide Moves, IdleStep, TickStep, TakeRound, FullStep, ListStep, PassStep;
    NothingMoves(s, e, p);
    match s.loop {
      case Parked => IdleMoves(s, e, p);
      case Scheduled(_, _) => TickMoves(s, e, p);
      case Draining => RoundMoves(s, p);
      case Full(_, _) => FullMoves(s, e, p);
      case Listing(_, _) => ListMoves(s, e, p);
      case Passing(_, _) => PassMoves(s, e, p);
    }
  }

  lemma LoopKeepsDated(events: seq<Event>, s: State, e: Event, p: Path)
    requires !ByRequester(e) && Dated(events, s, p)
    ensures Dated(events + [e], Later(LoopStep(s, e)), p)
  {
    EventsStay(events, e);
    LoopMoves(s, e, p);
    LoopEnds(events, s, e, p);
    hide LastWas, LoopStep, RanSince;
  }

  lemma LoopEnds(events: seq<Event>, s: State, e: Event, p: Path)
    requires Dated(events, s, p)
    ensures s.loop.Scheduled? && s.loop.full && e == TickDone(true) ==> RanSince(events + [e], s.loop.since, e)
    ensures s.loop.Full? && e == FullDone(true) ==> RanSince(events + [e], s.loop.since, e)
    ensures s.loop.Passing? && e == GroupDone(p) ==> RanSince(events + [e], s.loop.since, e)
  {
    hide LastWas;
    if s.loop.Dated() {
      assert s.loop.Scheduled? || events[s.loop.since] == RoundTaken;
      assert (events + [e])[s.loop.since] == events[s.loop.since];
      assert (events + [e])[|events|] == e;
      assert s.loop.Scheduled? && s.loop.full && e == TickDone(true) ==>
          Ended(events + [e], s.loop.since, |events|, e);
      assert (s.loop.Full? && e == FullDone(true)) || (s.loop.Passing? && e == GroupDone(p)) ==>
          Ended(events + [e], s.loop.since, |events|, e);
    }
  }

  lemma {:induction false} RunIsDated(events: seq<Event>, p: Path)
    ensures Dated(events, Run(START, events), p)
  {
    hide Dated, RequesterStep, LoopStep;
    if events == [] {
      NothingDated(p);
    } else {
      var before, e := events[..|events| - 1], events[|events| - 1];
      RunIsDated(before, p);
      RunLast(START, before, e);
      assert before + [e] == events;
      if ByRequester(e) { RequesterKeepsDated(before, Run(START, before), e, p); }
      else { LoopKeepsDated(before, Run(START, before), e, p); }
    }
  }

  lemma NothingDated(p: Path)
    ensures Dated([], START, p)
  {}

  /** A round or a full pass began after this time and ran the group. */
  ghost predicate RanAfter(events: seq<Event>, i: nat, p: Path) {
    exists begin, end, e ::
      i < begin && Ended(events, begin, end, e) && e in [GroupDone(p), FullDone(true), TickDone(true)]
  }

  /**
   * Whatever happened: once the loop has come to rest, a group asked for at some time has been run by a
   * round or a full pass that began later, unless a failed round lost the request.
   */
  lemma EveryRequestRuns(events: seq<Event>, p: Path, i: nat)
    requires i < |events| && events[i] == GroupRequested(p)
    ensures var s := Run(START, events); AtRest(s) && p !in s.lost ==> RanAfter(events, i, p)
  {
    hide Run, RanSince;
    RunIsDated(events, p);
    EveryRequestServed(events, p);
    var s := Run(START, events);
    if AtRest(s) && p !in s.lost {
      assert i <= s.asked[p] && Served(s, p);
      if s.asked[p] < s.servedAll {
        ServedRan(events, i, p, s.servedAll);
      } else {
        ServedRan(events, i, p, s.served[p]);
      }
    }
  }

  lemma ServedRan(events: seq<Event>, i: nat, p: Path, begin: int)
    requires i < begin
    requires RanSince(events, begin, GroupDone(p)) || RanSince(events, begin, FullDone(true)) ||
             RanSince(events, begin, TickDone(true))
    ensures RanAfter(events, i, p)
  {
    var e := if RanSince(events, begin, GroupDone(p)) then GroupDone(p)
      else if RanSince(events, begin, FullDone(true)) then FullDone(true) else TickDone(true);
    var end :| Ended(events, begin, end, e);
  }

  /** The same for everything: a full pass that began later succeeded, unless a failed one lost the wish. */
  lemma EverythingRuns(events: seq<Event>, i: nat)
    requires i < |events| && events[i] == AllRequested
    ensures var s := Run(START, events);
            AtRest(s) && !s.lostAll ==>
              exists begin, end, e :: i < begin && Ended(events, begin, end, e) && e in [FullDone(true), TickDone(true)]
  {
    hide Run, RanSince;
    RunIsDated(events, "");
    EveryRequestServed(events, "");
    var s := Run(START, events);
    if AtRest(s) && !s.lostAll {
      assert i <= s.askedAll < s.servedAll;
      AllRan(events, s.servedAll);
    }
  }

  lemma AllRan(events: seq<Event>, begin: int)
    requires RanSince(events, begin, FullDone(true)) || RanSince(events, begin, TickDone(true))
    ensures exists end, e :: Ended(events, begin, end, e) && e in [FullDone(true), TickDone(true)]
  {
    var e := if RanSince(events, begin, FullDone(true)) then FullDone(true) else TickDone(true);
    var end :| Ended(events, begin, end, e);
  }
}
