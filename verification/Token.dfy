/**
 * One access token shared by concurrent callers: the client credentials grant of section 4.4 of
 * RFC 6749, run once at a time, with `expires_in` read as section 5.1 of it has it.
 */
module Token {
  import opened Model

  // ---- how long a token is served ----

  const SECOND := 1_000_000_000
  const MARGIN := 30 * SECOND
  const MAX_INT64 := 9_223_372_036_854_775_807
  const MIN_INT64 := -9_223_372_036_854_775_808
  const MAX_LIFETIME := 9_223_372_036   // MAX_INT64 / SECOND, rounded down

  /** Two's complement wrap-around of a 64-bit integer. */
  function Wrap64(x: int): int {
    (x + 0x8000_0000_0000_0000) % 0x1_0000_0000_0000_0000 - 0x8000_0000_0000_0000
  }

  /** Go's conversion of a floating point number to an integer drops the fraction. */
  function Truncate(x: real): int {
    if x >= 0.0 then x.Floor else -((-x).Floor)
  }

  datatype ExpiresIn = Absent | Number(seconds: real) | Unreadable

  /** The lifetime in whole seconds, clamped into what the arithmetic can carry; None is an error. */
  function LifetimeSeconds(raw: ExpiresIn): Option<int> {
    match raw
    case Absent => Some(0)
    case Unreadable => None
    case Number(s) =>
      if s > MAX_LIFETIME as real then Some(MAX_LIFETIME)
      else if s < -(MAX_LIFETIME as real) then Some(-MAX_LIFETIME)
      else Some(Truncate(s))
  }

  /**
   * Nothing said means no lifetime, nothing readable an error; a figure loses its fraction and what exceeds
   * the clamp.
   */
  lemma LifetimeClamped(raw: ExpiresIn)
    ensures LifetimeSeconds(raw).None? <==> raw == Unreadable
    ensures raw == Absent ==> LifetimeSeconds(raw) == Some(0)
    ensures raw.Number? ==>
              && (raw.seconds > 9_223_372_036.0 ==> LifetimeSeconds(raw) == Some(9_223_372_036))
              && (raw.seconds < -9_223_372_036.0 ==> LifetimeSeconds(raw) == Some(-9_223_372_036))
              && var n := LifetimeSeconds(raw).value as real;
                 && (0.0 <= raw.seconds <= 9_223_372_036.0 ==> n <= raw.seconds < n + 1.0)
                 && (-9_223_372_036.0 <= raw.seconds <= 0.0 ==> n - 1.0 < raw.seconds <= n)
  {}

  /** How long the token is cached, in nanoseconds, computed as the 64-bit code computes it. */
  function CachedFor(expiresIn: int): int {
    var lifetime := Wrap64(Wrap64(expiresIn * SECOND) - MARGIN);
    if lifetime < 0 then 0 else lifetime
  }

  /** What it is meant to be: the lifetime less the margin, and not negative. */
  function MeantFor(expiresIn: int): int {
    if expiresIn * SECOND - MARGIN < 0 then 0 else expiresIn * SECOND - MARGIN
  }

  lemma WrapFits(x: int)
    requires MIN_INT64 <= x <= MAX_INT64
    ensures Wrap64(x) == x
  {}

  /**
   * The upper clamp keeps every non-negative lifetime exact. The lower clamp does not: it leaves the
   * product in range but not the product less the margin, which wraps into some 292 years. So the
   * arithmetic is right exactly from -9223372006 seconds up.
   */
  lemma CachedForIsMeant(expiresIn: int)
    requires -MAX_LIFETIME <= expiresIn <= MAX_LIFETIME
    ensures CachedFor(expiresIn) == MeantFor(expiresIn) <==> expiresIn >= -9_223_372_006
  {
    WrapFits(expiresIn * SECOND);
    if expiresIn >= -9_223_372_006 {
      WrapFits(expiresIn * SECOND - MARGIN);
    } else {
      WrapsAround(expiresIn * SECOND - MARGIN);
    }
  }

  lemma WrapsAround(x: int)
    requires MIN_INT64 - MAX_INT64 <= x < MIN_INT64
    ensures Wrap64(x) == x + 0x1_0000_0000_0000_0000 > 0
  {}

  /** A token with the most negative lifetime the clamp lets through is kept for centuries. */
  lemma NegativeLifetimeIsKept()
    ensures LifetimeSeconds(Number(-1.0e12)) == Some(-MAX_LIFETIME)
    ensures CachedFor(-MAX_LIFETIME) > 290 * 365 * 86_400 * SECOND && MeantFor(-MAX_LIFETIME) == 0
  {
    WrapFits(-MAX_LIFETIME * SECOND);
    WrapsAround(-MAX_LIFETIME * SECOND - MARGIN);
  }

  // ---- one grant at a time ----

  type Caller = nat
  type Secret = nat

  /** The answer of the token endpoint: a token with its lifetime in seconds, or a failure. */
  datatype Answer = Granted(token: Secret, expiresIn: int) | Refused

  datatype Stage =
    | Requesting           // the request is in flight
    | Answered(a: Answer)  // it came back; the client is not updated yet
    | Settled(a: Answer)   // detached from the client; token and error not yet filled in
    | Filled(a: Answer)    // token and error are final
    | Closed(a: Answer)    // waiters may read

  datatype Wait = Idle | Waiting(grant: nat) | Served(token: Secret) | Failed

  datatype Cached = Cached(token: Secret, at: int, expiresIn: int, expiry: int)

  /** `current` is the client's grant field, `grants` every grant ever started. */
  datatype State = State(cached: Option<Cached>, current: Option<nat>, grants: seq<Stage>, callers: map<Caller, Wait>)

  const START := State(None, None, [], map[])

  datatype Event =
    | Calls(c: Caller, now: int, gone: bool)   // the section under the mutex
    | Answers(g: nat, a: Answer)
    | Settles(g: nat, now: int)
    | Fills(g: nat)
    | Closes(g: nat)
    | Reads(c: Caller)
    | GivesUp(c: Caller)

  function Usable(s: State, now: int): bool { s.cached.Some? && now < s.cached.value.expiry }

  function WaitOf(s: State, c: Caller): Wait { if c in s.callers then s.callers[c] else Idle }

  function Enter(s: State, c: Caller, now: int, gone: bool): State {
    if Usable(s, now) then s.(callers := s.callers[c := Served(s.cached.value.token)])
    else if gone then s.(callers := s.callers[c := Failed])
    else if s.current.Some? then s.(callers := s.callers[c := Waiting(s.current.value)])
    else
      State(s.cached, Some(|s.grants|), s.grants + [Requesting], s.callers[c := Waiting(|s.grants|)])
  }

  /** The client forgets the grant and caches its token in one section, before anyone may read. */
  function Settle(s: State, g: nat, now: int): State
    requires g < |s.grants| && s.grants[g].Answered?
  {
    var a := s.grants[g].a;
    var n := s.(current := None, grants := s.grants[g := Settled(a)]);
    match a
    case Refused => n
    case Granted(token, expiresIn) => n.(cached := Some(Cached(token, now, expiresIn, now + CachedFor(expiresIn))))
  }

  /** The client's fields, with the two sections that run under its mutex. */
  class Client {
    var cached: Option<Cached>
    var current: Option<nat>
    var grants: seq<Stage>

    constructor ()
      ensures View(map[]) == START
    {
      cached, current, grants := None, None, [];
    }

    /** The state the fields are part of, given where every caller stands. */
    function View(callers: map<Caller, Wait>): State
      reads this
    {
      State(cached, current, grants, callers)
    }

    /** A caller's section: served, refused, or told which grant to wait for, starting it if need be. */
    method AccessToken(now: int, gone: bool) returns (w: Wait)
      modifies this
      ensures forall m, c :: View(m[c := w]) == Enter(old(View(m)), c, now, gone)
    {
      if cached.Some? && now < cached.value.expiry {
        return Served(cached.value.token);
      }
      if gone {
        return Failed;
      }
      if current.None? {
        current := Some(|grants|);
        grants := grants + [Requesting];
      }
      w := Waiting(current.value);
    }

    /** The grant's section once the endpoint has answered. */
    method FinishGrant(g: nat, now: int)
      requires g < |grants| && grants[g].Answered?
      modifies this
      ensures forall m :: View(m) == Settle(old(View(m)), g, now)
    {
      var a := grants[g].a;
      current := None;
      if a.Granted? {
        var lifetime := Wrap64(Wrap64(a.expiresIn * SECOND) - MARGIN);
        if lifetime < 0 {
          lifetime := 0;
        }
        cached := Some(Cached(a.token, now, a.expiresIn, now + lifetime));
      }
      grants := grants[g := Settled(a)];
    }
  }

  function Step(s: State, e: Event): State {
    match e
    case Calls(c, now, gone) => if WaitOf(s, c).Waiting? then s else Enter(s, c, now, gone)
    case Answers(g, a) => if g < |s.grants| &&
      s.grants[g].Requesting? then s.(grants := s.grants[g := Answered(a)]) else s
    case Settles(g, now) => if g < |s.grants| && s.grants[g].Answered? then Settle(s, g, now) else s
    case Fills(g) => if g < |s.grants| &&
      s.grants[g].Settled? then s.(grants := s.grants[g := Filled(s.grants[g].a)]) else s
    case Closes(g) => if g < |s.grants| &&
      s.grants[g].Filled? then s.(grants := s.grants[g := Closed(s.grants[g].a)]) else s
    case Reads(c) =>
      var w := WaitOf(s, c);
      if !w.Waiting? || w.grant >= |s.grants| || !s.grants[w.grant].Closed? then s
      else s.(callers := s.callers[c := OutcomeOf(s.grants[w.grant].a)])
    case GivesUp(c) => if WaitOf(s, c).Waiting? then s.(callers := s.callers[c := Failed]) else s
  }

  function Run(s: State, events: seq<Event>): State
    decreases |events|
  {
    if events == [] then s else Run(Step(s, events[0]), events[1..])
  }

  predicate Live(stage: Stage) { stage.Requesting? || stage.Answered? }

  /** The client's grant is the one live grant; a caller waits on a grant that exists. */
  ghost predicate SingleFlight(s: State) {
    && (forall g :: 0 <= g < |s.grants| ==> (Live(s.grants[g]) <==> s.current == Some(g)))
    && (s.current.Some? ==> s.current.value < |s.grants|)
    && (forall c :: c in s.callers && s.callers[c].Waiting? ==> s.callers[c].grant < |s.grants|)
    && (s.cached.Some? ==> s.cached.value.expiry == s.cached.value.at + CachedFor(s.cached.value.expiresIn))
  }

  lemma StepKeepsSingleFlight(s: State, e: Event)
    requires SingleFlight(s)
    ensures SingleFlight(Step(s, e))
  {
    hide CachedFor;
  }

  lemma {:induction false} RunKeepsSingleFlight(s: State, events: seq<Event>)
    requires SingleFlight(s)
    ensures SingleFlight(Run(s, events))
    decreases |events|
  {
    if events != [] {
      StepKeepsSingleFlight(s, events[0]);
      RunKeepsSingleFlight(Step(s, events[0]), events[1..]);
    }
  }

  /** In every interleaving at most one token request is in flight. */
  lemma OneRequestInFlight(events: seq<Event>, g: nat, h: nat)
    ensures var s := Run(START, events);
            g < |s.grants| && h < |s.grants| && s.grants[g].Requesting? && s.grants[h].Requesting? ==> g == h
  {
    RunKeepsSingleFlight(START, events);
  }

  /** A caller that has to wait waits for a grant that is still to settle, or for one it started. */
  lemma NobodyJoinsAFinishedGrant(events: seq<Event>, c: Caller, now: int, gone: bool)
    ensures var s := Run(START, events); var n := Step(s, Calls(c, now, gone));
            !WaitOf(s, c).Waiting? && WaitOf(n, c).Waiting? ==>
              WaitOf(n, c).grant < |n.grants| && Live(n.grants[WaitOf(n, c).grant])
  {
    RunKeepsSingleFlight(START, events);
  }

  // ---- where an answer comes from ----

  /** The grant came back with the token. */
  predicate GrantedBy(s: State, g: nat, token: Secret) {
    g < |s.grants| && !s.grants[g].Requesting? && s.grants[g].a.Granted? && s.grants[g].a.token == token
  }

  ghost predicate IsGranted(s: State, token: Secret) { exists g :: GrantedBy(s, g, token) }

  /** Nobody holds a token, and the client caches none, that no grant answered. */
  ghost predicate Sourced(s: State) {
    && (forall c :: c in s.callers && s.callers[c].Served? ==> IsGranted(s, s.callers[c].token))
    && (s.cached.Some? ==> IsGranted(s, s.cached.value.token))
  }

  /** A grant's answer never changes once it came back. */
  lemma StepKeepsAnswer(s: State, e: Event, g: nat)
    requires g < |s.grants| && !s.grants[g].Requesting?
    ensures var n := Step(s, e); g < |n.grants| && !n.grants[g].Requesting? && n.grants[g].a == s.grants[g].a
  {}

  lemma StepKeepsGranted(s: State, e: Event, token: Secret)
    requires IsGranted(s, token)
    ensures IsGranted(Step(s, e), token)
  {
    var g :| GrantedBy(s, g, token);
    StepKeepsAnswer(s, e, g);
    assert GrantedBy(Step(s, e), g, token);
  }

  /** A caller's wait changes to a token only if that was cached, or a closed grant answered it. */
  lemma WaitChanges(s: State, e: Event, c: Caller)
    ensures var w := WaitOf(Step(s, e), c);
            w.Served? && w != WaitOf(s, c) ==>
              (s.cached.Some? && w.token == s.cached.value.token) || exists g :: GrantedBy(s, g, w.token)
  {
    var w := WaitOf(Step(s, e), c);
    if e == Reads(c) && w.Served? && w != WaitOf(s, c) {
      assert GrantedBy(s, WaitOf(s, c).grant, w.token);
    }
  }

  lemma CacheChanges(s: State, e: Event)
    ensures var n := Step(s, e);
            n.cached.Some? && n.cached != s.cached ==> exists g :: GrantedBy(s, g, n.cached.value.token)
  {
    var n := Step(s, e);
    if n.cached.Some? && n.cached != s.cached {
      assert GrantedBy(s, e.g, n.cached.value.token);
    }
  }

  lemma StepKeepsSourced(s: State, e: Event)
    requires Sourced(s)
    ensures Sourced(Step(s, e))
  {
    hide Step, GrantedBy;
    var n := Step(s, e);
    forall c | c in n.callers && n.callers[c].Served? ensures IsGranted(n, n.callers[c].token) {
      WaitChanges(s, e, c);
      assert IsGranted(s, n.callers[c].token);
      StepKeepsGranted(s, e, n.callers[c].token);
    }
    if n.cached.Some? {
      CacheChanges(s, e);
      assert IsGranted(s, n.cached.value.token);
      StepKeepsGranted(s, e, n.cached.value.token);
    }
  }

  lemma {:induction false} RunKeepsSourced(s: State, events: seq<Event>)
    requires Sourced(s)
    ensures Sourced(Run(s, events))
    decreases |events|
  {
    if events != [] {
      StepKeepsSourced(s, events[0]);
      RunKeepsSourced(Step(s, events[0]), events[1..]);
    }
  }

  /** In every interleaving a token served to anyone, and the token cached, is one that a grant answered. */
  lemma TokensComeFromGrants(events: seq<Event>, c: Caller)
    ensures var s := Run(START, events);
            && (WaitOf(s, c).Served? ==> exists g :: GrantedBy(s, g, WaitOf(s, c).token))
            && (s.cached.Some? ==> exists g :: GrantedBy(s, g, s.cached.value.token))
  {
    RunKeepsSourced(START, events);
  }

  lemma {:induction false} AnswersAreFinal(s: State, events: seq<Event>, g: nat)
    requires g < |s.grants| && !s.grants[g].Requesting?
    ensures var n := Run(s, events); g < |n.grants| && !n.grants[g].Requesting? && n.grants[g].a == s.grants[g].a
    decreases |events|
  {
    if events != [] {
      StepKeepsAnswer(s, events[0], g);
      AnswersAreFinal(Step(s, events[0]), events[1..], g);
    }
  }

  // ---- waiting ----

  function OutcomeOf(a: Answer): Wait { match a case Granted(t, _) => Served(t) case Refused => Failed }

  /** The caller still waits for the grant, or the grant was closed and the caller read its answer. */
  predicate WaitsOrRead(s: State, c: Caller, g: nat) {
    WaitOf(s, c) == Waiting(g) || (g < |s.grants| && s.grants[g].Closed? && WaitOf(s, c) == OutcomeOf(s.grants[g].a))
  }

  /** The caller neither gives up nor comes back for another token. */
  predicate Patient(events: seq<Event>, c: Caller) {
    GivesUp(c) !in events && forall e :: e in events && e.Calls? ==> e.c != c
  }

  lemma StepKeepsWaiting(s: State, e: Event, c: Caller, g: nat)
    requires WaitsOrRead(s, c, g) && e != GivesUp(c) && (e.Calls? ==> e.c != c)
    ensures WaitsOrRead(Step(s, e), c, g)
  {}

  lemma {:induction false} RunKeepsWaiting(s: State, events: seq<Event>, c: Caller, g: nat)
    requires WaitsOrRead(s, c, g) && Patient(events, c)
    ensures WaitsOrRead(Run(s, events), c, g)
    decreases |events|
  {
    if events != [] {
      assert events[0] in events && forall e :: e in events[1..] ==> e in events;
      StepKeepsWaiting(s, events[0], c, g);
      RunKeepsWaiting(Step(s, events[0]), events[1..], c, g);
    }
  }

  /**
   * Whoever waits for a grant and does not give up ends up with what the grant answered, read after the
   * grant was closed - so all who waited for one grant read one outcome.
   */
  lemma WaitersReadOneOutcome(s: State, events: seq<Event>, c: Caller, d: Caller, g: nat)
    requires WaitOf(s, c) == WaitOf(s, d) == Waiting(g) && Patient(events, c) && Patient(events, d)
    ensures var n := Run(s, events);
            && (!WaitOf(n, c).Waiting? ==>
               g < |n.grants| && n.grants[g].Closed? && WaitOf(n, c) == OutcomeOf(n.grants[g].a))
            && (!WaitOf(n, c).Waiting? && !WaitOf(n, d).Waiting? ==> WaitOf(n, c) == WaitOf(n, d))
  {
    RunKeepsWaiting(s, events, c, g);
    RunKeepsWaiting(s, events, d, g);
  }

  // ---- giving up ----

  /** The two states differ at most in where the caller stands. */
  ghost predicate SameButFor(s: State, n: State, c: Caller) {
    && n.grants == s.grants && n.current == s.current && n.cached == s.cached
    && forall d :: d != c ==> WaitOf(n, d) == WaitOf(s, d)
  }

  lemma StepKeepsSameButFor(s: State, n: State, e: Event, c: Caller)
    requires SameButFor(s, n, c) && (e.Calls? ==> e.c != c)
    ensures SameButFor(Step(s, e), Step(n, e), c)
  {
    if e.Calls? || e.Reads? || e.GivesUp? {
      assert e.c != c ==> WaitOf(n, e.c) == WaitOf(s, e.c);
    }
    forall d | d != c ensures WaitOf(Step(n, e), d) == WaitOf(Step(s, e), d) {
      assert WaitOf(n, d) == WaitOf(s, d);
    }
  }

  lemma GivesUpAlone(s: State, c: Caller)
    ensures SameButFor(s, Step(s, GivesUp(c)), c)
  {}

  lemma {:induction false} RunKeepsSameButFor(s: State, n: State, events: seq<Event>, c: Caller)
    requires SameButFor(s, n, c) && forall e :: e in events && e.Calls? ==> e.c != c
    ensures SameButFor(Run(s, events), Run(n, events), c)
    decreases |events|
  {
    if events != [] {
      assert events[0] in events && forall e :: e in events[1..] ==> e in events;
      StepKeepsSameButFor(s, n, events[0], c);
      RunKeepsSameButFor(Step(s, events[0]), Step(n, events[0]), events[1..], c);
    }
  }

  /**
   * A caller giving up ends no grant: whatever happens next, the grants, the cached token and everyone
   * else's wait are what they would have been had it gone on waiting.
   */
  lemma GivingUpEndsNoGrant(s: State, events: seq<Event>, c: Caller)
    requires forall e :: e in events && e.Calls? ==> e.c != c
    ensures SameButFor(Run(s, events), Run(Step(s, GivesUp(c)), events), c)
  {
    GivesUpAlone(s, c);
    RunKeepsSameButFor(s, Step(s, GivesUp(c)), events, c);
  }

  /**
   * A cached token is served only before the time it was cached plus its lifetime less the margin,
   * provided the lifetime is one the arithmetic gets right.
   */
  lemma ServedWhileFresh(events: seq<Event>, c: Caller, now: int, gone: bool)
    ensures var s := Run(START, events);
            Usable(s, now) && -9_223_372_006 <= s.cached.value.expiresIn <= MAX_LIFETIME ==>
              now < s.cached.value.at + MeantFor(s.cached.value.expiresIn)
  {
    hide CachedFor, MeantFor;
    RunKeepsSingleFlight(START, events);
    var s := Run(START, events);
    if s.cached.Some? && -9_223_372_006 <= s.cached.value.expiresIn <= MAX_LIFETIME {
      CachedForIsMeant(s.cached.value.expiresIn);
    }
  }

  // ---- what a call is answered ----

  /** A token is cached whose lifetime, less half a minute, is not over. */
  predicate Fresh(s: State, now: int) {
    s.cached.Some? &&
    now < s.cached.value.at + if s.cached.value.expiresIn > 30 then (s.cached.value.expiresIn - 30) * 1_000_000_000
      else 0
  }

  lemma FreshIsUsable(s: State, now: int)
    requires SingleFlight(s)
    requires s.cached.Some? ==> -9_223_372_006 <= s.cached.value.expiresIn <= MAX_LIFETIME
    ensures Fresh(s, now) <==> Usable(s, now)
  {
    if s.cached.Some? { CachedForIsMeant(s.cached.value.expiresIn); }
  }

  /**
   * A call after any run is served from the cache exactly as long as the token there is fresh, and starts
   * nothing then. Otherwise a caller that is gone gets a failure, and any other waits for the one grant that
   * is on its way - which it starts if there is none.
   */
  lemma CallIsAnswered(events: seq<Event>, c: Caller, now: int, gone: bool)
    requires var s := Run(START, events);
             && !WaitOf(s, c).Waiting?
             && (s.cached.Some? ==> -9_223_372_006 <= s.cached.value.expiresIn <= MAX_LIFETIME)
    ensures var s := Run(START, events); var n := Step(s, Calls(c, now, gone));
            && n.cached == s.cached
            && (Fresh(s, now) ==> WaitOf(n, c) == Served(s.cached.value.token) && n.grants == s.grants)
            && (!Fresh(s, now) && gone ==> WaitOf(n, c) == Failed && n.grants == s.grants)
            && (!Fresh(s, now) && !gone ==>
                  && WaitOf(n, c).Waiting? && WaitOf(n, c).grant < |n.grants| && Live(n.grants[WaitOf(n, c).grant])
                  && n.grants == if exists g :: 0 <= g < |s.grants| && Live(s.grants[g]) then s.grants
                                 else s.grants + [Requesting])
  {
    hide CachedFor;
    var s := Run(START, events);
    RunKeepsSingleFlight(START, events);
    FreshIsUsable(s, now);
    if s.current.Some? { assert Live(s.grants[s.current.value]); }
  }

  /** What a grant brings back serves the calls that follow it, for its lifetime less half a minute. */
  lemma GrantServesTheNext(s: State, g: nat, token: Secret, expiresIn: int, now: int, c: Caller, later: int, gone: bool)
    requires g < |s.grants| && s.grants[g] == Answered(Granted(token, expiresIn)) && !WaitOf(s, c).Waiting?
    requires 30 < expiresIn <= MAX_LIFETIME && later < now + (expiresIn - 30) * 1_000_000_000
    ensures var n := Step(Step(s, Settles(g, now)), Calls(c, later, gone));
            WaitOf(n, c) == Served(token) && |n.grants| == |s.grants| && n.current == None
  {
    hide CachedFor;
    CachedForIsMeant(expiresIn);
  }
}
