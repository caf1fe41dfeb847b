/** The connection life cycle of one session, as the values the orchestrator keeps for it:
    its state, its reconnection counter and whether it has a live socket. Each event
    (a connection attempt, an "open" or "close" update, a stop request) moves these values
    by `Step`, and may arm a reconnection timer whose delay `RetryDelay` gives. */
module Lifecycle {

  import opened Wrappers

  /** The five session states. PAIRED exists but no code path ever assigns it. */
  datatype State = Init | Paired | Connected | Reconnecting | Stopped

  const BackoffUnit := 2000
  const BackoffCap := 30000
  /** The delay before a connection attempt that threw is tried again. */
  const FallbackRetryDelay := 5000

  /** `Math.min(2000 * (attempts || 1), 30000)`: the delay before reconnecting after a close,
      given how many reconnections were scheduled since the last successful open. */
  function Backoff(attempts: nat): (d: nat)
    ensures BackoffUnit <= d <= BackoffCap
  {
    var factor := if attempts == 0 then 1 else attempts;
    if BackoffUnit * factor < BackoffCap then BackoffUnit * factor else BackoffCap
  }

  /** The delay never shrinks as the counter grows. */
  lemma BackoffMonotone(a: nat, b: nat)
    requires a <= b
    ensures Backoff(a) <= Backoff(b)
  {
  }

  /** The schedule in numbers: 2 s for the first two, then 2 s more each time, 30 s from the 15th on. */
  lemma BackoffValues(a: nat)
    ensures a <= 1 ==> Backoff(a) == 2000
    ensures 1 <= a <= 15 ==> Backoff(a) == 2000 * a
    ensures a >= 15 ==> Backoff(a) == 30000
  {
  }

  /** Whether a close schedules a reconnection: every close does, except a logged-out close
      whose credentials file is gone. */
  predicate ShouldReconnect(loggedOut: bool, credsExist: bool) {
    !(loggedOut && !credsExist)
  }

  /** One session's entries in the state map, the reconnection counter map (absent read as 0)
      and the active socket map (present or not). */
  datatype Link = Link(state: State, attempts: nat, socket: bool)

  /** How a connection attempt ends: the socket is made, or it throws before the old socket is
      torn down (`AuthFails`: making the session directory, loading the credentials or fetching
      the library version), or while making the new socket, after the old one is gone (`SocketFails`). */
  datatype Setup = SetupOk | AuthFails | SocketFails

  datatype Event =
    | Started(setup: Setup)                       // a connection attempt runs
    | Opened                                      // a "connection.update" with connection "open"
    | Closed(loggedOut: bool, credsExist: bool)   // a "connection.update" with connection "close"
    | StopRequested                               // the stop route accepts the session

  /** A connection attempt does nothing when the session is connected with a live socket. */
  predicate AttemptSkipped(l: Link) {
    l.state == Connected && l.socket
  }

  /** The values after one event. */
  function Step(l: Link, e: Event): Link {
    match e
    case Started(setup) =>
      if AttemptSkipped(l) || setup == AuthFails then l
      else if setup == SocketFails then l.(socket := false)
      else l.(socket := true)
    case Opened => l.(state := Connected, attempts := 0)
    case Closed(loggedOut, credsExist) =>
      if ShouldReconnect(loggedOut, credsExist) && l.state != Stopped
      then Link(Reconnecting, l.attempts + 1, false)
      else l
    case StopRequested => l.(state := Stopped, socket := false)
  }

  /** One update at a time: an "open" gives CONNECTED with the counter at 0 and keeps the socket;
      a close changes something exactly when it reconnects, and then it gives RECONNECTING, drops
      the socket and adds exactly one to the counter. */
  lemma UpdateEffects(l: Link, loggedOut: bool, credsExist: bool)
    ensures Step(l, Opened) == Link(Connected, 0, l.socket)
    ensures Step(l, Closed(loggedOut, credsExist)) != l <==>
      ShouldReconnect(loggedOut, credsExist) && l.state != Stopped
    ensures ShouldReconnect(loggedOut, credsExist) && l.state != Stopped ==>
      Step(l, Closed(loggedOut, credsExist)) == Link(Reconnecting, l.attempts + 1, false)
    ensures loggedOut && !credsExist ==> Step(l, Closed(loggedOut, credsExist)) == l
    ensures l.state == Stopped ==> Step(l, Closed(loggedOut, credsExist)) == l
  {
  }

  /** The delay of the reconnection timer an event arms, if it arms one. */
  function RetryDelay(l: Link, e: Event): Option<nat> {
    match e
    case Started(setup) =>
      if !AttemptSkipped(l) && setup != SetupOk && l.state != Stopped then Some(FallbackRetryDelay) else None
    case Closed(loggedOut, credsExist) =>
      if ShouldReconnect(loggedOut, credsExist) && l.state != Stopped then Some(Backoff(l.attempts)) else None
    case _ => None
  }

  /** The values after a sequence of events. */
  function Run(l: Link, es: seq<Event>): Link
    decreases |es|
  {
    if es == [] then l else Step(Run(l, es[..|es| - 1]), es[|es| - 1])
  }

  /** The delays of the reconnection timers armed along a sequence of events, in order. */
  function Delays(l: Link, es: seq<Event>): seq<nat>
    decreases |es|
  {
    if es == [] then []
    else
      var before := Run(l, es[..|es| - 1]);
      var d := RetryDelay(before, es[|es| - 1]);
      Delays(l, es[..|es| - 1]) + (if d.Some? then [d.value] else [])
  }

  lemma {:induction false} RunConcat(l: Link, a: seq<Event>, b: seq<Event>)
    ensures Run(l, a + b) == Run(Run(l, a), b)
    ensures Delays(l, a + b) == Delays(l, a) + Delays(Run(l, a), b)
    decreases |b|
  {
    if b == [] {
      assert a + b == a;
    } else {
      var b' := b[..|b| - 1];
      assert (a + b)[..|a + b| - 1] == a + b';
      assert (a + b)[|a + b| - 1] == b[|b| - 1];
      RunConcat(l, a, b');
    }
  }

  /** No event leads into PAIRED. */
  lemma {:induction false} PairedNeverEntered(l: Link, es: seq<Event>)
    requires l.state != Paired
    ensures Run(l, es).state != Paired
    decreases |es|
  {
    if es != [] {
      PairedNeverEntered(l, es[..|es| - 1]);
    }
  }

  /** CONNECTED is reached only through an "open" update. */
  lemma {:induction false} ConnectedOnlyThroughOpen(l: Link, es: seq<Event>)
    requires l.state != Connected
    requires Run(l, es).state == Connected
    ensures Opened in es
    decreases |es|
  {
    var init := es[..|es| - 1];
    if es[|es| - 1] != Opened {
      ConnectedOnlyThroughOpen(l, init);
      assert Opened in init;
      assert init[..] == es[..|es| - 1];
    }
  }

  /** A stopped session leaves STOPPED only through an "open" update: connection attempts and
      closes keep it there. STOPPED is not final, though: an "open" makes it CONNECTED again. */
  lemma {:induction false} StoppedLeftOnlyByOpen(l: Link, es: seq<Event>)
    requires l.state == Stopped
    requires Run(l, es).state != Stopped
    ensures Opened in es
    decreases |es|
  {
    var init := es[..|es| - 1];
    if es[|es| - 1] != Opened {
      StoppedLeftOnlyByOpen(l, init);
    }
  }

  lemma StoppedReopens(l: Link)
    requires l.state == Stopped
    ensures Step(l, Opened).state == Connected
    ensures Step(Step(l, Started(SetupOk)), Opened) == Link(Connected, 0, true)
  {
  }

  /** Every event in the sequence is a close that asks for a reconnection. */
  predicate AllReconnectingCloses(es: seq<Event>) {
    forall i :: 0 <= i < |es| ==> es[i].Closed? && ShouldReconnect(es[i].loggedOut, es[i].credsExist)
  }

  /** A run of reconnecting closes on a session that is not stopped counts one attempt per close
      and arms one timer per close, with the back-off of the counter at that point. */
  lemma {:induction false} CloseStorm(l: Link, es: seq<Event>)
    requires l.state != Stopped
    requires AllReconnectingCloses(es)
    ensures Run(l, es).attempts == l.attempts + |es|
    ensures es != [] ==> Run(l, es).state == Reconnecting && !Run(l, es).socket
    ensures es == [] ==> Run(l, es) == l
    ensures |Delays(l, es)| == |es|
    ensures forall i :: 0 <= i < |es| ==> Delays(l, es)[i] == Backoff(l.attempts + i)
    decreases |es|
  {
    if es != [] {
      var init := es[..|es| - 1];
      assert AllReconnectingCloses(init) by {
        forall i | 0 <= i < |init| ensures init[i] == es[i] { }
      }
      CloseStorm(l, init);
      assert Run(l, init).state != Stopped;
    }
  }

  /** After an "open", consecutive reconnecting closes wait 2 s, 2 s, 4 s, 6 s, ... up to 30 s. */
  lemma BackoffScheduleAfterOpen(l: Link, es: seq<Event>)
    requires AllReconnectingCloses(es)
    ensures |Delays(l, [Opened] + es)| == |es|
    ensures forall i :: 0 <= i < |es| ==> Delays(l, [Opened] + es)[i] == Backoff(i)
    ensures forall i :: 0 <= i < |es| ==> Delays(l, [Opened] + es)[i] == (if i <= 1 then 2000 else if i < 15 then 2000 * i else 30000)
  {
    RunConcat(l, [Opened], es);
    assert [Opened][..0] == [];
    var afterOpen := Run(l, [Opened]);
    assert afterOpen == Step(l, Opened);
    assert Delays(l, [Opened]) == [];
    CloseStorm(afterOpen, es);
    forall i | 0 <= i < |es| ensures Backoff(i) == (if i <= 1 then 2000 else if i < 15 then 2000 * i else 30000) {
      BackoffValues(i);
    }
  }

  /** Closes that do not reconnect (a logged-out close without credentials, or any close of a
      stopped session) change nothing and arm nothing. In particular a logged-out close without
      credentials leaves a connected session CONNECTED with its socket. */
  lemma {:induction false} InertCloses(l: Link, es: seq<Event>)
    requires forall i :: 0 <= i < |es| ==>
      es[i].Closed? && (l.state == Stopped || !ShouldReconnect(es[i].loggedOut, es[i].credsExist))
    ensures Run(l, es) == l
    ensures Delays(l, es) == []
    decreases |es|
  {
    if es != [] {
      var init := es[..|es| - 1];
      assert forall i :: 0 <= i < |init| ==> init[i] == es[i];
      InertCloses(l, init);
    }
  }
}
