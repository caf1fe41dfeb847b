/** The multi-session orchestrator: the module-level maps that hold every session's record,
    connection state, reconnection counter, socket, stop flag and message queue, the pending
    timer callbacks, and the handlers that change them: a login starting a connection, the
    "open" and "close" updates, the dispatch ticks, the campaign and stop routes, and the
    restore at start-up.

    Sockets are reduced to their presence in `sockets`. A pending `setTimeout` callback is an
    entry of `ticks` (the dispatch loop) or `retries` (a reconnection), under a handle drawn from
    one counter; `clearTimeout` is the removal of an entry, and firing one is a method call
    (`FireTick`, `FireRetry`). A send is split in two: `FireTick` hands a `Dispatch` to the
    transport, and `FinishSend` runs once the transport reports whether it was delivered, so a
    tick that fires while a send is in flight meets the `isSending` guard. */
module Orchestration {

  import opened Wrappers
  import opened Campaign
  import opened Lifecycle
  import opened Pairing

  /** A session's unique key. */
  type Key = string
  /** The handle of a pending timer callback. */
  type TimerId = nat

  /** The campaign fields the start-messaging route stores in a session record. */
  datatype CampaignConfig = CampaignConfig(target: string, name: Option<string>, messages: seq<string>, speed: Option<string>)

  /** An entry of the session registry, and of the snapshot written after every change. */
  datatype SessionRecord = SessionRecord(
    phoneNumber: Option<string>,
    uniqueKey: Option<Key>,
    connected: bool,
    lastUpdate: Option<int>,
    campaign: Option<CampaignConfig>)

  /** The record of a key the registry does not hold: spreading it adds no field. */
  const EmptyRecord := SessionRecord(None, None, false, None, None)

  function RecordOf(sessions: map<Key, SessionRecord>, k: Key): SessionRecord {
    if k in sessions then sessions[k] else EmptyRecord
  }

  /** A session's stop flag and the handle of the last dispatch timer armed for it. */
  datatype StopFlag = StopFlag(stopped: bool, timeout: Option<TimerId>)

  /** A pending dispatch timer, with what its closure captured: the session, its queue, the
      target, the name and the interval. */
  datatype Tick = Tick(key: Key, queue: MessageQueue, target: string, name: Option<string>, interval: int)

  /** A pending reconnection timer of a session. */
  datatype Retry = Retry(key: Key, delay: int)

  /** What one login call's closures keep: the phone number, whether a caller waits for a
      pairing reply, and whether that reply was already given. */
  datatype Login = Login(phone: string, hasCallback: bool, codeSent: bool)

  /** The reply handed to the caller waiting on a login. */
  datatype Reply = CodeReply(code: string) | ConnectedReply

  /** How the pairing-code request ends. */
  datatype PairingOutcome = PairingFails | PairingCode(code: string)

  /** A message handed to the transport by a tick, whose outcome is still to come. */
  datatype Dispatch = Dispatch(tick: Tick, chatId: string, text: string)

  datatype StopResult = StopDone | InvalidSession
  /** The login route's answer: refused without a phone number, or the reply of the connection attempt. */
  datatype LoginResult = PhoneRequired | LoginStarted(reply: Option<Reply>)
  datatype CampaignResult = MessagingStarted | MissingFields

  /** A restored record is reconnected only when it names a phone number and a key. */
  predicate Restorable(rec: SessionRecord) {
    rec.phoneNumber.Some? && rec.phoneNumber.value != [] && rec.uniqueKey.Some? && rec.uniqueKey.value != []
  }

  /** `uk` is the key of a record the restore logs in again. */
  predicate RestoredKey(sessions: map<Key, SessionRecord>, uk: Key) {
    exists key :: key in sessions && Restorable(sessions[key]) && sessions[key].uniqueKey.value == uk
  }

  /** `uk` is the key of a record the restore logs in again, and `phone` that record's number. */
  predicate RestoredLogin(sessions: map<Key, SessionRecord>, uk: Key, phone: string) {
    exists key :: key in sessions && Restorable(sessions[key])
      && sessions[key].uniqueKey.value == uk && sessions[key].phoneNumber.value == phone
  }

  /** Against the maps `ls`, `st`, `so` and `re` as they were when the restore began: login
      contexts and reconnection timers are only added or replaced for keys of restored records,
      and each such new login context has no caller waiting and the number of a record naming
      its key; a state is only ever added, as INIT; the states and sockets of every other key
      are as they were. */
  ghost predicate RestoreFrameOf(sessions: map<Key, SessionRecord>, logins: map<Key, Login>, states: map<Key, State>,
                                 sockets: set<Key>, retries: map<TimerId, Retry>,
                                 ls: map<Key, Login>, st: map<Key, State>, so: set<Key>, re: map<TimerId, Retry>)
  {
    && ls.Keys <= logins.Keys && st.Keys <= states.Keys && re.Keys <= retries.Keys
    && (forall uk :: uk in logins && (uk !in ls || logins[uk] != ls[uk]) ==>
          !logins[uk].hasCallback && !logins[uk].codeSent && RestoredKey(sessions, uk)
          && RestoredLogin(sessions, uk, logins[uk].phone))
    && (forall uk :: uk in st ==> states[uk] == st[uk])
    && (forall uk :: uk in states && uk !in st ==> states[uk] == Init)
    && (forall uk :: !RestoredKey(sessions, uk) ==>
          && (uk in states <==> uk in st) && (uk in states ==> states[uk] == st[uk])
          && (uk in sockets <==> uk in so))
    && (forall id :: id in retries && (id !in re || retries[id] != re[id]) ==>
          RestoredKey(sessions, retries[id].key))
  }

  /** Logging one restored record in again, under its key `uk` and with its number `phone`,
      keeps the restore's frame: only `uk`'s login context, state, socket and one timer change. */
  lemma RestoreFrameKept(sessions: map<Key, SessionRecord>,
                         logins: map<Key, Login>, states: map<Key, State>, sockets: set<Key>, retries: map<TimerId, Retry>,
                         logins': map<Key, Login>, states': map<Key, State>, sockets': set<Key>, retries': map<TimerId, Retry>,
                         uk: Key, phone: string, delay: Option<nat>, t: TimerId,
                         ls: map<Key, Login>, st: map<Key, State>, so: set<Key>, re: map<TimerId, Retry>)
    requires RestoreFrameOf(sessions, logins, states, sockets, retries, ls, st, so, re)
    requires RestoredLogin(sessions, uk, phone)
    requires logins' == logins[uk := Login(phone, false, false)]
    requires states' == (if uk in states then states else states[uk := Init])
    requires sockets' - {uk} == sockets - {uk}
    requires retries' == (if delay.Some? then retries[t := Retry(uk, delay.value)] else retries)
    ensures RestoreFrameOf(sessions, logins', states', sockets', retries', ls, st, so, re)
  {
    assert RestoredKey(sessions, uk);
    forall x | x != uk
      ensures x in sockets' <==> x in sockets
    {
      assert x in sockets' <==> x in sockets' - {uk};
      assert x in sockets <==> x in sockets - {uk};
    }
  }

  /** The dispatch timers left after `clearTimeout` on the session's last dispatch timer, if it has one. */
  function WithoutPending(ticks: map<TimerId, Tick>, flags: map<Key, StopFlag>, k: Key): map<TimerId, Tick> {
    if k in flags && flags[k].timeout.Some? then ticks - {flags[k].timeout.value} else ticks
  }

  /** The reply a connection attempt gives: a formatted pairing code, once, to a caller that waits
      for one, when the credentials are not registered and the code request succeeds. */
  function PairingReply(login: Login, registered: bool, state: State, pairing: PairingOutcome): Option<Reply> {
    if !registered && login.hasCallback && state != Paired && pairing.PairingCode? && !login.codeSent
    then Some(CodeReply(FormatPairingCode(pairing.code)))
    else None
  }

  /** One session's view of the maps, an absent state read as INIT. */
  function LinkFrom(states: map<Key, State>, attempts: map<Key, nat>, sockets: set<Key>, k: Key): Link {
    Link(if k in states then states[k] else Init, if k in attempts then attempts[k] else 0, k in sockets)
  }

  class Orchestrator {
    var sessions: map<Key, SessionRecord>
    var persisted: map<Key, SessionRecord>
    var stopFlags: map<Key, StopFlag>
    var sockets: set<Key>
    var queues: map<Key, MessageQueue>
    var attempts: map<Key, nat>
    var states: map<Key, State>
    var logins: map<Key, Login>
    var ticks: map<TimerId, Tick>
    var retries: map<TimerId, Retry>
    var nextTimer: TimerId

    /** What every handler keeps: the three parts below. */
    ghost predicate Valid()
      reads this, queues.Values
    {
      TimersValid() && MapsValid() && QueuesValid()
    }

    /** No stop flag is raised; a dispatch timer finds its session's stop flag and a
        reconnection timer its login context. */
    ghost predicate TimersValid()
      reads this`ticks, this`retries, this`stopFlags, this`logins
    {
      && (forall k :: k in stopFlags ==> !stopFlags[k].stopped)
      && (forall id :: id in ticks ==> ticks[id].key in stopFlags)
      && (forall id :: id in retries ==> retries[id].key in logins)
    }

    /** Nobody is PAIRED; logins and sockets belong to sessions with a state. */
    ghost predicate MapsValid()
      reads this`states, this`logins, this`sockets
    {
      && (forall k :: k in states ==> states[k] != Paired)
      && logins.Keys <= states.Keys
      && sockets <= states.Keys
    }

    /** Every live queue's cursor is on a message. */
    ghost predicate QueuesValid()
      reads this`queues, queues.Values
    {
      forall k :: k in queues ==> queues[k].Valid()
    }

    predicate InState(k: Key, s: State)
      reads this
    {
      k in states && states[k] == s
    }

    function AttemptsOf(k: Key): nat
      reads this
    {
      if k in attempts then attempts[k] else 0
    }

    /** The session's state, counter and socket, as the life-cycle model sees them. */
    function LinkOf(k: Key): Link
      reads this
    {
      LinkFrom(states, attempts, sockets, k)
    }

    /** A process that has just started: every map is empty. */
    constructor ()
      ensures Valid()
      ensures sessions == map[] && persisted == map[] && stopFlags == map[] && sockets == {}
      ensures queues == map[] && attempts == map[] && states == map[] && logins == map[]
      ensures ticks == map[] && retries == map[] && nextTimer == 0
    {
      sessions := map[];
      persisted := map[];
      stopFlags := map[];
      sockets := {};
      queues := map[];
      attempts := map[];
      states := map[];
      logins := map[];
      ticks := map[];
      retries := map[];
      nextTimer := 0;
    }

    /** `setTimeout` for a dispatch tick: arm it under a fresh handle. */
    method SetTick(t: Tick) returns (id: TimerId)
      modifies this`ticks, this`nextTimer
      ensures id == old(nextTimer) && nextTimer == id + 1
      ensures ticks == old(ticks)[id := t]
    {
      id := nextTimer;
      ticks := ticks[id := t];
      nextTimer := nextTimer + 1;
    }

    /** `setTimeout` for a reconnection: arm it under a fresh handle. */
    method SetRetry(r: Retry) returns (id: TimerId)
      modifies this`retries, this`nextTimer
      ensures id == old(nextTimer) && nextTimer == id + 1
      ensures retries == old(retries)[id := r]
    {
      id := nextTimer;
      retries := retries[id := r];
      nextTimer := nextTimer + 1;
    }

    /** Writes the snapshot: every record, each without its restart timer (a field no record
        ever has, so each is copied as it is). */
    method Save()
      modifies this`persisted
      ensures persisted == sessions
    {
      var snapshot: map<Key, SessionRecord> := map[];
      var todo := sessions.Keys;
      while todo != {}
        invariant todo <= sessions.Keys
        invariant snapshot.Keys == sessions.Keys - todo
        invariant forall k :: k in snapshot ==> snapshot[k] == sessions[k]
        decreases todo
      {
        var k :| k in todo;
        snapshot := snapshot[k := sessions[k]];
        todo := todo - {k};
      }
      persisted := snapshot;
    }

    /** Starts (or restarts) the dispatch loop of a session: clears its pending dispatch timer,
        makes a queue from `messages` unless one exists already (then the existing messages and
        cursor are kept and `messages` is ignored), and arms a first tick one interval away. */
    method StartMessaging(k: Key, target: string, name: Option<string>, messages: seq<string>, speed: Option<string>)
      requires Valid()
      modifies this`ticks, this`nextTimer, this`stopFlags, this`queues
      ensures Valid()
      ensures k in queues
      ensures k in old(queues) ==> queues == old(queues)
      ensures k !in old(queues) ==>
        && fresh(queues[k]) && queues == old(queues)[k := queues[k]]
        && queues[k].messages == messages && queues[k].currentIndex == 0 && !queues[k].isSending
      ensures stopFlags == old(stopFlags)[k := StopFlag(false, Some(old(nextTimer)))]
      ensures ticks == WithoutPending(old(ticks), old(stopFlags), k)[old(nextTimer) := Tick(k, queues[k], target, name, DispatchInterval(speed))]
      ensures nextTimer == old(nextTimer) + 1
    {
      var interval := DispatchInterval(speed);
      EnsureQueue(k, messages);
      assert TimersValid() && MapsValid();
      ArmFirstTick(Tick(k, queues[k], target, name, interval));
      assert MapsValid() && QueuesValid();
    }

    /** Makes the session's queue from `messages`, unless it has one already. */
    method EnsureQueue(k: Key, messages: seq<string>)
      requires QueuesValid()
      modifies this`queues
      ensures QueuesValid()
      ensures k in queues
      ensures k in old(queues) ==> queues == old(queues)
      ensures k !in old(queues) ==>
        && fresh(queues[k]) && queues == old(queues)[k := queues[k]]
        && queues[k].messages == messages && queues[k].currentIndex == 0 && !queues[k].isSending
    {
      if k !in queues {
        var q := new MessageQueue(messages);
        queues := queues[k := q];
      }
    }

    /** Clears the session's pending dispatch timer, arms `t` in its place and records the new
        handle in a fresh, lowered stop flag. */
    method ArmFirstTick(t: Tick)
      requires TimersValid()
      modifies this`ticks, this`nextTimer, this`stopFlags
      ensures TimersValid()
      ensures stopFlags == old(stopFlags)[t.key := StopFlag(false, Some(old(nextTimer)))]
      ensures ticks == WithoutPending(old(ticks), old(stopFlags), t.key)[old(nextTimer) := t]
      ensures nextTimer == old(nextTimer) + 1
    {
      ticks := WithoutPending(ticks, stopFlags, t.key);
      var id := SetTick(t);
      stopFlags := stopFlags[t.key := StopFlag(false, Some(id))];
    }

    /** One connection attempt of a session. A session that is CONNECTED with a socket is left
        alone. Otherwise: if the credentials cannot be loaded, nothing changes and a retry is armed
        five seconds away unless the session is STOPPED; then the old socket is dropped; if making
        the socket throws, the same retry is armed; else the new socket is registered and, for
        unregistered credentials and a waiting caller, the pairing code is requested and given to
        the caller once. */
    method StartConnection(k: Key, registered: bool, setup: Setup, pairing: PairingOutcome) returns (reply: Option<Reply>)
      requires TimersValid() && MapsValid() && k in logins
      modifies this`sockets, this`retries, this`nextTimer, this`logins
      ensures TimersValid() && MapsValid()
      ensures LinkOf(k) == Step(old(LinkOf(k)), Started(setup))
      ensures sockets - {k} == old(sockets) - {k}
      ensures var d := RetryDelay(old(LinkOf(k)), Started(setup));
        if d.Some? then retries == old(retries)[old(nextTimer) := Retry(k, d.value)] && nextTimer == old(nextTimer) + 1
        else retries == old(retries) && nextTimer == old(nextTimer)
      ensures reply == (if !AttemptSkipped(old(LinkOf(k))) && setup == SetupOk
                        then PairingReply(old(logins[k]), registered, states[k], pairing) else None)
      ensures reply.Some? ==> !old(logins[k].codeSent)
      ensures logins == (if reply.Some? then old(logins)[k := old(logins[k]).(codeSent := true)] else old(logins))
    {
      reply := None;
      if states[k] == Connected && k in sockets {
        return;
      }
      if setup == AuthFails {
        if states[k] != Stopped {
          var id := SetRetry(Retry(k, FallbackRetryDelay));
        }
        return;
      }
      sockets := sockets - {k};
      if setup == SocketFails {
        if states[k] != Stopped {
          var id := SetRetry(Retry(k, FallbackRetryDelay));
        }
        return;
      }
      sockets := sockets + {k};
      reply := RequestPairing(k, registered, pairing);
    }

    /** With unregistered credentials, a waiting caller and a session that is not PAIRED, the
        pairing code is requested; a code is formatted and given to the caller, once. */
    method RequestPairing(k: Key, registered: bool, pairing: PairingOutcome) returns (reply: Option<Reply>)
      requires TimersValid() && k in logins && k in states
      modifies this`logins
      ensures TimersValid()
      ensures reply == PairingReply(old(logins[k]), registered, states[k], pairing)
      ensures logins == (if reply.Some? then old(logins)[k := old(logins[k]).(codeSent := true)] else old(logins))
    {
      reply := None;
      var login := logins[k];
      if !registered && login.hasCallback && states[k] != Paired {
        if pairing.PairingCode? && !login.codeSent {
          logins := logins[k := login.(codeSent := true)];
          reply := Some(CodeReply(FormatPairingCode(pairing.code)));
        }
      }
    }

    /** A login: a fresh login context for the key, INIT for a key without a state, then one
        connection attempt. */
    method ConnectAndLogin(phone: string, k: Key, hasCallback: bool, registered: bool, setup: Setup, pairing: PairingOutcome)
      returns (reply: Option<Reply>)
      requires TimersValid() && MapsValid()
      modifies this`logins, this`states, this`sockets, this`retries, this`nextTimer
      ensures TimersValid() && MapsValid()
      ensures states == (if k in old(states) then old(states) else old(states)[k := Init])
      ensures LinkOf(k) == Step(old(LinkOf(k)), Started(setup))
      ensures sockets - {k} == old(sockets) - {k}
      ensures var d := RetryDelay(old(LinkOf(k)), Started(setup));
        if d.Some? then retries == old(retries)[old(nextTimer) := Retry(k, d.value)] && nextTimer == old(nextTimer) + 1
        else retries == old(retries) && nextTimer == old(nextTimer)
      ensures reply == (if !AttemptSkipped(old(LinkOf(k))) && setup == SetupOk
                        then PairingReply(Login(phone, hasCallback, false), registered, states[k], pairing) else None)
      ensures logins == old(logins)[k := Login(phone, hasCallback, reply.Some?)]
    {
      logins := logins[k := Login(phone, hasCallback, false)];
      if k !in states {
        states := states[k := Init];
      }
      assert TimersValid() && MapsValid();
      assert LinkOf(k) == old(LinkOf(k));
      reply := StartConnection(k, registered, setup, pairing);
    }

    /** The login route: refused without a phone number; otherwise the number is reduced to its
        digits and the session under the new key `k` is logged in with a caller waiting for the
        pairing code or the connection. */
    method LoginRoute(raw: Option<string>, k: Key, registered: bool, setup: Setup, pairing: PairingOutcome)
      returns (r: LoginResult)
      requires Valid()
      modifies this`logins, this`states, this`sockets, this`retries, this`nextTimer
      ensures Valid()
      ensures r == PhoneRequired <==> LoginPhone(raw).None?
      ensures r == PhoneRequired ==>
        logins == old(logins) && states == old(states) && sockets == old(sockets)
        && retries == old(retries) && nextTimer == old(nextTimer)
      ensures r.LoginStarted? ==>
        && logins == old(logins)[k := Login(LoginPhone(raw).value, true, r.reply.Some?)]
        && states == (if k in old(states) then old(states) else old(states)[k := Init])
        && LinkOf(k) == Step(old(LinkOf(k)), Started(setup))
        && sockets - {k} == old(sockets) - {k}
        && (var d := RetryDelay(old(LinkOf(k)), Started(setup));
            if d.Some? then retries == old(retries)[old(nextTimer) := Retry(k, d.value)] && nextTimer == old(nextTimer) + 1
            else retries == old(retries) && nextTimer == old(nextTimer))
        && r.reply == (if !AttemptSkipped(old(LinkOf(k))) && setup == SetupOk
                       then PairingReply(Login(LoginPhone(raw).value, true, false), registered, states[k], pairing) else None)
    {
      var phone := LoginPhone(raw);
      if phone.None? {
        return PhoneRequired;
      }
      var reply := ConnectAndLogin(phone.value, k, true, registered, setup, pairing);
      r := LoginStarted(reply);
    }

    /** A reconnection timer fires: the attempt is made again with the session's login context. */
    method FireRetry(id: TimerId, registered: bool, setup: Setup, pairing: PairingOutcome) returns (reply: Option<Reply>)
      requires Valid() && id in retries
      modifies this`sockets, this`retries, this`nextTimer, this`logins
      ensures Valid()
      ensures var k := old(retries[id].key);
        && LinkOf(k) == Step(old(LinkOf(k)), Started(setup))
        && sockets - {k} == old(sockets) - {k}
        && var d := RetryDelay(old(LinkOf(k)), Started(setup));
           if d.Some? then retries == (old(retries) - {id})[old(nextTimer) := Retry(k, d.value)] && nextTimer == old(nextTimer) + 1
           else retries == old(retries) - {id} && nextTimer == old(nextTimer)
    ensures var k := old(retries[id].key);
        && reply == (if !AttemptSkipped(old(LinkOf(k))) && setup == SetupOk
                     then PairingReply(old(logins[k]), registered, states[k], pairing) else None)
        && (reply.Some? ==> !old(logins[k].codeSent))
        && logins == (if reply.Some? then old(logins)[k := old(logins[k]).(codeSent := true)] else old(logins))
    {
      var k := retries[id].key;
      retries := retries - {id};
      reply := StartConnection(k, registered, setup, pairing);
    }

    /** The "open" update: CONNECTED, counter reset, the record refreshed and saved, a waiting
        caller told once, and the dispatch loop started when the record holds a campaign. */
    method OnOpen(k: Key, now: int) returns (reply: Option<Reply>)
      requires Valid() && k in logins
      modifies this`states, this`attempts, this`sessions, this`persisted, this`logins
      modifies this`ticks, this`nextTimer, this`stopFlags, this`queues
      ensures Valid()
      ensures LinkOf(k) == Step(old(LinkOf(k)), Opened)
      ensures states == old(states)[k := Connected] && attempts == old(attempts)[k := 0]
      ensures sessions == old(sessions)[k := RecordOf(old(sessions), k).(
        phoneNumber := Some(old(logins[k].phone)), uniqueKey := Some(k), connected := true, lastUpdate := Some(now))]
      ensures persisted == sessions
      ensures reply == (if old(logins[k]).hasCallback && !old(logins[k]).codeSent then Some(ConnectedReply) else None)
      ensures logins == (if reply.Some? then old(logins)[k := old(logins[k]).(codeSent := true)] else old(logins))
      ensures sessions[k].campaign.None? ==>
        ticks == old(ticks) && nextTimer == old(nextTimer) && stopFlags == old(stopFlags) && queues == old(queues)
      ensures sessions[k].campaign.Some? ==>
        var c := sessions[k].campaign.value;
        && k in queues
        && (k in old(queues) ==> queues == old(queues))
        && (k !in old(queues) ==>
              fresh(queues[k]) && queues == old(queues)[k := queues[k]]
              && queues[k].messages == c.messages && queues[k].currentIndex == 0 && !queues[k].isSending)
        && stopFlags == old(stopFlags)[k := StopFlag(false, Some(old(nextTimer)))]
        && ticks == WithoutPending(old(ticks), old(stopFlags), k)[old(nextTimer) := Tick(k, queues[k], c.target, c.name, DispatchInterval(c.speed))]
        && nextTimer == old(nextTimer) + 1
    {
      reply := MarkOpen(k, now);
      assert TimersValid() && MapsValid() && QueuesValid();
      var rec := sessions[k];
      if rec.campaign.Some? {
        var c := rec.campaign.value;
        StartMessaging(k, c.target, c.name, c.messages, c.speed);
      }
    }

    /** The part of an "open" update that does not touch the campaign: the record is
        refreshed and the caller waiting on the login is told. */
    method MarkOpen(k: Key, now: int) returns (reply: Option<Reply>)
      requires TimersValid() && MapsValid() && k in logins
      modifies this`states, this`attempts, this`sessions, this`persisted, this`logins
      ensures TimersValid() && MapsValid()
      ensures LinkOf(k) == Step(old(LinkOf(k)), Opened)
      ensures states == old(states)[k := Connected] && attempts == old(attempts)[k := 0]
      ensures sessions == old(sessions)[k := RecordOf(old(sessions), k).(
        phoneNumber := Some(old(logins[k].phone)), uniqueKey := Some(k), connected := true, lastUpdate := Some(now))]
      ensures persisted == sessions
      ensures reply == (if old(logins[k]).hasCallback && !old(logins[k]).codeSent then Some(ConnectedReply) else None)
      ensures logins == (if reply.Some? then old(logins)[k := old(logins[k]).(codeSent := true)] else old(logins))
    {
      RecordOpen(k, now);
      assert LinkOf(k) == Step(old(LinkOf(k)), Opened);
      reply := NotifyConnected(k);
    }

    /** The bookkeeping of an "open" update: CONNECTED, counter reset, record refreshed and saved. */
    method RecordOpen(k: Key, now: int)
      requires MapsValid() && k in logins
      modifies this`states, this`attempts, this`sessions, this`persisted
      ensures MapsValid()
      ensures states == old(states)[k := Connected] && attempts == old(attempts)[k := 0]
      ensures sessions == old(sessions)[k := RecordOf(old(sessions), k).(
        phoneNumber := Some(logins[k].phone), uniqueKey := Some(k), connected := true, lastUpdate := Some(now))]
      ensures persisted == sessions
    {
      states := states[k := Connected];
      attempts := attempts[k := 0];
      sessions := sessions[k := RecordOf(sessions, k).(
        phoneNumber := Some(logins[k].phone), uniqueKey := Some(k), connected := true, lastUpdate := Some(now))];
      Save();
    }

    /** Tells a caller waiting on the login that the session is connected, unless it was told already. */
    method NotifyConnected(k: Key) returns (reply: Option<Reply>)
      requires TimersValid() && k in logins
      modifies this`logins
      ensures TimersValid()
      ensures reply == (if old(logins[k]).hasCallback && !old(logins[k]).codeSent then Some(ConnectedReply) else None)
      ensures logins == (if reply.Some? then old(logins)[k := old(logins[k]).(codeSent := true)] else old(logins))
    {
      reply := None;
      var login := logins[k];
      if login.hasCallback && !login.codeSent {
        logins := logins[k := login.(codeSent := true)];
        reply := Some(ConnectedReply);
      }
    }

    /** The "close" update. Unless the session is STOPPED or logged out without credentials, it
        becomes RECONNECTING, loses its socket and its pending dispatch timer, and a reconnection
        is armed after the back-off of its counter, which then grows by one. */
    method OnClose(k: Key, loggedOut: bool, credsExist: bool) returns (delay: Option<nat>)
      requires Valid() && k in logins
      modifies this`states, this`sockets, this`ticks, this`retries, this`nextTimer, this`attempts
      ensures Valid()
      ensures LinkOf(k) == Step(old(LinkOf(k)), Closed(loggedOut, credsExist))
      ensures delay == RetryDelay(old(LinkOf(k)), Closed(loggedOut, credsExist))
      ensures delay.None? ==>
        states == old(states) && sockets == old(sockets) && attempts == old(attempts)
        && ticks == old(ticks) && retries == old(retries) && nextTimer == old(nextTimer)
      ensures delay.Some? ==>
        && states == old(states)[k := Reconnecting] && sockets == old(sockets) - {k}
        && attempts == old(attempts)[k := old(AttemptsOf(k)) + 1]
        && ticks == WithoutPending(old(ticks), stopFlags, k)
        && retries == old(retries)[old(nextTimer) := Retry(k, delay.value)]
        && nextTimer == old(nextTimer) + 1
    {
      delay := None;
      if ShouldReconnect(loggedOut, credsExist) && states[k] != Stopped {
        var d := ScheduleReconnect(k);
        delay := Some(d);
      }
    }

    /** The reconnecting branch of a close: RECONNECTING, no socket, the dispatch tick cleared,
        and a reconnection armed after the back-off of the counter, which grows by one. */
    method ScheduleReconnect(k: Key) returns (d: nat)
      requires TimersValid() && MapsValid() && k in logins
      modifies this`states, this`sockets, this`ticks, this`retries, this`nextTimer, this`attempts
      ensures TimersValid() && MapsValid()
      ensures d == Backoff(old(AttemptsOf(k)))
      ensures states == old(states)[k := Reconnecting] && sockets == old(sockets) - {k}
      ensures attempts == old(attempts)[k := old(AttemptsOf(k)) + 1]
      ensures ticks == WithoutPending(old(ticks), stopFlags, k)
      ensures retries == old(retries)[old(nextTimer) := Retry(k, d)] && nextTimer == old(nextTimer) + 1
    {
      states := states[k := Reconnecting];
      sockets := sockets - {k};
      ticks := WithoutPending(ticks, stopFlags, k);
      d := Backoff(AttemptsOf(k));
      attempts := attempts[k := AttemptsOf(k) + 1];
      var id := SetRetry(Retry(k, d));
    }

    /** Arms the next tick of a dispatch loop, when its session is not stopped and is CONNECTED. */
    method Reschedule(t: Tick)
      requires TimersValid() && t.key in stopFlags
      modifies this`ticks, this`nextTimer, this`stopFlags
      ensures TimersValid()
      ensures InState(t.key, Connected) ==>
        && ticks == old(ticks)[old(nextTimer) := t] && nextTimer == old(nextTimer) + 1
        && stopFlags == old(stopFlags)[t.key := old(stopFlags[t.key]).(timeout := Some(old(nextTimer)))]
      ensures !InState(t.key, Connected) ==>
        ticks == old(ticks) && nextTimer == old(nextTimer) && stopFlags == old(stopFlags)
    {
      if !stopFlags[t.key].stopped && InState(t.key, Connected) {
        var id := SetTick(t);
        stopFlags := stopFlags[t.key := stopFlags[t.key].(timeout := Some(id))];
      }
    }

    /** A dispatch timer fires. A STOPPED session loses its queue and pending timer and the loop
        ends. A session without a socket or not CONNECTED, or a queue with a send in flight, sends
        nothing and leaves the queue alone; the loop goes on while the session is CONNECTED.
        Otherwise the queue is marked as sending and the current message is handed over. */
    method FireTick(id: TimerId) returns (d: Option<Dispatch>)
      requires Valid() && id in ticks
      modifies this`ticks, this`nextTimer, this`stopFlags, this`queues, ticks[id].queue
      ensures Valid()
      ensures var t := old(ticks[id]);
        InState(t.key, Stopped) ==>
          && d.None? && queues == old(queues) - {t.key}
          && ticks == WithoutPending(old(ticks) - {id}, old(stopFlags), t.key)
          && stopFlags == old(stopFlags) && nextTimer == old(nextTimer)
          && t.queue.currentIndex == old(t.queue.currentIndex) && t.queue.isSending == old(t.queue.isSending)
      ensures var t := old(ticks[id]);
        !InState(t.key, Stopped) && (t.key !in sockets || !InState(t.key, Connected) || old(t.queue.isSending)) ==>
          && d.None? && queues == old(queues)
          && t.queue.currentIndex == old(t.queue.currentIndex) && t.queue.isSending == old(t.queue.isSending)
          && (InState(t.key, Connected) ==>
                && ticks == (old(ticks) - {id})[old(nextTimer) := t] && nextTimer == old(nextTimer) + 1
                && stopFlags == old(stopFlags)[t.key := old(stopFlags[t.key]).(timeout := Some(old(nextTimer)))])
          && (!InState(t.key, Connected) ==>
                ticks == old(ticks) - {id} && nextTimer == old(nextTimer) && stopFlags == old(stopFlags))
      ensures var t := old(ticks[id]);
        t.key in sockets && InState(t.key, Connected) && !old(t.queue.isSending) ==>
          && d == Some(Dispatch(t, ChatId(t.target), MessageText(t.name, old(t.queue.Current()))))
          && t.queue.isSending && t.queue.currentIndex == old(t.queue.currentIndex)
          && queues == old(queues) && ticks == old(ticks) - {id}
          && stopFlags == old(stopFlags) && nextTimer == old(nextTimer)
    {
      var t := ticks[id];
      var k := t.key;
      ticks := ticks - {id};
      d := None;
      if stopFlags[k].stopped || InState(k, Stopped) {
        ticks := WithoutPending(ticks, stopFlags, k);
        queues := queues - {k};
      } else if k !in sockets || !InState(k, Connected) || t.queue.isSending {
        Reschedule(t);
      } else {
        t.queue.isSending := true;
        d := Some(Dispatch(t, ChatId(t.target), MessageText(t.name, t.queue.Current())));
      }
    }

    /** The transport reports the outcome of a dispatch. A delivered message moves the cursor on
        (back to 0 past the last message); a failed one leaves it. The queue is no longer sending
        either way, and the loop goes on while the session is CONNECTED. */
    method FinishSend(d: Dispatch, delivered: bool)
      requires Valid() && d.tick.key in stopFlags
      modifies this`ticks, this`nextTimer, this`stopFlags, d.tick.queue
      ensures Valid()
      ensures d.tick.queue.currentIndex ==
        (if delivered then NextIndex(old(d.tick.queue.currentIndex), |d.tick.queue.messages|) else old(d.tick.queue.currentIndex))
      ensures !d.tick.queue.isSending
      ensures InState(d.tick.key, Connected) ==>
        && ticks == old(ticks)[old(nextTimer) := d.tick] && nextTimer == old(nextTimer) + 1
        && stopFlags == old(stopFlags)[d.tick.key := old(stopFlags[d.tick.key]).(timeout := Some(old(nextTimer)))]
      ensures !InState(d.tick.key, Connected) ==>
        ticks == old(ticks) && nextTimer == old(nextTimer) && stopFlags == old(stopFlags)
    {
      var q := d.tick.queue;
      if delivered {
        q.Advance();
      }
      q.isSending := false;
      Reschedule(d.tick);
    }

    /** The start-messaging route: refused without a key, a target, a socket for the key or an
        uploaded file; otherwise the parsed file and the campaign fields are stored in the record,
        the registry is saved and the dispatch loop is started. */
    method ConfigureCampaign(k: Key, target: Option<string>, name: Option<string>, speed: Option<string>, file: Option<string>)
      returns (r: CampaignResult)
      requires Valid()
      modifies this`sessions, this`persisted, this`ticks, this`nextTimer, this`stopFlags, this`queues
      ensures Valid()
      ensures r == MissingFields <==> k == [] || target.None? || target.value == [] || k !in sockets || file.None?
      ensures r == MissingFields ==>
        sessions == old(sessions) && persisted == old(persisted) && ticks == old(ticks)
        && nextTimer == old(nextTimer) && stopFlags == old(stopFlags) && queues == old(queues)
      ensures r == MessagingStarted ==>
        var c := CampaignConfig(target.value, name, ParseMessageFile(file.value), speed);
        && sessions == old(sessions)[k := RecordOf(old(sessions), k).(campaign := Some(c))]
        && persisted == sessions
        && k in queues
        && (k in old(queues) ==> queues == old(queues))
        && (k !in old(queues) ==>
              && fresh(queues[k]) && queues == old(queues)[k := queues[k]]
              && queues[k].messages == c.messages && queues[k].currentIndex == 0 && !queues[k].isSending)
        && stopFlags == old(stopFlags)[k := StopFlag(false, Some(old(nextTimer)))]
        && ticks == WithoutPending(old(ticks), old(stopFlags), k)[old(nextTimer) := Tick(k, queues[k], c.target, c.name, DispatchInterval(c.speed))]
        && nextTimer == old(nextTimer) + 1
    {
      if k == [] || target.None? || target.value == [] || k !in sockets || file.None? {
        return MissingFields;
      }
      var messages := ParseMessageFile(file.value);
      StoreCampaign(k, CampaignConfig(target.value, name, messages, speed));
      StartMessaging(k, target.value, name, messages, speed);
      r := MessagingStarted;
    }

    /** Stores a campaign in the session's record and saves the registry. */
    method StoreCampaign(k: Key, c: CampaignConfig)
      modifies this`sessions, this`persisted
      ensures sessions == old(sessions)[k := RecordOf(old(sessions), k).(campaign := Some(c))]
      ensures persisted == sessions
    {
      sessions := sessions[k := RecordOf(sessions, k).(campaign := Some(c))];
      Save();
    }

    /** The stop route: refused for an empty or unknown key; otherwise the session becomes
        STOPPED, loses its pending dispatch timer and its socket, and leaves the registry, which is
        saved. A pending reconnection is not cancelled. */
    method Stop(k: Key) returns (r: StopResult)
      requires Valid()
      modifies this`states, this`ticks, this`sockets, this`sessions, this`persisted
      ensures Valid()
      ensures r == InvalidSession <==> k == [] || k !in old(sessions)
      ensures r == InvalidSession ==>
        states == old(states) && ticks == old(ticks) && sockets == old(sockets)
        && sessions == old(sessions) && persisted == old(persisted)
      ensures r == StopDone ==>
        && LinkOf(k) == Step(old(LinkOf(k)), StopRequested)
        && states == old(states)[k := Stopped] && sockets == old(sockets) - {k}
        && ticks == WithoutPending(old(ticks), stopFlags, k)
        && sessions == old(sessions) - {k} && persisted == sessions
        && k !in sessions
      ensures retries == old(retries)
    {
      if k == [] || k !in sessions {
        return InvalidSession;
      }
      Deactivate(k);
      sessions := sessions - {k};
      Save();
      r := StopDone;
    }

    /** What a stop does to the session's connection: STOPPED, no pending dispatch tick, no socket. */
    method Deactivate(k: Key)
      requires TimersValid() && MapsValid()
      modifies this`states, this`ticks, this`sockets
      ensures TimersValid() && MapsValid()
      ensures states == old(states)[k := Stopped] && sockets == old(sockets) - {k}
      ensures ticks == WithoutPending(old(ticks), stopFlags, k)
    {
      states := states[k := Stopped];
      ticks := WithoutPending(ticks, stopFlags, k);
      sockets := sockets - {k};
    }

    /** `RestoreFrame` of the current maps, against the maps as they were when the restore began. */
    ghost predicate RestoreFrame(ls: map<Key, Login>, st: map<Key, State>, so: set<Key>, re: map<TimerId, Retry>)
      reads this`sessions, this`logins, this`states, this`sockets, this`retries
    {
      RestoreFrameOf(sessions, logins, states, sockets, retries, ls, st, so, re)
    }

    /** Logs a restored record in again, with the record's number and no caller waiting: its key
        gets a fresh login context and a state, one connection attempt moves its values by
        `Step(Started)`, and only its key's entries can change. */
    method RestoreRecord(rec: SessionRecord, setup: Setup,
                         ghost ls: map<Key, Login>, ghost st: map<Key, State>, ghost so: set<Key>, ghost re: map<TimerId, Retry>)
      requires TimersValid() && MapsValid()
      requires Restorable(rec) && exists key :: key in sessions && sessions[key] == rec
      requires RestoreFrame(ls, st, so, re)
      modifies this`logins, this`states, this`sockets, this`retries, this`nextTimer
      ensures TimersValid() && MapsValid()
      ensures RestoreFrame(ls, st, so, re)
      ensures var uk := rec.uniqueKey.value;
        && logins == old(logins)[uk := Login(rec.phoneNumber.value, false, false)]
        && states == (if uk in old(states) then old(states) else old(states)[uk := Init])
        && LinkOf(uk) == Step(old(LinkOf(uk)), Started(setup))
        && sockets - {uk} == old(sockets) - {uk}
      ensures var uk := rec.uniqueKey.value; var d := RetryDelay(old(LinkOf(uk)), Started(setup));
        if d.Some? then retries == old(retries)[old(nextTimer) := Retry(uk, d.value)] && nextTimer == old(nextTimer) + 1
        else retries == old(retries) && nextTimer == old(nextTimer)
    {
      var uk := rec.uniqueKey.value;
      ghost var delay := RetryDelay(LinkOf(uk), Started(setup));
      ghost var t := nextTimer;
      var reply := ConnectAndLogin(rec.phoneNumber.value, uk, false, true, setup, PairingFails);
      RestoreFrameKept(sessions, old(logins), old(states), old(sockets), old(retries), logins, states, sockets, retries,
                       uk, rec.phoneNumber.value, delay, t, ls, st, so, re);
    }

    /** The restore at start-up: a snapshot, when there is one, is merged into the registry, and
        every record naming a phone number and a key is logged in again with its number and no
        caller waiting. */
    method Restore(saved: Option<map<Key, SessionRecord>>, setups: map<Key, Setup>)
      requires Valid()
      modifies this`sessions, this`logins, this`states, this`sockets, this`retries, this`nextTimer
      ensures Valid()
      ensures saved.None? ==>
        sessions == old(sessions) && logins == old(logins) && states == old(states)
        && sockets == old(sockets) && retries == old(retries) && nextTimer == old(nextTimer)
      ensures saved.Some? ==> sessions == old(sessions) + saved.value
      ensures old(states.Keys) <= states.Keys
      ensures forall key :: key in sessions && Restorable(sessions[key]) && saved.Some? ==>
        var uk := sessions[key].uniqueKey.value;
        uk in states && uk in logins && !logins[uk].hasCallback && !logins[uk].codeSent
      ensures forall uk :: uk in logins && (uk !in old(logins) || logins[uk] != old(logins[uk])) ==>
        !logins[uk].hasCallback && !logins[uk].codeSent && RestoredKey(sessions, uk)
        && RestoredLogin(sessions, uk, logins[uk].phone)
      ensures forall uk :: uk in old(states) ==> uk in states && states[uk] == old(states[uk])
      ensures forall uk :: uk in states && uk !in old(states) ==> states[uk] == Init
      ensures old(logins.Keys) <= logins.Keys && old(retries.Keys) <= retries.Keys
      ensures forall uk :: !RestoredKey(sessions, uk) ==>
        && (uk in states <==> uk in old(states)) && (uk in states ==> states[uk] == old(states[uk]))
        && (uk in sockets <==> uk in old(sockets))
      ensures forall id :: id in retries && (id !in old(retries) || retries[id] != old(retries[id])) ==>
        RestoredKey(sessions, retries[id].key)
    {
      if saved.None? {
        return;
      }
      sessions := sessions + saved.value;
      ReconnectAll(setups);
    }

    /** Visits every record of the registry and logs in again those naming a phone number and a key. */
    method ReconnectAll(setups: map<Key, Setup>)
      requires Valid()
      modifies this`logins, this`states, this`sockets, this`retries, this`nextTimer
      ensures Valid()
      ensures forall key :: key in sessions && Restorable(sessions[key]) ==>
        var uk := sessions[key].uniqueKey.value;
        uk in states && uk in logins && !logins[uk].hasCallback && !logins[uk].codeSent
      ensures RestoreFrame(old(logins), old(states), old(sockets), old(retries))
    {
      var todo := sessions.Keys;
      ghost var done: set<Key> := {};
      while todo != {}
        invariant TimersValid() && MapsValid()
        invariant todo + done == sessions.Keys && todo !! done
        invariant LoggedInAgain(done)
        invariant RestoreFrame(old(logins), old(states), old(sockets), old(retries))
        decreases todo
      {
        var key :| key in todo;
        Visit(key, if key in setups then setups[key] else SetupOk, done, old(logins), old(states), old(sockets), old(retries));
        todo := todo - {key};
        done := done + {key};
      }
    }

    /** Every restorable record among `done` has its key logged in, with no caller waiting. */
    ghost predicate LoggedInAgain(done: set<Key>)
      reads this`sessions, this`logins, this`states
    {
      forall key :: key in done && key in sessions && Restorable(sessions[key]) ==>
        var uk := sessions[key].uniqueKey.value;
        uk in states && uk in logins && !logins[uk].hasCallback && !logins[uk].codeSent
    }

    /** One step of the restore loop: the record under `key` is logged in again if it is restorable. */
    method Visit(key: Key, setup: Setup, ghost done: set<Key>,
                 ghost ls: map<Key, Login>, ghost st: map<Key, State>, ghost so: set<Key>, ghost re: map<TimerId, Retry>)
      requires TimersValid() && MapsValid() && key in sessions
      requires LoggedInAgain(done) && RestoreFrame(ls, st, so, re)
      modifies this`logins, this`states, this`sockets, this`retries, this`nextTimer
      ensures TimersValid() && MapsValid()
      ensures LoggedInAgain(done + {key}) && RestoreFrame(ls, st, so, re)
    {
      var rec := sessions[key];
      if Restorable(rec) {
        RestoreRecord(rec, setup, ls, st, so, re);
      }
    }
  }
}
