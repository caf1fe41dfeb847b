# WhatsApp session orchestrator — a Dafny model

`index.js` runs many WhatsApp sessions side by side over the Baileys library. A login asks
for a pairing code and connects; each session has a connection state that moves between INIT,
CONNECTED, RECONNECTING and STOPPED; a closed connection is re-established with a linear
back-off; a configured campaign sends the lines of an uploaded file to one target, one every
few seconds and round and round; the registry of sessions is written to a snapshot after every
change and replayed at start-up.

The project models that core in six modules:

- `Wrappers` (wrappers.dfy): the `Option` type.
- `JsText` (js_text.dfy): the pieces of JavaScript string behaviour the core relies on:
  - `trim`, with JavaScript's white-space set;
  - `split('\n')` and `join('\n')`;
  - `replace(/[^0-9]/g, '')`;
  - `match(/.{1,4}/g)` (where `.` skips line terminators) and `join('-')`;
  - `parseInt` with no radix (leading white space, a sign, the `0x` prefix).
- `Pairing` (pairing.dfy): the login inputs.
  - `LoginPhone`: the phone number the login route accepts, reduced to its digits.
  - `FormatPairingCode`: the pairing code as shown, in dash-separated groups of four.
  - Lemmas on the groups, their round trip and the length of the shown code.
- `Lifecycle` (lifecycle.dfy): a session's state, its reconnection counter and socket as one value.
  - `Step` moves that value on each event: a connection attempt, an "open", a "close", a stop.
  - `RetryDelay` gives the reconnection timer an event arms.
  - The back-off schedule, and lemmas over whole sequences of events.
- `Campaign` (campaign.dfy): the campaign's pure parts:
  - parsing the message file;
  - the chat id and the text of each dispatch;
  - the dispatch interval, `(parseInt(speed) || 5) * 1000`;
  - the cyclic cursor.

  It also holds the `MessageQueue` class: the in-memory queue whose cursor and sending flag
  are updated in place.
- `Orchestration` (orchestrator.dfy): the `Orchestrator` class.
  - Its fields are the module-level maps: the session registry and its saved snapshot, the stop
    flags, sockets, queues, reconnection counters, states, the login contexts, and the pending
    timers.
  - Its methods are the handlers: the login route, a connection attempt, the "open" and "close"
    updates, a dispatch tick and the end of a send, the campaign and stop routes, and the
    restore at start-up.
  - Each handler that changes the life-cycle values is tied to `Lifecycle.Step` by its
    postcondition, `LinkOf(k) == Step(old(LinkOf(k)), e)`. What is proved of `Step` therefore
    holds of the class. The restore is the one exception: it is tied to `Step` one record at a
    time, through `RestoreRecord`.
  - `Valid` is preserved by every handler. It holds that no stop flag is ever raised, no
    session is ever PAIRED, every dispatch timer finds its session's stop flag, and every
    queue's cursor stays on a message.

Calls into Baileys, the file system and the clock are parameters of the methods:

| source call | parameter |
|---|---|
| whether the attempt throws before the old socket is torn down (session directory, credentials, library version) or while making the new socket | `setup: Setup` |
| whether the credentials are registered | `registered` |
| the pairing code, or its failure | `pairing` |
| whether a send was delivered | `delivered` |
| whether the close was a logged-out close | `loggedOut` |
| whether `creds.json` exists | `credsExist` |
| the time of an "open" | `now` |
| the parsed snapshot at start-up | `saved` |
| the uploaded file's content | `file` |
| the random session key | `k` |

A pending `setTimeout` is an entry of `ticks` (a dispatch tick) or `retries` (a reconnection)
under a fresh handle, and `clearTimeout` removes the entry. A send is split in two:

1. `FireTick` hands a `Dispatch` to the transport and marks the queue as sending.
2. `FinishSend` runs once the transport reports the outcome.

A tick that fires in between meets the `isSending` guard.

Where the code behaves in ways a reader may not expect, the model follows the code:

- STOPPED is not final. An "open" update makes a stopped session CONNECTED again, and a
  reconnection timer armed before the stop still fires. `StoppedLeftOnlyByOpen` and
  `StoppedReopens` state this; `Stop` leaves `retries` alone.
- A logged-out close without credentials leaves the state as it was. It does not set STOPPED
  (`InertCloses`, `UpdateEffects`).
- The interval is `(parseInt(speed) || 5) * 1000`, not a maximum with 5. A negative speed gives
  a negative interval (`DispatchIntervalNegative`), which Node's timers run after 1 ms. A speed
  of 0, or one with no digits, gives 5 seconds.
- The cursor is not saved. A campaign restored after a restart begins again at message 0,
  because the queue is rebuilt from the stored list.
- The per-session stop flag is only ever set to "not stopped". `TimersValid` keeps this as an
  invariant, so the tick guard on it never fires.
- Nothing assigns PAIRED (`PairedNeverEntered`, `MapsValid`). The guard against PAIRED before
  a pairing request therefore always passes.
- Starting a campaign for a session that already has a queue keeps that queue's messages and
  cursor and ignores the new list (`StartMessaging`).
- An empty message list sends "<name> undefined" on every tick (`EmptyListSendsUndefined`).
- A stop does not cancel a pending reconnection.

## Model

| member | source | states |
|---|---|---|
| JsText.DigitsOnly | index.js:266 | the result has only ASCII digits, is no longer than the input, and an all-digit input comes back unchanged |
| JsText.DigitsOnlyConcat | index.js:266 | the digits of `a + b` are the digits of `a` followed by those of `b` |
| JsText.DigitsOnlyAround | index.js:266 | a digit between two pieces is kept between their digits, and any other character is dropped |
| JsText.DigitsOnlyAt | index.js:266 | every character of the input contributes itself if it is a digit and nothing otherwise, in its place: every digit is kept, in order |
| JsText.DigitsOnlyIdempotent | index.js:167 | normalising an already normalised number (the login route's, again before the pairing request) changes nothing |
| JsText.TrimStartFacts | index.js:297 | leading trim removes a prefix made only of white space and stops at a non-space character |
| JsText.TrimEndFacts | index.js:297 | trailing trim removes a suffix made only of white space and stops at a non-space character |
| JsText.TrimFacts | index.js:297 | a trimmed line neither starts nor ends with white space |
| JsText.TrimChars | index.js:297 | trimming keeps only characters of the line, and gives the empty string exactly when the line is all white space |
| JsText.TrimOfTrimmed | index.js:297 | a line without white space at either end is left unchanged by trim |
| JsText.SplitLines | index.js:297 | `split('\n')` gives at least one piece, and no piece holds a newline |
| JsText.JoinSplitLines | index.js:297 | joining the pieces of a split with newlines gives the text back |
| JsText.SplitJoinLines | index.js:297 | splitting newline-free lines joined by newlines gives the lines back |
| JsText.Chunks | index.js:169 | the matches of `/.{1,4}/g` are 1 to 4 characters long, hold no line terminator, and together are the input without its line terminators |
| JsText.ChunksOfPlain | index.js:169 | for a code without line terminators the groups are full groups of four except perhaps the last, there are ceil(n/4) of them, and they concatenate to the code |
| JsText.ParseInt | index.js:106 | `parseInt` gives a number only when the text holds a digit |
| JsText.ParseIntDecimal | index.js:106 | `parseInt` reads back a decimal numeral followed by any non-digit text |
| JsText.ParseIntNegative | index.js:106 | a leading minus sign negates the number read |
| Campaign.TrimmedLines | index.js:297 | the reference definition of `.map(l => l.trim()).filter(l => l.length > 0)` on newline-free lines: each line trimmed, the empty ones dropped, the rest kept in order; never more lines than given |
| Campaign.ParseMessageFile | index.js:297 | the reference definition of the file parser: `SplitLines`, then `TrimmedLines`; its properties are the four lemmas below |
| Campaign.TrimmedLinesAreMessages | index.js:297 | every line the filter keeps is non-empty, a single line and trimmed |
| Campaign.ParseMessageFileMessages | index.js:297 | the parsed file holds only such messages, at most one per line of the file |
| Campaign.TrimmedLinesOfMessages | index.js:297 | trimming and filtering lines that are already messages keeps them all |
| Campaign.ParseMessageFileRoundTrip | index.js:297 | writing messages one per line and parsing the file gives exactly those messages back |
| Campaign.MessageAt | index.js:87 | the reference definition of `queue.messages[queue.currentIndex]`: the message at the cursor, or `undefined` (None) past the end of the list |
| Campaign.MessageText | index.js:88 | the reference definition of the template literal: the name, one space, the message, each rendered as "undefined" when absent |
| Campaign.IncludesIffOccurs | index.js:86 | `includes` holds exactly when the pattern occurs at some position |
| Campaign.ChatId | index.js:86 | a target mentioning "@g.us" is used as it is, and any other target gets exactly "@s.whatsapp.net" appended |
| Campaign.DispatchInterval | index.js:106 | the reference definition of `(parseInt(speed) \|\| 5) * 1000`: `DispatchSeconds` times 1000; pinned by the three lemmas below |
| Campaign.DispatchSeconds | index.js:106 | the interval in seconds is never 0 (NaN and 0 fall back to 5) |
| Campaign.DispatchIntervalOfSeconds | index.js:106 | a speed of n seconds gives n * 1000 ms, and 0 gives 5000 |
| Campaign.DispatchIntervalNegative | index.js:106 | a negative speed gives a negative interval; the expression does not clamp it (Node later runs such a timer after 1 ms) |
| Campaign.DispatchIntervalDefault | index.js:106 | a missing speed, or one with no digit, gives 5000 ms |
| Campaign.NextIndex | index.js:94-98 | after a delivery the cursor is the next position modulo the length, so on a non-empty list it stays below the length |
| Campaign.WrapIsMod | index.js:94-98 | counting round the list is the remainder: `Wrap(k, len) == k % len` |
| Campaign.IndexAfterWraps | index.js:94-98 | after n deliveries from cursor i the cursor is `Wrap(i + n, len)`, which is `(i + n) % len` by `WrapIsMod` |
| Campaign.FullCycleReturns | index.js:94-98 | after as many deliveries as there are messages the cursor is back where it started |
| Campaign.CyclicText | index.js:87-88 | from a fresh queue, the k-th text is the name, a space and message `Wrap(k, len)`, that is `k % len` |
| Campaign.EmptyListSendsUndefined | index.js:87-88 | with no messages the cursor stays at 0 and every text is the name followed by " undefined" |
| Campaign.MessageQueue.constructor | index.js:63-67 | a new queue holds a copy of the messages, cursor 0, not sending |
| Campaign.MessageQueue.Advance | index.js:94-98 | a delivery moves the cursor by `NextIndex` and keeps it on a message |
| Pairing.LoginPhone | index.js:265-266 | a missing or empty number is refused; anything else becomes its digits, all of them and in order, unchanged if it had only digits |
| Pairing.FormatPairingCode | index.js:169 | the reference definition of `code?.match(/.{1,4}/g)?.join('-') \|\| code`: the `Chunks` groups joined by dashes, or the code itself when there is no match |
| Pairing.PairingCodeGroups | index.js:169 | a code is shown as ceil(n/4) dash-joined groups, all of four but perhaps the last, which concatenate to the code |
| Pairing.PairingCodeRoundTrip | index.js:169 | removing the dashes from a shown code without dashes gives the code back |
| Pairing.PairingCodeLength | index.js:169 | the shown code has one extra character per group boundary |
| Pairing.EightCharacterCode | index.js:169 | an eight-character code is shown as four characters, a dash, four characters |
| Pairing.EmptyCodeUnchanged | index.js:169 | an empty code, which the pattern does not match, is shown as it is |
| Lifecycle.ShouldReconnect | index.js:208-215 | the reference definition of `shouldReconnect`: every close reconnects except a logged-out close whose `creds.json` is gone |
| Lifecycle.Step | index.js:124-162 | the reference definition of one event on a session's state, counter and socket: an attempt (index.js:124-162) is skipped when CONNECTED with a socket, keeps everything when it throws before the teardown, drops the socket when making the new one throws, and otherwise has a socket; "open" (:184-185) gives CONNECTED and counter 0; a reconnecting close (:219-225) gives RECONNECTING, counter + 1, no socket; a stop (:311-317) gives STOPPED without socket. The handlers are tied to it and the lemmas below are about it |
| Lifecycle.RetryDelay | index.js:219-236 | the reference definition of which reconnection timer an event arms: `Backoff` of the counter after a reconnecting close of a session not STOPPED (:224-226), 5 s after an attempt that throws while not STOPPED (:235-236), none otherwise |
| Lifecycle.Backoff | index.js:224 | the reconnection delay lies between 2 s and 30 s |
| Lifecycle.BackoffMonotone | index.js:224 | the delay never shrinks as the counter grows |
| Lifecycle.BackoffValues | index.js:224 | the delay is 2 s up to one attempt, 2 s per attempt up to 15, and 30 s from then on |
| Lifecycle.UpdateEffects | index.js:184-225 | "open" gives CONNECTED with the counter at 0; a close changes something exactly when it reconnects, and then gives RECONNECTING, no socket and the counter plus one |
| Lifecycle.PairedNeverEntered | index.js:32-38 | no sequence of events leads into PAIRED |
| Lifecycle.ConnectedOnlyThroughOpen | index.js:184 | a session only becomes CONNECTED through an "open" update |
| Lifecycle.StoppedLeftOnlyByOpen | index.js:219 | a STOPPED session leaves STOPPED only through an "open" update; attempts and closes keep it there |
| Lifecycle.StoppedReopens | index.js:182-185 | STOPPED is not final: an "open" makes it CONNECTED again |
| Lifecycle.CloseStorm | index.js:219-226 | n reconnecting closes add n to the counter, leave the session RECONNECTING without a socket, and arm n timers with the back-off of the counter at each |
| Lifecycle.BackoffScheduleAfterOpen | index.js:224-225 | after an "open", consecutive reconnecting closes wait 2, 2, 4, 6, ... seconds, at most 30 |
| Lifecycle.InertCloses | index.js:210-219 | logged-out closes without credentials, and closes of a STOPPED session, change nothing and arm nothing |
| Orchestration.Restorable | index.js:251 | the reference definition of the restore guard `session.phoneNumber && session.uniqueKey`: both present and non-empty |
| Orchestration.PairingReply | index.js:164-173 | the reference definition of the pairing answer: the formatted code, only for an unregistered device, a caller waiting, a session not PAIRED, a code obtained and no earlier answer |
| Orchestration.Orchestrator.constructor | index.js:25-30 | a fresh process has every map empty |
| Orchestration.Orchestrator.Save | index.js:40-51 | the snapshot is exactly the registry |
| Orchestration.Orchestrator.StartMessaging | index.js:57-70 | clears the pending tick, makes a queue only if none exists (an existing one keeps its messages and cursor), arms the first tick one interval away and lowers the stop flag |
| Orchestration.Orchestrator.EnsureQueue | index.js:62-68 | a queue is made from the messages, with cursor 0 and not sending, only when the session has none |
| Orchestration.Orchestrator.ArmFirstTick | index.js:114 | the old tick is cleared, the new one is armed under a fresh handle, and that handle is recorded in a lowered stop flag |
| Orchestration.Orchestrator.StartConnection | index.js:124-177 | the attempt moves the life-cycle values by `Step(Started)`, arms the 5 s retry exactly when `RetryDelay` says so, and gives a waiting caller the formatted pairing code at most once |
| Orchestration.Orchestrator.RequestPairing | index.js:164-176 | the formatted code goes to a waiting caller only for an unregistered device, a session not PAIRED, a code obtained and no earlier answer, and then the context is marked answered; otherwise nothing changes |
| Orchestration.Orchestrator.ConnectAndLogin | index.js:118-122 | a fresh login context, INIT for a new key, then one attempt as `StartConnection` |
| Orchestration.Orchestrator.LoginRoute | index.js:262-273 | refused exactly when `LoginPhone` refuses the number, changing nothing; otherwise a login with a waiting caller under the digits of the number: INIT for a new key, the values moved by `Step(Started)`, other keys' sockets untouched, the 5 s retry exactly per `RetryDelay`, and the pairing reply as `StartConnection` gives it |
| Orchestration.Orchestrator.FireRetry | index.js:226 | a fired reconnection timer is removed and the attempt is made again as `StartConnection`, with the same life-cycle step, retry, at-most-once pairing reply and login-context update |
| Orchestration.Orchestrator.OnOpen | index.js:182-204 | moves the values by `Step(Opened)`, refreshes and saves the record, tells a waiting caller once, and starts the dispatch loop exactly when the record holds a campaign, with a fresh idle queue at cursor 0 when it had none |
| Orchestration.Orchestrator.MarkOpen | index.js:182-199 | the values move by `Step(Opened)`, the record is refreshed and saved, and a waiting caller is told once; the campaign is not touched |
| Orchestration.Orchestrator.RecordOpen | index.js:184-194 | CONNECTED, counter 0, the record refreshed with number, key, connected flag and time, then saved |
| Orchestration.Orchestrator.NotifyConnected | index.js:196-199 | a waiting caller that has not been answered is told of the connection, once |
| Orchestration.Orchestrator.OnClose | index.js:206-227 | moves the values by `Step(Closed)` and returns `RetryDelay`; a reconnecting close also clears the dispatch tick and arms the retry after the back-off, and any other close changes nothing |
| Orchestration.Orchestrator.ScheduleReconnect | index.js:219-226 | RECONNECTING, socket and pending tick dropped, the retry armed after `Backoff` of the old counter under a fresh handle, and the counter one higher |
| Orchestration.Orchestrator.Reschedule | index.js:109-111 | the next tick is armed exactly when the session is CONNECTED |
| Orchestration.Orchestrator.FireTick | index.js:72-88 | a STOPPED session loses its queue and pending tick; without socket or connection, or with a send in flight, nothing is sent and no queue field changes; otherwise the queue is marked sending and the message under the cursor goes to the chat id |
| Orchestration.Orchestrator.FinishSend | index.js:90-111 | a delivery advances the cursor by `NextIndex`, a failure leaves it; sending is cleared either way; the loop goes on exactly when CONNECTED |
| Orchestration.Orchestrator.ConfigureCampaign | index.js:291-302 | refused exactly when the key, the target, the socket or the file is missing, changing nothing; otherwise the parsed file and fields are stored, saved, and the dispatch loop is started: an existing queue is kept, or a fresh idle one is added at cursor 0, and one tick is armed under the next handle |
| Orchestration.Orchestrator.StoreCampaign | index.js:299-300 | the campaign is added to the record and the registry saved |
| Orchestration.Orchestrator.Stop | index.js:308-323 | refused exactly for an empty or unknown key, changing nothing; otherwise STOPPED, tick cleared, socket dropped, record deleted and saved, so a second stop of the key is refused; pending retries stay |
| Orchestration.Orchestrator.Deactivate | index.js:311-317 | STOPPED, the pending tick cleared and the socket dropped, whether or not the logout succeeds |
| Orchestration.Orchestrator.Restore | index.js:244-259 | the snapshot is merged into the registry; every record with a number and a key is logged in again with no caller waiting; only such records' keys get a new login context, which holds the number of a record naming the key, a new state, which is INIT, a changed socket, or a reconnection timer; existing states keep their values |
| Orchestration.Orchestrator.ReconnectAll | index.js:250-255 | every record with a number and a key gets a login context with no caller waiting and the number of a record naming that key, states are only added, as INIT, and nothing changes for keys no such record names |
| Orchestration.Orchestrator.RestoreRecord | index.js:251-253 | one record's key gets a fresh login context with the record's number and no caller waiting, INIT if it had no state, and one attempt that moves its values by `Step(Started)` and arms the retry `RetryDelay` names; no other key's entries change |
| Orchestration.Orchestrator.Visit | index.js:250-253 | one step of the restore loop: a restorable record's key is logged in and the restore's frame is kept |
| Orchestration.RestoreFrameKept | index.js:251-253 | logging one record in again, under its own key and number, changes only that key's login context, state, socket and one timer, so the restore's frame (new login contexts only for restored keys and with their record's number, states only added as INIT, other keys untouched) is kept |

## Left out

- The Express routes other than login, start-messaging and stop are not modelled: the page, static files, CORS, and the group-id listing route (`/getGroupUID`), which only reads a socket and calls into Baileys. The HTTP responses are reduced to result values.
- File-system effects are not modelled: writing and reading the snapshot as JSON, making and deleting the credentials directory, and reading and deleting the upload. The snapshot is the `persisted` map, the parsed snapshot is a parameter, and the existence of `creds.json` is a boolean.
- Baileys calls (`makeWASocket`, `useMultiFileAuthState`, `fetchLatestBaileysVersion`, `requestPairingCode`, `sendMessage`, `logout`) are outcomes passed as parameters. A socket is only its presence in `sockets`.
- Real timers and the interleaving of asynchronous continuations are not modelled. Each timer callback is one atomic method. The 3 s wait before the pairing request is not modelled, and nothing can happen during it.
- Socket identity is not modelled. A close handler belongs to the socket it was attached to, and the model does not tell an old socket's events from the current one's.
- Orchestration.Orchestrator.StartConnection: one login context per key stands for the closures of each login call. A second login on the same key replaces the first, and the first call's pairing flag is not kept.
- Orchestration.Orchestrator.Restore: the order in which the records are visited is a free choice, where JavaScript visits them in insertion order. So for a key named by two records, the contract says only that the login context holds the number of one of them (JavaScript: the later one), and it does not state the life-cycle values the attempts leave; `RestoreRecord` states them for each single record.
- Orchestration.Orchestrator.Stop: keys are own entries of the maps. In the source the maps are plain objects, so a key named after an `Object.prototype` member ("constructor", "toString") passes the registry test at index.js:310 and is stopped, again and again. The model refuses it.
- Orchestration.Orchestrator.ConfigureCampaign: the same holds for the socket test at index.js:295, which such a key passes. A key "__proto__" would replace the registry's prototype at index.js:299. The model keeps only own keys, and login keys (random hex) never collide with those names.
- JavaScript numbers and strings are not modelled. `parseInt` returns a double, so a speed from 2^53 up is rounded, and a numeral of more than 308 digits is Infinity. Node runs a delay under 1 ms or over 2^31 - 1 ms after 1 ms; the model keeps the computed interval. `trim`, `/.{1,4}/g` and `length` work on UTF-16 code units, where the model's strings are sequences of characters.
- Campaign.DispatchIntervalOfSeconds: n * 1000 is the interval JavaScript computes only for n below 2^53; above that `parseInt` rounds to a nearby double.
- Random key generation is not modelled; the login route takes the new key as a parameter.
- A failed pairing request is only logged and the caller gets no reply. The model gives no reply too, but it does not model the log.
- Logging and the mapping of a Boom error to a status code are not modelled. The close handler receives only whether the close was a logged-out one.
- `clearTimeout` is applied to the dispatch timers only: a stop flag only ever holds the handle of a dispatch tick.
