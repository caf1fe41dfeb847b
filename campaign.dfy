/** The message campaign of one session: reading the uploaded message file, the
    destination and text of each dispatch, the dispatch interval, and the cyclic
    queue whose cursor advances after every delivered message. */
module Campaign {

  import opened Wrappers
  import opened JsText

  // ---------------------------------------------------------------------------
  // The message file
  // ---------------------------------------------------------------------------

  /** What the parser keeps of a line: non-empty, one line, no white space at either end. */
  predicate IsMessage(m: string) {
    m != [] && '\n' !in m && IsTrimmed(m)
  }

  /** The trimmed lines that are not empty, in order. */
  function TrimmedLines(lines: seq<string>): (r: seq<string>)
    requires forall i :: 0 <= i < |lines| ==> '\n' !in lines[i]
    ensures |r| <= |lines|
  {
    if lines == [] then []
    else
      var t := Trim(lines[0]);
      (if t == [] then [] else [t]) + TrimmedLines(lines[1..])
  }

  /** `content.split('\n').map(l => l.trim()).filter(l => l.length > 0)`. */
  function ParseMessageFile(content: string): seq<string> {
    TrimmedLines(SplitLines(content))
  }

  /** Every kept line is a message: one line, not empty, trimmed. */
  lemma {:induction false} TrimmedLinesAreMessages(lines: seq<string>)
    requires forall i :: 0 <= i < |lines| ==> '\n' !in lines[i]
    ensures forall i :: 0 <= i < |TrimmedLines(lines)| ==> IsMessage(TrimmedLines(lines)[i])
  {
    if lines != [] {
      TrimChars(lines[0]);
      TrimFacts(lines[0]);
      TrimmedLinesAreMessages(lines[1..]);
      var t := Trim(lines[0]);
      assert '\n' !in t;
    }
  }

  /** The parser yields messages only, and at most one per line of the file. */
  lemma ParseMessageFileMessages(content: string)
    ensures |ParseMessageFile(content)| <= |SplitLines(content)|
    ensures forall i :: 0 <= i < |ParseMessageFile(content)| ==> IsMessage(ParseMessageFile(content)[i])
  {
    TrimmedLinesAreMessages(SplitLines(content));
  }

  lemma {:induction false} TrimmedLinesOfMessages(ms: seq<string>)
    requires forall i :: 0 <= i < |ms| ==> IsMessage(ms[i])
    requires forall i :: 0 <= i < |ms| ==> '\n' !in ms[i]
    ensures TrimmedLines(ms) == ms
  {
    if ms != [] {
      TrimOfTrimmed(ms[0]);
      TrimmedLinesOfMessages(ms[1..]);
      assert [ms[0]] + ms[1..] == ms;
    }
  }

  /** Writing messages one per line and parsing the file gives the messages back. */
  lemma ParseMessageFileRoundTrip(ms: seq<string>)
    requires forall i :: 0 <= i < |ms| ==> IsMessage(ms[i])
    ensures ParseMessageFile(JoinLines(ms)) == ms
  {
    if ms == [] {
      assert SplitLines("") == [""];
      assert Trim("") == [];
    } else {
      SplitJoinLines(ms);
      TrimmedLinesOfMessages(ms);
    }
  }

  // ---------------------------------------------------------------------------
  // Destination and text of a dispatch
  // ---------------------------------------------------------------------------

  /** `s.includes(p)`. */
  predicate Includes(s: string, p: string)
    decreases |s|
  {
    |p| <= |s| && (s[..|p|] == p || Includes(s[1..], p))
  }

  /** `p` occurs in `s` starting at position `i`. */
  predicate OccursAt(s: string, p: string, i: int) {
    0 <= i && i + |p| <= |s| && s[i..i + |p|] == p
  }

  /** `Includes` agrees with the definition by position: `p` occurs somewhere in `s`. */
  lemma {:induction false} IncludesIffOccurs(s: string, p: string)
    ensures Includes(s, p) <==> exists i :: OccursAt(s, p, i)
    decreases |s|
  {
    if |p| <= |s| {
      if s[..|p|] == p {
        assert OccursAt(s, p, 0);
      } else {
        IncludesIffOccurs(s[1..], p);
        if Includes(s, p) {
          var i :| OccursAt(s[1..], p, i);
          assert s[1..][i..i + |p|] == s[i + 1..i + 1 + |p|];
          assert OccursAt(s, p, i + 1);
        } else {
          forall i | 0 <= i && i + |p| <= |s| ensures !OccursAt(s, p, i) {
            if i > 0 {
              assert s[1..][i - 1..i - 1 + |p|] == s[i..i + |p|];
              assert !OccursAt(s[1..], p, i - 1);
            }
          }
        }
      }
    } else {
      forall i | OccursAt(s, p, i) ensures false { }
    }
  }

  const GroupMarker := "@g.us"
  const DirectSuffix := "@s.whatsapp.net"

  /** The chat id a message is sent to: a target that mentions "@g.us" is a group id and is used
      as it is; anything else is a phone number and gets the direct-chat suffix. */
  function ChatId(target: string): (r: string)
    ensures |r| >= |target| && r[..|target|] == target
    ensures r == target <==> Includes(target, GroupMarker)
    ensures r != target ==> r[|target|..] == DirectSuffix
  {
    if Includes(target, GroupMarker) then target else target + DirectSuffix
  }

  /** How a JavaScript template literal renders an optional string. */
  function Rendered(s: Option<string>): string {
    if s.Some? then s.value else "undefined"
  }

  /** `queue.messages[queue.currentIndex]`, which is `undefined` past the end of the list. */
  function MessageAt(messages: seq<string>, index: nat): Option<string> {
    if index < |messages| then Some(messages[index]) else None
  }

  /** The text of a dispatch: the name (the `hatersName` field), one space, then the current message. */
  function MessageText(name: Option<string>, message: Option<string>): string {
    Rendered(name) + " " + Rendered(message)
  }

  // ---------------------------------------------------------------------------
  // The dispatch interval
  // ---------------------------------------------------------------------------

  /** `parseInt(speed) || 5`: the speed in seconds, where an absent speed is the string
      "undefined". NaN and 0 fall back to 5; a negative number is kept. */
  function DispatchSeconds(speed: Option<string>): (sec: int)
    ensures sec != 0
  {
    var p := ParseInt(Rendered(speed));
    if p.None? || p.value == 0 then 5 else p.value
  }

  /** The delay between two ticks, in milliseconds. */
  function DispatchInterval(speed: Option<string>): int {
    DispatchSeconds(speed) * 1000
  }

  /** A speed written as a number of seconds gives that many seconds; 0 gives 5 seconds. */
  lemma DispatchIntervalOfSeconds(n: nat)
    ensures DispatchInterval(Some(Decimal(n))) == (if n == 0 then 5000 else n * 1000)
  {
    ParseIntDecimal(n, []);
    assert Decimal(n) + [] == Decimal(n);
  }

  /** A negative speed is not clamped: the interval is negative too. */
  lemma DispatchIntervalNegative(n: nat)
    requires n > 0
    ensures DispatchInterval(Some("-" + Decimal(n))) == -(n as int) * 1000
  {
    ParseIntNegative(n);
  }

  /** Without a speed, or with one that has no digit at all, the interval is 5 seconds. */
  lemma DispatchIntervalDefault(speed: Option<string>)
    requires speed.Some? ==> forall i :: 0 <= i < |speed.value| ==> !IsAsciiDigit(speed.value[i])
    ensures DispatchInterval(speed) == 5000
  {
    var s := Rendered(speed);
    assert forall i :: 0 <= i < |s| ==> !IsAsciiDigit(s[i]);
    assert ParseInt(s).None?;
  }

  // ---------------------------------------------------------------------------
  // The cyclic cursor
  // ---------------------------------------------------------------------------

  /** The cursor after a delivered message: `currentIndex++`, back to 0 once it reaches the length. */
  function NextIndex(i: nat, len: nat): (j: nat)
    ensures j == 0 || j < len
    ensures i < len ==> j == (i + 1) % len
  {
    if i + 1 >= len then 0 else i + 1
  }

  /** The cursor after `n` delivered messages. */
  function IndexAfter(i: nat, len: nat, n: nat): nat {
    if n == 0 then i else NextIndex(IndexAfter(i, len, n - 1), len)
  }

  /** Position `k` counted round a list of length `len`: the remainder of `k` by `len`. */
  function Wrap(k: nat, len: nat): (r: nat)
    requires len > 0
    ensures r < len
  {
    if k < len then k else Wrap(k - len, len)
  }

  /** `q` full rounds and `r` more places end at `r`. */
  lemma {:induction false} WrapRounds(q: nat, r: nat, len: nat)
    requires r < len
    ensures Wrap(q * len + r, len) == r
  {
    if q > 0 {
      assert q * len + r - len == (q - 1) * len + r;
      WrapRounds(q - 1, r, len);
    }
  }

  /** `Wrap` is the remainder `%` of the source's cursor arithmetic. */
  lemma WrapIsMod(k: nat, len: nat)
    requires len > 0
    ensures Wrap(k, len) == k % len
  {
    assert k == (k / len) * len + k % len;
    WrapRounds(k / len, k % len, len);
  }

  lemma {:induction false} WrapSucc(a: nat, len: nat)
    requires len > 0
    ensures NextIndex(Wrap(a, len), len) == Wrap(a + 1, len)
  {
    if a >= len {
      WrapSucc(a - len, len);
    } else if a + 1 == len {
      assert Wrap(a + 1, len) == Wrap(0, len);
    }
  }

  /** The cursor moves round the list: after `n` deliveries it is `n` places on, wrapped at the length. */
  lemma {:induction false} IndexAfterWraps(i: nat, len: nat, n: nat)
    requires i < len
    ensures IndexAfter(i, len, n) == Wrap(i + n, len)
  {
    if n > 0 {
      IndexAfterWraps(i, len, n - 1);
      WrapSucc(i + n - 1, len);
    }
  }

  /** After as many deliveries as there are messages the cursor is back where it started. */
  lemma FullCycleReturns(i: nat, len: nat)
    requires i < len
    ensures IndexAfter(i, len, len) == i
  {
    IndexAfterWraps(i, len, len);
    assert Wrap(i + len, len) == Wrap(i, len);
  }

  /** From a fresh queue, the text sent after k deliveries carries message k wrapped at the
      length: with [m0, m1, m2] the fourth text is the name and m0 again. */
  lemma CyclicText(name: Option<string>, messages: seq<string>, k: nat)
    requires messages != []
    ensures MessageText(name, MessageAt(messages, IndexAfter(0, |messages|, k)))
         == Rendered(name) + " " + messages[Wrap(k, |messages|)]
  {
    IndexAfterWraps(0, |messages|, k);
  }

  /** With an empty message list the cursor stays at 0 and every text ends in "undefined". */
  lemma EmptyListSendsUndefined(name: Option<string>, n: nat)
    ensures IndexAfter(0, 0, n) == 0
    ensures MessageText(name, MessageAt([], IndexAfter(0, 0, n))) == Rendered(name) + " undefined"
  {
    if n > 0 {
      EmptyListSendsUndefined(name, n - 1);
    }
  }

  /** The in-memory queue of a running campaign: its own copy of the messages, the cursor,
      and the flag that keeps a second send from starting while one is in flight. */
  class MessageQueue {
    const messages: seq<string>
    var currentIndex: nat
    var isSending: bool

    /** The cursor stays on a message of the list (or at 0 for an empty list). */
    ghost predicate Valid()
      reads this
    {
      currentIndex == 0 || currentIndex < |messages|
    }

    constructor (messages: seq<string>)
      ensures Valid()
      ensures this.messages == messages && currentIndex == 0 && !isSending
    {
      this.messages := messages;
      currentIndex := 0;
      isSending := false;
    }

    /** The message under the cursor. */
    function Current(): Option<string>
      reads this
    {
      MessageAt(messages, currentIndex)
    }

    /** The step taken after a delivered message. */
    method Advance()
      modifies this
      ensures Valid()
      ensures currentIndex == NextIndex(old(currentIndex), |messages|)
      ensures isSending == old(isSending)
    {
      currentIndex := currentIndex + 1;
      if currentIndex >= |messages| {
        currentIndex := 0;
      }
    }
  }
}
