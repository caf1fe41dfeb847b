/** The login inputs: the phone number a pairing request is made for, and the
    pairing code as it is shown to the person linking the device. */
module Pairing {

  import opened Wrappers
  import opened JsText

  /** The phone number the login route accepts: a missing or empty number is refused,
      anything else is reduced to its digits (which may leave nothing). */
  function LoginPhone(raw: Option<string>): (r: Option<string>)
    ensures r.None? <==> raw.None? || raw.value == []
    ensures r.Some? ==> |r.value| <= |raw.value|
    ensures r.Some? ==> forall i :: 0 <= i < |r.value| ==> IsAsciiDigit(r.value[i])
    ensures r.Some? && (forall i :: 0 <= i < |raw.value| ==> IsAsciiDigit(raw.value[i])) ==> r.value == raw.value
    ensures r.Some? ==> forall i :: 0 <= i < |raw.value| ==>
      r.value == DigitsOnly(raw.value[..i]) + (if IsAsciiDigit(raw.value[i]) then [raw.value[i]] else []) + DigitsOnly(raw.value[i + 1..])
  {
    if raw.None? || raw.value == [] then None
    else
      DigitsOnlyEverywhere(raw.value);
      Some(DigitsOnly(raw.value))
  }

  /** `code?.match(/.{1,4}/g)?.join('-') || code`: the code cut into groups of up to four
      characters joined by dashes; a code the pattern does not match at all (empty, or only
      line terminators) is returned as it is. */
  function FormatPairingCode(code: string): string {
    var groups := Chunks(code);
    if groups == [] then code else JoinDash(groups)
  }

  /** A plain code (no line terminators) is shown as its groups of four, only the last
      possibly shorter, and the groups put together give the code back. */
  lemma PairingCodeGroups(code: string)
    requires code != []
    requires forall i :: 0 <= i < |code| ==> !IsLineTerminator(code[i])
    ensures var groups := Chunks(code);
      && FormatPairingCode(code) == JoinDash(groups)
      && Concat(groups) == code
      && |groups| == (|code| + 3) / 4
      && (forall i :: 0 <= i < |groups| - 1 ==> |groups[i]| == 4)
      && 1 <= |groups[|groups| - 1]| <= 4
  {
    ChunksOfPlain(code);
  }

  /** Removing the dashes from the shown code gives back a plain code without dashes. */
  lemma PairingCodeRoundTrip(code: string)
    requires forall i :: 0 <= i < |code| ==> !IsLineTerminator(code[i])
    requires '-' !in code
    ensures WithoutDashes(FormatPairingCode(code)) == code
  {
    ChunksOfPlain(code);
    WithoutDashesOfPlain(code);
    if code != [] {
      WithoutDashesJoin(Chunks(code));
    }
  }

  /** The shown code is one character longer per group boundary. */
  lemma PairingCodeLength(code: string)
    requires code != []
    requires forall i :: 0 <= i < |code| ==> !IsLineTerminator(code[i])
    ensures |FormatPairingCode(code)| == |code| + (|code| + 3) / 4 - 1
  {
    ChunksOfPlain(code);
    JoinDashLength(Chunks(code));
  }

  lemma {:induction false} JoinDashLength(parts: seq<string>)
    requires parts != []
    ensures |JoinDash(parts)| == |Concat(parts)| + |parts| - 1
  {
    if |parts| == 1 {
      assert parts[1..] == [];
      assert Concat(parts) == parts[0] + "" == parts[0];
    } else {
      JoinDashLength(parts[1..]);
    }
  }

  /** An eight-character code, the usual length, is shown as two groups of four. */
  lemma EightCharacterCode(code: string)
    requires |code| == 8
    requires forall i :: 0 <= i < |code| ==> !IsLineTerminator(code[i])
    ensures FormatPairingCode(code) == code[..4] + "-" + code[4..]
  {
    var rest := code[4..];
    assert !IsLineTerminator(code[0]) && !IsLineTerminator(rest[0]);
    assert RunUpTo(code, 4) == 4;
    assert RunUpTo(rest, 4) == 4;
    assert rest[4..] == [];
    assert rest[..4] == rest;
    assert Chunks(rest) == [rest];
    var groups := [code[..4], rest];
    assert Chunks(code) == groups;
    assert groups[1..] == [rest];
    assert JoinDash(groups) == code[..4] + "-" + JoinDash([rest]);
  }

  /** An empty code stays empty. */
  lemma EmptyCodeUnchanged()
    ensures FormatPairingCode("") == ""
  {
  }
}
