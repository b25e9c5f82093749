/**
 The hand-off messages between the two daemons: a line of text, printed by one side and
 scanned by the other.
 */
module Messaging {
  import opened Samples
  import opened Decimal
  import opened CStrings

  const MSG_SIZE: nat := 512
  const NAME_SIZE: nat := 256
  /** The queue takes messages of at most the size of the message structure: three numbers of four
      bytes and the name. */
  const QUEUE_LIMIT: nat := 12 + NAME_SIZE

  datatype TextMessage = TextMessage(agent: uint32, timestamp: uint32, filename: string, kind: uint32)

  /** What fits into the file name field of a message. */
  predicate NameFits(name: string) {
    |name| < NAME_SIZE && NoNul(name)
  }

  // ----- printing -----

  /** `%i` prints an unsigned number as the signed one with the same bits. */
  function Signed(x: uint32): (s: string)
    ensures |s| > 0 && !IsSpace(s[0])
  {
    var digits := Dec(if x < 0x8000_0000 then x else TWO_32 - x);
    assert IsDigit(digits[0]);
    if x < 0x8000_0000 then digits else "-" + digits
  }

  function Printed(m: TextMessage): string {
    Dec(m.agent) + (" " + (Dec(m.timestamp) + (" " + (m.filename + (" " + Signed(m.kind))))))
  }

  // ----- scanning -----

  predicate IsSpace(c: char) {
    c == ' ' || 9 <= c as int <= 13
  }

  /** No character of the string is a space or one of the control characters from tab (9) to
      carriage return (13), written out for the statements below. */
  predicate NoSpace(s: string) {
    forall i :: 0 <= i < |s| ==> s[i] != ' ' && (s[i] as int < 9 || 13 < s[i] as int)
  }

  function SkipSpaces(s: string): (r: string)
    ensures r == [] || !IsSpace(r[0])
  {
    if s == [] || !IsSpace(s[0]) then s else SkipSpaces(s[1..])
  }

  function ScanDigits(s: string, negative: bool): Option<(uint32, string)> {
    var k := DigitRun(s);
    if k == 0 then None
    else
      DigitRunDigits(s);
      var v: int := Value(s[..k]);
      Some(((if negative then -v else v) % TWO_32, s[k..]))
  }

  /** `%u`, for numbers of up to 64 bits: the longest run of digits, negated after a minus sign. */
  function ScanUnsigned(s: string): Option<(uint32, string)> {
    var t := SkipSpaces(s);
    if t != [] && t[0] == '-' then ScanDigits(t[1..], true)
    else if t != [] && t[0] == '+' then ScanDigits(t[1..], false)
    else ScanDigits(t, false)
  }

  function TokenRun(s: string): (k: nat)
    ensures k <= |s|
  {
    if s == [] || IsSpace(s[0]) then 0 else 1 + TokenRun(s[1..])
  }

  /** `%s`: the longest run without white space. */
  function ScanToken(s: string): Option<(string, string)> {
    var t := SkipSpaces(s);
    var k := TokenRun(t);
    if k == 0 then None else Some((t[..k], t[k..]))
  }

  /** What the receiver makes of a line; nothing if a field is missing. */
  function Scanned(s: string): Option<TextMessage> {
    match ScanUnsigned(s)
    case None => None
    case Some((agent, s1)) =>
      match ScanUnsigned(s1)
      case None => None
      case Some((timestamp, s2)) =>
        match ScanToken(s2)
        case None => None
        case Some((filename, s3)) =>
          match ScanUnsigned(s3)
          case None => None
          case Some((kind, _)) => Some(TextMessage(agent, timestamp, filename, kind))
  }

  // ----- the round trip -----

  lemma SpaceSkipped(s: string)
    requires s == [] || !IsSpace(s[0])
    ensures SkipSpaces(s) == s && SkipSpaces(" " + s) == s
  {
    assert (" " + s)[1..] == s;
  }

  lemma DigitsScanned(v: nat, negative: bool, rest: string)
    requires rest == [] || !IsDigit(rest[0])
    ensures ScanDigits(Dec(v) + rest, negative) == Some(((if negative then -(v as int) else v) % TWO_32, rest))
  {
    var s := Dec(v) + rest;
    DigitRunStops(Dec(v), rest);
    ValueOfDec(v);
    assert s[..|Dec(v)|] == Dec(v) && s[|Dec(v)|..] == rest;
  }

  lemma NumberScanned(n: uint32, rest: string)
    requires rest == [] || !IsDigit(rest[0])
    ensures ScanUnsigned(Dec(n) + rest) == Some((n, rest))
    ensures ScanUnsigned(" " + (Dec(n) + rest)) == Some((n, rest))
  {
    hide ScanDigits, SkipSpaces, Dec;
    var s := Dec(n) + rest;
    assert s[0] == Dec(n)[0] && IsDigit(Dec(n)[0]);
    SpaceSkipped(s);
    DigitsScanned(n, false, rest);
  }

  lemma SignedScanned(n: uint32)
    ensures ScanUnsigned(" " + Signed(n)) == Some((n, ""))
  {
    hide ScanDigits, SkipSpaces, Dec;
    SpaceSkipped(Signed(n));
    if n < 0x8000_0000 {
      NumberScanned(n, "");
      assert Dec(n) + "" == Dec(n);
    } else {
      var v: int := TWO_32 - n;
      DigitsScanned(v, true, "");
      assert Signed(n)[1..] == Dec(v) + "";
    }
  }

  lemma {:induction false} TokenRunStops(s: string, rest: string)
    requires NoSpace(s) && (rest == [] || IsSpace(rest[0]))
    ensures TokenRun(s + rest) == |s|
  {
    if s == [] {
      assert s + rest == rest;
    } else {
      assert (s + rest)[1..] == s[1..] + rest;
      TokenRunStops(s[1..], rest);
    }
  }

  lemma TokenScanned(s: string, rest: string)
    requires s != [] && NoSpace(s) && (rest == [] || IsSpace(rest[0]))
    ensures ScanToken(" " + (s + rest)) == Some((s, rest))
  {
    SpaceSkipped(s + rest);
    TokenRunStops(s, rest);
    assert (s + rest)[..|s|] == s && (s + rest)[|s|..] == rest;
  }

  lemma {:induction false} TokenRunNoSpace(s: string)
    ensures NoSpace(s[..TokenRun(s)])
  {
    if s != [] && !IsSpace(s[0]) {
      TokenRunNoSpace(s[1..]);
      assert s[..TokenRun(s)] == [s[0]] + s[1..][..TokenRun(s[1..])];
    }
  }

  /** Whatever comes in, a scanned name is not empty and has no white space. */
  lemma ScannedNameIsToken(s: string)
    ensures Scanned(s).Some? ==> Scanned(s).value.filename != [] && NoSpace(Scanned(s).value.filename)
  {
    hide ScanUnsigned, SkipSpaces;
    forall t: string ensures ScanToken(t).Some? ==> ScanToken(t).value.0 != [] && NoSpace(ScanToken(t).value.0) {
      TokenRunNoSpace(SkipSpaces(t));
    }
  }

  /** The receiver gets every field back, for any 32-bit numbers, exactly if the file name is
      not empty and has no white space. */
  lemma RoundTripIff(m: TextMessage)
    ensures Scanned(Printed(m)) == Some(m) <==> m.filename != [] && NoSpace(m.filename)
  {
    hide ScanUnsigned, ScanToken, NoSpace;
    if m.filename != [] && NoSpace(m.filename) {
      var s3 := " " + Signed(m.kind);
      var s2 := " " + (m.filename + s3);
      var s1 := " " + (Dec(m.timestamp) + s2);
      NumberScanned(m.agent, s1);
      NumberScanned(m.timestamp, s2);
      TokenScanned(m.filename, s3);
      SignedScanned(m.kind);
    }
    ScannedNameIsToken(Printed(m));
  }

  // ----- the queue -----

  lemma PrintedFits(m: TextMessage)
    ensures |Printed(m)| <= |m.filename| + 34
  {
    DecWidths(m.agent);
    DecWidths(m.timestamp);
    DecWidths(m.kind);
    DecWidths(TWO_32 - m.kind);
  }

  lemma PrintedNoNul(m: TextMessage)
    requires NoNul(m.filename)
    ensures NoNul(Printed(m))
  {
    forall n: nat ensures NoNul(Dec(n)) {
      forall i | 0 <= i < |Dec(n)| ensures Dec(n)[i] != NUL {
        assert IsDigit(Dec(n)[i]);
      }
    }
  }

  /** The queue after a message was sent. */
  function Sent(lines: seq<string>, m: TextMessage): seq<string> {
    if |Printed(m)| <= QUEUE_LIMIT then lines + [Printed(m)] else lines
  }

  /** A queue of lines between the daemons; it refuses a line that is too long. */
  class MessageQueue {
    var lines: seq<string>

    constructor ()
      ensures lines == []
    {
      lines := [];
    }

    method SendMsg(m: TextMessage)
      requires NameFits(m.filename)
      modifies this
      ensures lines == Sent(old(lines), m)
    {
      hide Printed;
      PrintedFits(m);
      PrintedNoNul(m);
      var msg := new char[MSG_SIZE](_ => NUL);
      var printed := Sprintf(msg, 0, Printed(m));
      TerminatedIs(msg[..], Printed(m));
      var line := Terminated(msg[..]);
      if |line| <= QUEUE_LIMIT {
        lines := lines + [line];
      }
    }

    /** Takes the oldest line. */
    method RecvMsg() returns (m: Option<TextMessage>)
      requires lines != [] && |lines[0]| < MSG_SIZE
      modifies this
      ensures m == Scanned(Terminated(old(lines)[0] + [NUL]))
      ensures lines == old(lines)[1..]
    {
      var msg := new char[MSG_SIZE](_ => NUL);
      var line := lines[0];
      lines := lines[1..];
      forall i | 0 <= i < |line| {
        msg[i] := line[i];
      }
      msg[|line|] := NUL;
      assert msg[..|line| + 1] == line + [NUL];
      m := Scanned(Terminated(msg[..|line| + 1]));
    }
  }

  /** What the receiver makes of a message that is sent: nothing if the queue refuses it. */
  function Delivered(m: TextMessage): Option<TextMessage> {
    if |Printed(m)| <= QUEUE_LIMIT then Scanned(Terminated(Printed(m) + [NUL])) else None
  }

  /** A sent message is received field by field exactly if its text is short enough for the queue
      and its name is not empty and has no white space. */
  lemma DeliveredIff(m: TextMessage)
    requires NameFits(m.filename)
    ensures Delivered(m) == Some(m) <==>
            |Printed(m)| <= 268 && m.filename != [] && NoSpace(m.filename)
  {
    hide Printed, Scanned;
    PrintedNoNul(m);
    TerminatedIs(Printed(m) + [NUL], Printed(m));
    RoundTripIff(m);
  }

  /** The limit matters: with numbers of ten digits, exactly the names of more than 244 characters make
      the text too long, although names of up to 255 fit their field. */
  lemma LongNameRefused(name: string)
    requires |name| <= 255 && NoNul(name)
    ensures var m := TextMessage(4000000000, 4000000000, name, 0);
            && NameFits(name)
            && (|name| > 244 ==> Delivered(m) == None)
            && (|name| <= 244 && name != [] && NoSpace(name) ==> Delivered(m) == Some(m))
  {
    hide Scanned, NoSpace;
    TenDigits();
    var m := TextMessage(4000000000, 4000000000, name, 0);
    assert |Dec(0)| == 1;
    assert |Printed(m)| == |name| + 24;
    DeliveredIff(m);
  }

  lemma TenDigits()
    ensures |Dec(4000000000)| == 10
  {
    assert |Dec(4)| == 1 && |Dec(40)| == 2 && |Dec(400)| == 3 && |Dec(4000)| == 4 && |Dec(40000)| == 5;
    assert |Dec(400000)| == 6 && |Dec(4000000)| == 7 && |Dec(40000000)| == 8 && |Dec(400000000)| == 9;
  }
}
