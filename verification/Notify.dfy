/** Parsing of NOTIFY requests that report on a REFER: the Event header, the message/sipfrag body
    and what the pair means for the transfer. Strings are ASCII. */
module Notify {
  import opened Wrappers

  const MAX_UINT32: nat := 0xffff_ffff
  const MAX_INT64: int := 0x7fff_ffff_ffff_ffff

  datatype BodyError = NotEnoughTokens | WrongVersion | BadStatus

  datatype Body = Ok(status: int, reason: string) | Err(error: BodyError)

  datatype NotifyResult =
    | Notification(cseq: nat, status: int, reason: string)
    | NoEvent
    | UnknownEvent
    | BadBody(error: BodyError)

  // ----- Library functions on strings -----

  function IndexOf(s: string, c: char): (i: nat)
    ensures i <= |s| && (i < |s| ==> s[i] == c) && c !in s[..i]
  {
    if s == "" then 0
    else if s[0] == c then 0
    else
      var i := 1 + IndexOf(s[1..], c);
      assert s[..i] == [s[0]] + s[1..][..i - 1];
      i
  }

  /** strings.SplitN with a one-character separator. */
  function SplitN(s: string, c: char, n: nat): seq<string>
    requires n >= 1
    decreases n
  {
    var i := IndexOf(s, c);
    if n == 1 || i == |s| then [s] else [s[..i]] + SplitN(s[i + 1..], c, n - 1)
  }

  function UpperChar(c: char): char {
    if 'a' <= c <= 'z' then c - 'a' + 'A' else c
  }

  function ToUpper(s: string): string {
    seq(|s|, i requires 0 <= i < |s| => UpperChar(s[i]))
  }

  function LowerChar(c: char): char {
    if 'A' <= c <= 'Z' then c - 'A' + 'a' else c
  }

  function ToLower(s: string): string {
    seq(|s|, i requires 0 <= i < |s| => LowerChar(s[i]))
  }

  predicate IsDigit(c: char) {
    '0' <= c <= '9'
  }

  predicate IsNumber(s: string) {
    s != "" && forall i :: 0 <= i < |s| ==> IsDigit(s[i])
  }

  function DigitValue(c: char): nat
    requires IsDigit(c)
  {
    c as int - '0' as int
  }

  function NumberValue(s: string): nat
    requires forall i :: 0 <= i < |s| ==> IsDigit(s[i])
  {
    if s == "" then 0 else 10 * NumberValue(s[..|s| - 1]) + DigitValue(s[|s| - 1])
  }

  /** strconv.ParseUint with 32 bits, ignoring its error: no digits read as 0, and a number out of
      range reads as the largest one. */
  function ParseUint32(s: string): nat {
    if !IsNumber(s) then 0
    else if NumberValue(s) > MAX_UINT32 then MAX_UINT32
    else NumberValue(s)
  }

  /** strconv.Atoi for 64-bit integers. */
  function Atoi(s: string): Option<int> {
    var signed := s != "" && (s[0] == '-' || s[0] == '+');
    var digits := if signed then s[1..] else s;
    if !IsNumber(digits) then None
    else
      var n: int := NumberValue(digits);
      var v := if s[0] == '-' then -n else n;
      if -MAX_INT64 - 1 <= v <= MAX_INT64 then Some(v) else None
  }

  function Digits(n: nat): string {
    if n < 10 then [n as char + '0'] else Digits(n / 10) + [(n % 10) as char + '0']
  }

  function Itoa(n: int): string {
    if n < 0 then "-" + Digits(-n) else Digits(n)
  }

  // ----- The parsers -----

  function ParseNotifyBody(body: string): Body {
    var v := SplitN(body, ' ', 3);
    if |v| < 2 then Err(NotEnoughTokens)
    else if ToUpper(v[0]) != "SIP/2.0" then Err(WrongVersion)
    else match Atoi(v[1])
         case None => Err(BadStatus)
         case Some(code) =>
           if |v| < 3 then Ok(code, "")
           else Ok(code, ReasonOf(v[2]))
  }

  /** The rest of the status line, without its line end. */
  function ReasonOf(rest: string): string {
    var i := IndexOf(rest, '\n');
    if i < |rest| then TrimCR(rest[..i]) else rest
  }

  function TrimCR(s: string): string {
    if s != "" && s[|s| - 1] == '\r' then s[..|s| - 1] else s
  }

  /** The match of ^refer(;id=(\d+))?$ on the lower-cased header: the id's digits, empty if absent. */
  function MatchRefer(event: string): Option<string> {
    var e := ToLower(event);
    if e == "refer" then Some("")
    else if |e| > 9 && e[..9] == "refer;id=" && IsNumber(e[9..]) then Some(e[9..])
    else None
  }

  /** The short header name "o" is used when there is no Event header. */
  function HandleNotify(event: Option<string>, o: Option<string>, body: string): NotifyResult {
    var header := if event.Some? then event else o;
    match header
    case None => NoEvent
    case Some(value) =>
      match MatchRefer(value)
      case None => UnknownEvent
      case Some(id) =>
        match ParseNotifyBody(body)
        case Err(error) => BadBody(error)
        case Ok(status, reason) => Notification(ParseUint32(id), status, reason)
  }

  datatype Verdict = Skip | Report(success: bool)

  /** What a notification means while the latest REFER has number referCseq. */
  function ReferVerdict(cseq: nat, status: int, referCseq: nat): Verdict {
    if cseq != 0 && cseq != referCseq then Skip
    else if 100 <= status < 200 then Skip
    else Report(status == 200)
  }

  // ----- The printers: the test client's Event header and the status line of section 7.2 of RFC 3261 -----

  function PrintEvent(cseq: nat): string {
    "refer;id=" + Digits(cseq)
  }

  function PrintStatusLine(status: int, reason: string): string {
    "SIP/2.0" + " " + Itoa(status) + " " + (reason + "\r" + "\n")
  }

  // ----- Round trips -----

  lemma {:induction false} DigitsAreANumber(n: nat)
    ensures IsNumber(Digits(n)) && NumberValue(Digits(n)) == n
  {
    if n < 10 {
      assert Digits(n)[..0] == "";
    } else {
      DigitsAreANumber(n / 10);
      assert Digits(n)[..|Digits(n)| - 1] == Digits(n / 10);
    }
  }

  lemma AtoiOfItoa(n: int)
    requires -MAX_INT64 - 1 <= n <= MAX_INT64
    ensures Atoi(Itoa(n)) == Some(n)
    ensures ' ' !in Itoa(n)
  {
    var m := if n < 0 then -n else n;
    DigitsAreANumber(m);
    assert Itoa(n) == (if n < 0 then "-" else "") + Digits(m);
    if n < 0 {
      assert Itoa(n)[1..] == Digits(m);
    } else {
      assert IsDigit(Digits(m)[0]);
    }
  }

  lemma {:induction false} IndexOfFirst(a: string, c: char, b: string)
    requires c !in a
    ensures IndexOf(a + [c] + b, c) == |a|
  {
    if a != "" {
      assert (a + [c] + b)[1..] == a[1..] + [c] + b;
      IndexOfFirst(a[1..], c, b);
    }
  }

  /** Every REFER number survives printing and parsing; a larger id reads as the largest number. */
  lemma EventRoundTrip(n: nat)
    ensures MatchRefer(PrintEvent(n)) == Some(Digits(n))
    ensures ParseUint32(Digits(n)) == if n <= MAX_UINT32 then n else MAX_UINT32
  {
    DigitsAreANumber(n);
    var e := PrintEvent(n);
    assert forall i :: 0 <= i < |e| ==> LowerChar(e[i]) == e[i] by {
      assert forall i :: 9 <= i < |e| ==> e[i] == Digits(n)[i - 9];
    }
    assert ToLower(e) == e;
    assert e[..9] == "refer;id=" && e[9..] == Digits(n);
  }

  lemma SplitsInThree(a: string, b: string, rest: string)
    requires ' ' !in a && ' ' !in b
    ensures SplitN(a + " " + b + " " + rest, ' ', 3) == [a, b, rest]
  {
    var tail := b + " " + rest;
    assert a + " " + b + " " + rest == a + [' '] + tail;
    IndexOfFirst(a, ' ', tail);
    assert (a + [' '] + tail)[..|a|] == a && (a + [' '] + tail)[|a| + 1..] == tail;
    assert tail == b + [' '] + rest;
    IndexOfFirst(b, ' ', rest);
    assert tail[..|b|] == b && tail[|b| + 1..] == rest;
    assert SplitN(rest, ' ', 1) == [rest];
    assert SplitN(tail, ' ', 2) == [b] + [rest];
  }

  lemma StatusLineParses(status: int, rest: string)
    requires -MAX_INT64 - 1 <= status <= MAX_INT64
    ensures ParseNotifyBody("SIP/2.0" + " " + Itoa(status) + " " + rest) == Ok(status, ReasonOf(rest))
  {
    AtoiOfItoa(status);
    var version := "SIP/2.0";
    assert ToUpper(version) == version;
    SplitsInThree(version, Itoa(status), rest);
  }

  lemma ReasonOfLine(line: string, suffix: string)
    requires '\n' !in line
    ensures ReasonOf(line + "\n" + suffix) == TrimCR(line)
  {
    IndexOfFirst(line, '\n', suffix);
    assert (line + "\n" + suffix)[..|line|] == line;
  }

  lemma ConcatAssociates(a: string, b: string, c: string)
    ensures a + b + c == a + (b + c)
  {}

  /** Parsing gives back exactly the code and the reason of a status line, whatever follows it. */
  lemma BodyRoundTrip(status: int, reason: string, suffix: string)
    requires -MAX_INT64 - 1 <= status <= MAX_INT64 && '\n' !in reason
    ensures ParseNotifyBody(PrintStatusLine(status, reason) + suffix) == Ok(status, reason)
  {
    var line := reason + "\r";
    StatusLineParses(status, line + "\n" + suffix);
    ReasonOfLine(line, suffix);
    assert line[..|reason|] == reason;
    ConcatAssociates("SIP/2.0" + " " + Itoa(status) + " ", line + "\n", suffix);
  }

  /** With a bare line feed the reason survives exactly when it does not end in a carriage return. */
  lemma BareLineFeedIff(status: int, reason: string, suffix: string)
    requires -MAX_INT64 - 1 <= status <= MAX_INT64 && '\n' !in reason
    ensures ParseNotifyBody("SIP/2.0" + " " + Itoa(status) + " " + (reason + "\n" + suffix)) == Ok(status, reason)
       <==> !(reason != "" && reason[|reason| - 1] == '\r')
  {
    StatusLineParses(status, reason + "\n" + suffix);
    ReasonOfLine(reason, suffix);
  }

  /** The whole NOTIFY for REFER number n, as the test client sends it. */
  lemma NotifyRoundTrip(n: nat, status: int, reason: string, suffix: string)
    requires n <= MAX_UINT32 && -MAX_INT64 - 1 <= status <= MAX_INT64 && '\n' !in reason
    ensures HandleNotify(Some(PrintEvent(n)), None, PrintStatusLine(status, reason) + suffix)
         == Notification(n, status, reason)
  {
    EventRoundTrip(n);
    BodyRoundTrip(status, reason, suffix);
  }


  // ----- Which notifications are understood -----

  /** The Event header reports on a REFER if and only if it reads refer, or refer;id= and a number, in
      any case; without an id the number is 0. */
  lemma MatchReferIff(event: string)
    ensures var e := ToLower(event);
            && (MatchRefer(event) == Some("") <==> e == "refer")
            && (forall id :: id != "" ==> (MatchRefer(event) == Some(id) <==> IsNumber(id) && e == "refer;id=" + id))
    ensures ParseUint32("") == 0
  {
    var e := ToLower(event);
    forall id | id != "" ensures MatchRefer(event) == Some(id) <==> IsNumber(id) && e == "refer;id=" + id {
      assert ("refer;id=" + id)[..9] == "refer;id=" && ("refer;id=" + id)[9..] == id;
      if MatchRefer(event) == Some(id) {
        assert e == e[..9] + e[9..];
      }
    }
  }

  lemma CaseDoesNotMatter(event: string)
    ensures MatchRefer(event) == MatchRefer(ToLower(event))
  {
    assert ToLower(ToLower(event)) == ToLower(event);
  }

  /** The short header counts only when there is no Event header. */
  lemma ShortHeaderStandsIn(value: string, o: Option<string>, body: string)
    ensures HandleNotify(None, Some(value), body) == HandleNotify(Some(value), o, body)
    ensures HandleNotify(None, None, body) == NoEvent
  {}

  /** A plain refer reports on the latest REFER. */
  lemma PlainReferHasNoNumber(status: int, reason: string, suffix: string, o: Option<string>)
    requires -MAX_INT64 - 1 <= status <= MAX_INT64 && '\n' !in reason
    ensures HandleNotify(Some("Refer"), o, PrintStatusLine(status, reason) + suffix) == Notification(0, status, reason)
  {
    assert ToLower("Refer") == "refer";
    MatchReferIff("Refer");
    BodyRoundTrip(status, reason, suffix);
  }

  /** A body without a space is not a status line; what comes before its first space must be the version,
      in any case, and what comes before the second a number. */
  lemma BodyErrorIff(version: string, code: string, rest: Option<string>)
    requires ' ' !in version && ' ' !in code
    ensures ParseNotifyBody(version) == Err(NotEnoughTokens)
    ensures var body := version + " " + code + if rest.Some? then " " + rest.value else "";
            ParseNotifyBody(body)
              == if ToUpper(version) != "SIP/2.0" then Err(WrongVersion)
                 else if Atoi(code).None? then Err(BadStatus)
                 else Ok(Atoi(code).value, if rest.Some? then ReasonOf(rest.value) else "")
  {
    SplitsWhole(version, 3);
    match rest
    case Some(r) =>
      assert version + " " + code + (" " + r) == version + " " + code + " " + r;
      SplitsInThree(version, code, r);
    case None =>
      SplitsInTwo(version, code);
      assert version + " " + code + "" == version + " " + code;
  }

  lemma SplitsWhole(a: string, n: nat)
    requires ' ' !in a && n >= 1
    ensures SplitN(a, ' ', n) == [a]
  {
    assert IndexOf(a, ' ') == |a|;
  }

  lemma SplitsInTwo(a: string, b: string)
    requires ' ' !in a && ' ' !in b
    ensures SplitN(a + " " + b, ' ', 3) == [a, b]
  {
    assert a + " " + b == a + [' '] + b;
    IndexOfFirst(a, ' ', b);
    assert (a + [' '] + b)[..|a|] == a && (a + [' '] + b)[|a| + 1..] == b;
    SplitsWhole(b, 2);
  }
}
