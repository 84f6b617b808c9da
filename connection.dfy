/** Session-level pieces that do not touch the dialogue: the fixed Telnet option
    replies and the human-readable connection name. */
module Connection {
  import opened Text

  // Telnet command and option codes (section 3 of RFC 854, RFC 857, RFC 1091)
  const IAC: bv8 := 255
  const DO: bv8 := 253
  const WILL: bv8 := 251
  const SB: bv8 := 250
  const SE: bv8 := 240
  const ECHO: bv8 := 1
  const TTYPE: bv8 := 24
  /** The `IS` code of a TERMINAL-TYPE sub-negotiation (section 2 of RFC 1091). */
  const IS: bv8 := 0

  /** "VT100" in ASCII. */
  const VT100: seq<bv8> := [0x56, 0x54, 0x31, 0x30, 0x30]

  /** `__process_options`: the bytes sent back for one negotiation callback. */
  function OptionReply(cmd: bv8, opt: bv8): (reply: seq<bv8>)
    ensures reply == [] || reply[0] == IAC
    ensures cmd == WILL && opt == ECHO ==> reply == [IAC, DO, ECHO]
    ensures cmd == DO && opt == TTYPE ==> reply == [IAC, WILL, TTYPE]
    ensures cmd == SE ==> reply == []
    ensures cmd != SB && !(cmd == WILL && opt == ECHO) && !(cmd == DO && opt == TTYPE) ==> reply == []
  {
    if cmd == WILL && opt == ECHO then [IAC, DO, opt]
    else if cmd == DO && opt == TTYPE then [IAC, WILL, TTYPE]
    else if cmd == SB then [IAC, SB, TTYPE, IS] + VT100 + [IS, IAC, SE]
    else []
  }

  /** The terminal type carried by a TERMINAL-TYPE IS sub-negotiation
      `IAC SB TERMINAL-TYPE IS <type> IAC SE`, if `b` has that frame. */
  function TerminalTypeIs(b: seq<bv8>): Option<seq<bv8>> {
    if |b| >= 6 && b[..4] == [IAC, SB, TTYPE, IS] && b[|b| - 2..] == [IAC, SE]
    then Some(b[4..|b| - 2]) else None
  }

  /** The sub-negotiation reply is a well-framed TERMINAL-TYPE IS message with no
      unescaped IAC inside, but the type it declares is "VT100" followed by a NUL. */
  lemma SubnegotiationReply(opt: bv8)
    ensures TerminalTypeIs(OptionReply(SB, opt)) == Some(VT100 + [0])
    ensures IAC !in VT100 + [0]
  {
    var r := OptionReply(SB, opt);
    assert r[..4] == [IAC, SB, TTYPE, IS];
    assert r[|r| - 2..] == [IAC, SE];
    assert r[4..|r| - 2] == VT100 + [0];
  }

  /** The only requests answered are the two the session agrees to and the
      sub-negotiation; every answer to WILL/DO is a three-byte command. */
  lemma RepliesAnswerOnlyAgreedOptions(cmd: bv8, opt: bv8)
    ensures |OptionReply(cmd, opt)| == 3 ==>
      (cmd == WILL && opt == ECHO) || (cmd == DO && opt == TTYPE)
    ensures OptionReply(cmd, opt) != [] ==>
      cmd == SB || (cmd == WILL && opt == ECHO) || (cmd == DO && opt == TTYPE)
  {
  }

  function DigitChar(d: nat): (c: char)
    requires d < 10
    ensures '0' <= c <= '9'
  {
    "0123456789"[d]
  }

  /** Decimal digits of a natural number (Python `str` for non-negative ints). */
  function Digits(n: nat): (s: string)
    ensures s != []
    ensures forall i :: 0 <= i < |s| ==> '0' <= s[i] <= '9'
    decreases n
  {
    if n < 10 then [DigitChar(n)] else Digits(n / 10) + [DigitChar(n % 10)]
  }

  /** Reading decimal digits back, the partner of `Digits`. */
  function ParseDigits(s: string): nat
    requires forall i :: 0 <= i < |s| ==> '0' <= s[i] <= '9'
  {
    if s == [] then 0
    else ParseDigits(s[..|s| - 1]) * 10 + (s[|s| - 1] as int - '0' as int)
  }

  lemma {:induction false} DigitsRoundTrip(n: nat)
    ensures ParseDigits(Digits(n)) == n
    decreases n
  {
    var s := Digits(n);
    if n >= 10 {
      DigitsRoundTrip(n / 10);
      assert s[..|s| - 1] == Digits(n / 10);
    }
    assert "0123456789"[n % 10] as int - '0' as int == n % 10;
  }

  /** Python `str(n)` for any int. */
  function IntText(n: int): (s: string)
    ensures n < 0 <==> StartsWith(s, "-")
  {
    if n < 0 then "-" + Digits(-n) else Digits(n)
  }

  /** Python's rendering of an optional address: `None` or the text itself. */
  function IpText(ip: Option<string>): string {
    match ip
    case None => "None"
    case Some(a) => a
  }

  /** The layout `name()` promises: `TCP <login>@<ip>, ` then the port, `, `, the
      timeout, and the ending: `,` without TCP_NODELAY, `TCP_NODELAY` (with no
      separator) with it. */
  predicate NameLayout(s: string, login: string, ip: Option<string>, port: int, timeout: int, tcpNodelay: bool) {
    var head := "TCP " + login + "@" + IpText(ip) + ", ";
    var p := IntText(port);
    var t := IntText(timeout);
    var k := |head| + |p|;
    && |s| >= k + 2 + |t|
    && StartsWith(s, head)
    && s[|head|..k] == p
    && s[k..k + 2] == ", "
    && s[k + 2..k + 2 + |t|] == t
    && s[k + 2 + |t|..] == (if tcpNodelay then "TCP_NODELAY" else ",")
  }

  /** `name()` for the given settings. */
  function Name(login: string, ip: Option<string>, port: int, timeout: int, tcpNodelay: bool): (s: string)
    ensures NameLayout(s, login, ip, port, timeout, tcpNodelay)
    ensures !tcpNodelay <==> s[|s| - 1] == ','
  {
    var head := "TCP " + login + "@" + IpText(ip) + ", ";
    var p := IntText(port);
    var t := IntText(timeout);
    var end := if !tcpNodelay then "," else "TCP_NODELAY";
    var s := head + p + ", " + t + end;
    FiveParts(head, p, ", ", t, end);
    s
  }

  /** Each of five consecutive parts is found back at its offset. */
  lemma FiveParts<T>(a: seq<T>, b: seq<T>, c: seq<T>, d: seq<T>, e: seq<T>)
    ensures var s := a + b + c + d + e;
      var k := |a| + |b|;
      && s[..|a|] == a
      && s[|a|..k] == b
      && s[k..k + |c|] == c
      && s[k + |c|..k + |c| + |d|] == d
      && s[k + |c| + |d|..] == e
  {
  }

  /** The longest run of decimal digits at the start of `s`. */
  function DigitRun(s: string): (r: string)
    ensures StartsWith(s, r)
    ensures forall i :: 0 <= i < |r| ==> '0' <= r[i] <= '9'
    ensures |r| < |s| ==> !('0' <= s[|r|] <= '9')
  {
    if s != [] && '0' <= s[0] <= '9' then [s[0]] + DigitRun(s[1..]) else []
  }

  /** A digit run ends where the digits do. */
  lemma {:induction false} DigitRunOf(d: string, rest: string)
    requires forall i :: 0 <= i < |d| ==> '0' <= d[i] <= '9'
    requires rest != [] && !('0' <= rest[0] <= '9')
    ensures DigitRun(d + rest) == d
  {
    if d != [] {
      assert (d + rest)[1..] == d[1..] + rest;
      DigitRunOf(d[1..], rest);
    } else {
      assert (d + rest)[0] == rest[0];
    }
  }

  /** A number's digits followed by a non-digit read back as the number. */
  lemma FieldReadsBack(x: string, n: nat, rest: string)
    requires x == Digits(n) + rest && rest != [] && !('0' <= rest[0] <= '9')
    ensures DigitRun(x) == Digits(n) && ParseDigits(DigitRun(x)) == n
  {
    DigitRunOf(Digits(n), rest);
    DigitsRoundTrip(n);
  }

  /** Two number fields separated by `, ` and ended by a non-digit read back as
      the numbers. */
  lemma TwoFieldsReadBack(x: string, port: nat, timeout: nat, end: string)
    requires x == Digits(port) + ", " + Digits(timeout) + end
    requires end != [] && !('0' <= end[0] <= '9')
    ensures var f := DigitRun(x);
      && ParseDigits(f) == port
      && |f| + 2 <= |x|
      && ParseDigits(DigitRun(x[|f| + 2..])) == timeout
  {
    var p := Digits(port);
    var t := Digits(timeout);
    assert DigitRun(x) == p by {
      var rest := ", " + t + end;
      AppendAssoc(p, ", ", t);
      AppendAssoc(p, ", " + t, end);
      assert rest[0] == ',';
      FieldReadsBack(x, port, rest);
    }
    assert DigitRun(x[|p| + 2..]) == t by {
      AppendAssoc(p + ", ", t, end);
      DropFront(p + ", ", t + end);
      FieldReadsBack(x[|p| + 2..], timeout, end);
    }
    DigitsRoundTrip(port);
    DigitsRoundTrip(timeout);
  }

  /** The port and timeout fields of `name()` read back as the settings: after the
      `TCP <login>@<ip>, ` head, the first digit run is the port and the digit run
      after the following `, ` is the timeout. */
  lemma NameReadsBack(login: string, ip: Option<string>, port: nat, timeout: nat, tcpNodelay: bool)
    ensures var s := Name(login, ip, port, timeout, tcpNodelay);
      var head := "TCP " + login + "@" + IpText(ip) + ", ";
      && StartsWith(s, head)
      && var fields := s[|head|..];
         var f := DigitRun(fields);
         && ParseDigits(f) == port
         && |f| + 2 <= |fields|
         && ParseDigits(DigitRun(fields[|f| + 2..])) == timeout
  {
    var s := Name(login, ip, port, timeout, tcpNodelay);
    var head := "TCP " + login + "@" + IpText(ip) + ", ";
    var end := if !tcpNodelay then "," else "TCP_NODELAY";
    var x := Digits(port) + ", " + Digits(timeout) + end;
    assert s == head + x by {
      assert IntText(port) == Digits(port) && IntText(timeout) == Digits(timeout);
      AppendAssoc5(head, Digits(port), ", ", Digits(timeout), end);
    }
    DropFront(head, x);
    TwoFieldsReadBack(x, port, timeout, end);
  }
}
