/** The legacy session class `Commu` of the older package: every payload is sent as
    a line, `command` is one write and one read, and `load` sends fixed-width slices
    of the file in a straight sequence of frames with no resolver. */
module Legacy {
  import opened Text
  import opened Transport
  import opened Blocks
  import opened LoadTransfer
  import opened Dialogue
  import Connection

  /** A slice of program text in a data frame, before `__write` adds the line end. */
  function PieceFrame(piece: string): (f: string)
    ensures |f| == |piece| + 8 && f[7..|f| - 1] == piece
  {
    "\U{02}C    0" + piece + "\U{17}"
  }

  /** The data frames of the slices, each as sent (with its line end). */
  function SentFrames(pieces: seq<string>): (ws: seq<string>)
    ensures |ws| == |pieces|
  {
    if pieces == [] then [] else [PieceFrame(pieces[0]) + "\r\n"] + SentFrames(pieces[1..])
  }

  lemma {:induction false} SentFramesAppend(pieces: seq<string>, piece: string)
    ensures SentFrames(pieces + [piece]) == SentFrames(pieces) + [PieceFrame(piece) + "\r\n"]
  {
    if pieces == [] {
      assert [] + [piece] == [piece];
      assert SentFrames([piece]) == [PieceFrame(piece) + "\r\n"] + SentFrames([]);
    } else {
      assert (pieces + [piece])[1..] == pieces[1..] + [piece];
      SentFramesAppend(pieces[1..], piece);
    }
  }

  /** Every write of the legacy `load`, in order. */
  function LoadWrites(pieces: seq<string>): seq<string> {
    ["load file\r\n", OpenFrame + "\r\n"] + SentFrames(pieces)
    + [EofFrame + "\r\n", "\r\n\r\n", EndFrame + "\r\n"]
  }

  /** The traffic of the slice loop: each data frame as sent, then the read after
      it, taken from `script`. */
  function PiecesTraffic(pieces: seq<string>, script: seq<string>): seq<string> {
    if pieces == [] then []
    else [PieceFrame(pieces[0]) + "\r\n", Head(script)] + PiecesTraffic(pieces[1..], Tail(script))
  }

  /** The traffic of the legacy `load`, which a log file that is open receives:
      every write, each followed by its read except the EOF frame. */
  function LoadTraffic(pieces: seq<string>, script: seq<string>): seq<string> {
    var rest := DropReads(Tail(Tail(script)), |pieces|);
    ["load file\r\n", Head(script), OpenFrame + "\r\n", Head(Tail(script))]
    + PiecesTraffic(pieces, Tail(Tail(script)))
    + [EofFrame + "\r\n", "\r\n\r\n", Head(rest), EndFrame + "\r\n", Head(Tail(rest))]
  }

  lemma {:induction false} PiecesTrafficAppend(pieces: seq<string>, piece: string, script: seq<string>)
    ensures PiecesTraffic(pieces + [piece], script)
         == PiecesTraffic(pieces, script) + [PieceFrame(piece) + "\r\n", Head(DropReads(script, |pieces|))]
  {
    if pieces == [] {
      assert [] + [piece] == [piece];
      assert PiecesTraffic([piece], script) == [PieceFrame(piece) + "\r\n", Head(script)] + PiecesTraffic([], Tail(script));
    } else {
      assert (pieces + [piece])[1..] == pieces[1..] + [piece];
      PiecesTrafficAppend(pieces[1..], piece, Tail(script));
      var h := [PieceFrame(pieces[0]) + "\r\n", Head(script)];
      AppendAssoc(h, PiecesTraffic(pieces[1..], Tail(script)),
                  [PieceFrame(piece) + "\r\n", Head(DropReads(script, |pieces|))]);
    }
  }

  /** The legacy load's traffic is its writes and its reads, each write followed
      by the read it waits for, except the EOF frame. */
  lemma {:induction false} PiecesTrafficHoldsWrites(pieces: seq<string>, script: seq<string>)
    ensures multiset(PiecesTraffic(pieces, script)) == multiset(SentFrames(pieces)) + multiset(ReadsOf(script, |pieces|))
  {
    if pieces != [] {
      var rest := PiecesTraffic(pieces[1..], Tail(script));
      PiecesTrafficHoldsWrites(pieces[1..], Tail(script));
      assert ReadsOf(script, |pieces|) == [Head(script)] + ReadsOf(Tail(script), |pieces[1..]|);
      WriteReadCons(PieceFrame(pieces[0]) + "\r\n", Head(script), rest,
                    SentFrames(pieces[1..]), ReadsOf(Tail(script), |pieces[1..]|));
    }
  }

  /** A write and a read in front of a traffic add one to the writes and one to
      the reads. */
  lemma WriteReadCons<T>(w: T, r: T, rest: seq<T>, ws: seq<T>, rs: seq<T>)
    requires multiset(rest) == multiset(ws) + multiset(rs)
    ensures multiset([w, r] + rest) == multiset([w] + ws) + multiset([r] + rs)
  {
    forall x
      ensures multiset([w, r] + rest)[x] == (multiset([w] + ws) + multiset([r] + rs))[x]
    {
    }
  }

  /** The program text carried by a sent data frame: what lies between the frame
      header and the trailing ETB and line end. */
  function Payload(w: string): string {
    if |w| >= 10 then w[7..|w| - 3] else ""
  }

  function Payloads(ws: seq<string>): (ps: seq<string>)
    ensures |ps| == |ws|
  {
    if ws == [] then [] else [Payload(ws[0])] + Payloads(ws[1..])
  }

  /** The payloads of the data frames are the slices themselves. */
  lemma {:induction false} PayloadsOfSentFrames(pieces: seq<string>)
    ensures Payloads(SentFrames(pieces)) == pieces
  {
    if pieces != [] {
      var w := PieceFrame(pieces[0]) + "\r\n";
      assert w[7..|w| - 3] == PieceFrame(pieces[0])[7..|PieceFrame(pieces[0])| - 1];
      PayloadsOfSentFrames(pieces[1..]);
    }
  }

  /** Joining what the data frames of the legacy `load` carry gives back the file. */
  lemma LoadFramesCarryContent(content: string)
    ensures Concat(Payloads(SentFrames(Slices(content)))) == content
  {
    var pieces := Slices(content);
    forall k | 0 <= k < |pieces|
      ensures pieces[k] != ""
    {
      if k < |pieces| - 1 {
        assert |pieces[k]| == MaxChars;
      } else {
        assert |Last(pieces)| >= 1;
      }
    }
    PayloadsOfSentFrames(pieces);
  }

  /** Two reads, then `n`, then two more: `n + 4` reads in all. */
  lemma LoadReads(script: seq<string>, n: nat)
    ensures Tail(Tail(DropReads(Tail(Tail(script)), n))) == DropReads(script, n + 4)
  {
    assert DropReads(script, n + 2) == DropReads(Tail(script), n + 1);
    assert DropReads(Tail(script), n + 1) == DropReads(Tail(Tail(script)), n);
    DropReadsStep(script, n + 2);
    DropReadsStep(script, n + 3);
  }

  /** `__prepare_content`: the qualifier is not implemented, so the content comes
      back unchanged whatever the qualifier. */
  function PrepareContent(content: string, qual: Option<string>): (r: string)
    ensures r == content
  {
    if qual.None? then content else content
  }

  class Commu {
    /** The Telnet connection; its logging flag stands for an open log file. */
    var link: Link
    var login: string
    var ip: Option<string>
    var port: int
    var timeoutValue: int
    var tcpNodelay: bool
    /** `IsConnected`: set by a successful login, cleared by `disconnect`. */
    var isConnected: bool
    /** Whether the Telnet socket is open; a write on a socket that is not open
        raises. */
    var open: bool

    /** `__init__`: store the settings and connect (`reachable` says whether the
        controller accepts the connection). */
    constructor (link: Link, login: string, ip: Option<string>, port: int, timeout: int,
                 tcpNodelay: bool, reachable: bool)
      modifies link
      ensures this.link == link && this.login == login && this.ip == ip && this.port == port
      ensures timeoutValue == timeout && this.tcpNodelay == tcpNodelay
      ensures !link.logging
      ensures isConnected == reachable && open == reachable
      ensures reachable ==> link.writes == old(link.writes) + [login + "\r\n"]
                            && link.input == Tail(Tail(old(link.input)))
      ensures !reachable ==> link.writes == old(link.writes) && link.input == old(link.input)
    {
      this.link := link;
      this.login := login;
      this.ip := ip;
      this.port := port;
      timeoutValue := timeout;
      this.tcpNodelay := tcpNodelay;
      isConnected := false;
      open := false;
      new;
      link.logging := false;
      var code := Open(reachable);
    }

    /** `__write`: every payload goes out followed by a line end. */
    method Send(data: string)
      modifies link
      ensures link.writes == old(link.writes) + [data + "\r\n"] && link.input == old(link.input)
      ensures link.logging == old(link.logging)
      ensures link.transcript == old(link.transcript) + (if link.logging then [data + "\r\n"] else [])
    {
      link.Write(data + "\r\n");
    }

    /** `__connect`: a fresh connection; on success wait for the login prompt, send
        the login name and wait for the command prompt.  A failed connection leaves
        `IsConnected` as it was. */
    method Open(reachable: bool) returns (code: int)
      modifies this`isConnected, this`open, link
      ensures code == (if reachable then 0 else -1)
      ensures reachable ==> isConnected && open
                            && link.writes == old(link.writes) + [login + "\r\n"]
                            && link.input == Tail(Tail(old(link.input)))
      ensures !reachable ==> !open && isConnected == old(isConnected)
                             && link.writes == old(link.writes) && link.input == old(link.input)
      ensures link.logging == old(link.logging)
    {
      if !reachable {
        open := false;
        return -1;
      }
      open := true;
      var prompt := link.Read();
      Send(login);
      prompt := link.Read();
      isConnected := true;
      code := 0;
    }

    /** `connect`: replace the settings and connect again. */
    method Connect(login: string, ip: Option<string>, port: int, timeout: int, tcpNodelay: bool,
                   reachable: bool) returns (code: int)
      modifies this`login, this`ip, this`port, this`timeoutValue, this`tcpNodelay,
               this`isConnected, this`open, link
      ensures this.login == login && this.ip == ip && this.port == port
      ensures timeoutValue == timeout && this.tcpNodelay == tcpNodelay
      ensures code == (if reachable then 0 else -1)
      ensures reachable ==> isConnected && open
                            && link.writes == old(link.writes) + [login + "\r\n"]
                            && link.input == Tail(Tail(old(link.input)))
      ensures !reachable ==> !open && isConnected == old(isConnected)
                             && link.writes == old(link.writes) && link.input == old(link.input)
      ensures link.logging == old(link.logging)
    {
      this.login := login;
      this.ip := ip;
      this.port := port;
      timeoutValue := timeout;
      this.tcpNodelay := tcpNodelay;
      code := Open(reachable);
    }

    /** `disconnect`: nothing to do when already disconnected; otherwise close the
        socket (`closeOk` says whether closing succeeds) and clear `IsConnected`
        only after a successful close. */
    method Disconnect(closeOk: bool) returns (ok: bool)
      modifies this`isConnected, this`open
      ensures !old(isConnected) ==> ok && !isConnected && open == old(open)
      ensures old(isConnected) && closeOk ==> ok && !isConnected && !open
      ensures old(isConnected) && !closeOk ==> !ok && isConnected && open == old(open)
    {
      if !isConnected {
        return true;
      }
      if !closeOk {
        return false;
      }
      open := false;
      isConnected := false;
      ok := true;
    }

    /** `name()` for the current settings. */
    function Name(): (s: string)
      reads this
      ensures Connection.NameLayout(s, login, ip, port, timeoutValue, tcpNodelay)
      ensures !tcpNodelay <==> s[|s| - 1] == ','
    {
      Connection.Name(login, ip, port, timeoutValue, tcpNodelay)
    }

    /** `startLog`: open the log file (`created` says whether that succeeds). */
    method StartLog(created: bool) returns (ok: bool)
      modifies link`logging
      ensures ok == created
      ensures created ==> link.logging
      ensures !created ==> link.logging == old(link.logging)
    {
      if !created {
        return false;
      }
      link.logging := true;
      ok := true;
    }

    /** `stopLog`: close the log file; with none open the close raises. */
    method StopLog() returns (ok: bool)
      modifies link`logging
      ensures ok == old(link.logging) && !link.logging
    {
      if !link.logging {
        return false;
      }
      link.logging := false;
      ok := true;
    }

    /** `command`: `(-2, "Not connected")` with no I/O when not connected; otherwise
        the command line and a single read up to the prompt. */
    method Command(cmd: string) returns (code: int, text: string)
      modifies link
      ensures !isConnected ==> code == -2 && text == "Not connected"
                               && link.writes == old(link.writes) && link.input == old(link.input)
      ensures isConnected && !open ==> code == -2 && text == "Unexpected error"
                                       && link.writes == old(link.writes) && link.input == old(link.input)
      ensures isConnected && open ==>
        && code == 0 && text == Head(old(link.input)) && link.input == Tail(old(link.input))
        && link.writes == old(link.writes) + [cmd + "\r\n"]
      ensures link.logging == old(link.logging)
      ensures link.transcript == old(link.transcript) +
        (if isConnected && open && link.logging then [cmd + "\r\n", Head(old(link.input))] else [])
    {
      if !isConnected {
        return -2, "Not connected";
      }
      if !open {
        return -2, "Unexpected error";
      }
      Send(cmd);
      text := link.Read();
      code := 0;
    }

    /** The load command and the open frame, each followed by a read. */
    method OpenLoad()
      modifies link
      ensures link.writes == old(link.writes) + ["load file\r\n", OpenFrame + "\r\n"]
      ensures link.input == Tail(Tail(old(link.input)))
      ensures link.logging == old(link.logging)
      ensures link.transcript == old(link.transcript) +
        (if link.logging
         then ["load file\r\n", Head(old(link.input)), OpenFrame + "\r\n", Head(Tail(old(link.input)))]
         else [])
    {
      ghost var w0 := link.writes;
      Send("load file");
      assert "load file" + "\r\n" == "load file\r\n";
      var response := link.Read();
      Send(OpenFrame);
      response := link.Read();
      AppendAssoc(w0, ["load file\r\n"], [OpenFrame + "\r\n"]);
      assert ["load file\r\n"] + [OpenFrame + "\r\n"] == ["load file\r\n", OpenFrame + "\r\n"];
    }

    /** The loop over the slices: each data frame is followed by one read. */
    method SendPieces(pieces: seq<string>)
      modifies link
      ensures link.writes == old(link.writes) + SentFrames(pieces)
      ensures link.input == DropReads(old(link.input), |pieces|)
      ensures link.logging == old(link.logging)
      ensures link.transcript == old(link.transcript) +
        (if link.logging then PiecesTraffic(pieces, old(link.input)) else [])
    {
      ghost var s0 := link.input;
      ghost var w0 := link.writes;
      ghost var t0 := link.transcript;
      ghost var on := link.logging;
      for i := 0 to |pieces|
        invariant link.writes == w0 + SentFrames(pieces[..i])
        invariant link.input == DropReads(s0, i)
        invariant link.logging == on
        invariant on ==> link.transcript == t0 + PiecesTraffic(pieces[..i], s0)
        invariant !on ==> link.transcript == t0
      {
        SentFramesAppend(pieces[..i], pieces[i]);
        PiecesTrafficAppend(pieces[..i], pieces[i], s0);
        assert pieces[..i + 1] == pieces[..i] + [pieces[i]];
        DropReadsStep(s0, i);
        AppendAssoc(w0, SentFrames(pieces[..i]), [PieceFrame(pieces[i]) + "\r\n"]);
        ghost var step := [PieceFrame(pieces[i]) + "\r\n", Head(link.input)];
        Send(PieceFrame(pieces[i]));
        var response := link.Read();
        if on {
          AppendAssoc(t0, PiecesTraffic(pieces[..i], s0), step);
          assert link.transcript == t0 + PiecesTraffic(pieces[..i], s0) + step;
        }
      }
      assert pieces[..|pieces|] == pieces;
    }

    /** The closing writes of the legacy `load`, with a read after the bare line end
        and after the acknowledgment frame. */
    method CloseLoad()
      modifies link
      ensures link.writes == old(link.writes) + [EofFrame + "\r\n", "\r\n\r\n", EndFrame + "\r\n"]
      ensures link.input == Tail(Tail(old(link.input)))
      ensures link.logging == old(link.logging)
      ensures link.transcript == old(link.transcript) +
        (if link.logging
         then [EofFrame + "\r\n", "\r\n\r\n", Head(old(link.input)), EndFrame + "\r\n", Head(Tail(old(link.input)))]
         else [])
    {
      ghost var w0 := link.writes;
      ghost var eof, crlf, ack := EofFrame + "\r\n", "\r\n" + "\r\n", EndFrame + "\r\n";
      assert crlf == "\r\n\r\n";
      Send(EofFrame);
      Send("\r\n");
      var response := link.Read();
      assert link.writes == (w0 + [eof]) + [crlf];
      AppendAssoc(w0, [eof], [crlf]);
      assert [eof] + [crlf] == [eof, crlf];
      Send(EndFrame);
      response := link.Read();
      AppendAssoc(w0, [eof, crlf], [ack]);
      assert [eof, crlf] + [ack] == [eof, crlf, ack];
    }

    /** `load`: -3 when not connected or when there is no file (`content` is the
        file's text, or `None`); otherwise the text is cut into slices and sent:
        the load command, the open frame, one data frame per slice, the EOF frame,
        a bare line end and the acknowledgment frame, with one read after every
        write except the EOF frame.  The qualifier is ignored. */
    method Load(content: Option<string>, qual: Option<string>) returns (code: int)
      modifies link
      ensures !isConnected || content.None? ==>
        code == -3 && link.writes == old(link.writes) && link.input == old(link.input)
      ensures isConnected && content.Some? && !open ==>
        code == -4 && link.writes == old(link.writes) && link.input == old(link.input)
      ensures isConnected && content.Some? && open ==>
        var pieces := Slices(content.value);
        && code == 0
        && link.writes == old(link.writes) + LoadWrites(pieces)
        && link.input == DropReads(old(link.input), |pieces| + 4)
      ensures link.logging == old(link.logging)
      ensures link.transcript == old(link.transcript) +
        (if isConnected && content.Some? && open && link.logging
         then LoadTraffic(Slices(content.value), old(link.input)) else [])
    {
      if !isConnected || content.None? {
        return -3;
      }
      var text := PrepareContent(content.value, qual);
      var pieces := Slices(text);
      if !open {
        return -4;
      }
      ghost var s0 := link.input;
      ghost var w0 := link.writes;
      ghost var t0 := link.transcript;
      ghost var on := link.logging;
      OpenLoad();
      ghost var l0 := if on then ["load file\r\n", Head(s0), OpenFrame + "\r\n", Head(Tail(s0))] else [];
      ghost var w1 := link.writes;
      SendPieces(pieces);
      ghost var l1 := if on then PiecesTraffic(pieces, Tail(Tail(s0))) else [];
      AppendAssoc(t0, l0, l1);
      ghost var w2 := link.writes;
      assert w2 == w0 + ["load file\r\n", OpenFrame + "\r\n"] + SentFrames(pieces);
      assert link.input == DropReads(Tail(Tail(s0)), |pieces|);
      ghost var rest := link.input;
      CloseLoad();
      ghost var l2 := if on
        then [EofFrame + "\r\n", "\r\n\r\n", Head(rest), EndFrame + "\r\n", Head(Tail(rest))] else [];
      AppendAssoc(t0, l0 + l1, l2);
      assert l0 + l1 + l2 == (if on then LoadTraffic(pieces, s0) else []);
      LoadReads(s0, |pieces|);
      AppendAssoc(w0 + ["load file\r\n", OpenFrame + "\r\n"], SentFrames(pieces),
                  [EofFrame + "\r\n", "\r\n\r\n", EndFrame + "\r\n"]);
      AppendAssoc(w0, ["load file\r\n", OpenFrame + "\r\n"], SentFrames(pieces));
      AppendAssoc(w0, ["load file\r\n", OpenFrame + "\r\n"] + SentFrames(pieces),
                  [EofFrame + "\r\n", "\r\n\r\n", EndFrame + "\r\n"]);
      code := 0;
    }
  }
}
