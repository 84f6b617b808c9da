/** The current session class `pykrcc`: connection and logging flags, and the
    `command`, `load` and `save` operations built on the shared dialogues. */
module Pykrcc {
  import opened Text
  import opened Transport
  import opened Inquiry
  import opened Dialogue
  import opened Blocks
  import opened Clean
  import opened LoadTransfer
  import opened SaveStream
  import Connection

  class Pykrcc {
    /** The Telnet connection and the log file. */
    var link: Link
    var login: string
    var ip: Option<string>
    var port: int
    var timeoutValue: int
    var tcpNodelay: bool
    /** `IsConnected`: set by a successful login, cleared by `disconnect`. */
    var isConnected: bool
    /** Whether the Telnet socket is open; a write on a socket that is not open
        raises. */
    var open: bool
    /** Whether a log file is open (`__logging_file is not None`). */
    var logOpen: bool
    var cmdInquiry: string -> Option<string>
    var asInquiry: string -> Option<string>

    /** `__init__`: store the settings, install the default resolvers, and connect
        (`reachable` says whether the controller accepts the connection). */
    constructor (link: Link, login: string, ip: Option<string>, port: int, timeout: int,
                 tcpNodelay: bool, reachable: bool)
      modifies link
      ensures this.link == link && this.login == login && this.ip == ip && this.port == port
      ensures timeoutValue == timeout && this.tcpNodelay == tcpNodelay
      ensures cmdInquiry == DefaultCmdInquiry && asInquiry == DefaultAsInquiry
      ensures !logOpen && !link.logging
      ensures isConnected == reachable && open == reachable
      ensures reachable ==> link.writes == old(link.writes) + [login + "\r\n"]
                            && link.input == Tail(Tail(old(link.input)))
      ensures !reachable ==> link.writes == old(link.writes) && link.input == old(link.input)
    {
      this.link := link;
      this.login := login;
      this.ip := ip;
      this.port := port;
      timeoutValue := timeout;
      this.tcpNodelay := tcpNodelay;
      isConnected := false;
      open := false;
      logOpen := false;
      cmdInquiry := DefaultCmdInquiry;
      asInquiry := DefaultAsInquiry;
      new;
      link.logging := false;
      var code := Open(reachable);
    }

    /** `__connect`: a fresh connection; on success wait for the login prompt, send
        the login name and wait for the command prompt.  A failed connection leaves
        `IsConnected` as it was. */
    method Open(reachable: bool) returns (code: int)
      modifies this`isConnected, this`open, link
      ensures code == (if reachable then 0 else -1)
      ensures reachable ==> isConnected && open
                            && link.writes == old(link.writes) + [login + "\r\n"]
                            && link.input == Tail(Tail(old(link.input)))
      ensures !reachable ==> !open && isConnected == old(isConnected)
                             && link.writes == old(link.writes) && link.input == old(link.input)
      ensures link.logging == old(link.logging)
      ensures !link.logging ==> link.transcript == old(link.transcript)
    {
      if !reachable {
        open := false;
        return -1;
      }
      open := true;
      var prompt := link.Read();
      link.Write(login + "\r\n");
      prompt := link.Read();
      isConnected := true;
      code := 0;
    }

    /** `connect`: replace the settings and connect again. */
    method Connect(login: string, ip: Option<string>, port: int, timeout: int, tcpNodelay: bool,
                   reachable: bool) returns (code: int)
      modifies this`login, this`ip, this`port, this`timeoutValue, this`tcpNodelay,
               this`isConnected, this`open, link
      ensures this.login == login && this.ip == ip && this.port == port
      ensures timeoutValue == timeout && this.tcpNodelay == tcpNodelay
      ensures code == (if reachable then 0 else -1)
      ensures reachable ==> isConnected && open
                            && link.writes == old(link.writes) + [login + "\r\n"]
                            && link.input == Tail(Tail(old(link.input)))
      ensures !reachable ==> !open && isConnected == old(isConnected)
                             && link.writes == old(link.writes) && link.input == old(link.input)
      ensures link.logging == old(link.logging)
    {
      this.login := login;
      this.ip := ip;
      this.port := port;
      timeoutValue := timeout;
      this.tcpNodelay := tcpNodelay;
      code := Open(reachable);
    }

    /** `disconnect`: nothing to do when already disconnected; otherwise close the
        socket (`closeOk` says whether closing succeeds) and clear `IsConnected`
        only after a successful close.  A second call after a successful one
        returns `true` and changes nothing. */
    method Disconnect(closeOk: bool) returns (ok: bool)
      modifies this`isConnected, this`open
      ensures !old(isConnected) ==> ok && !isConnected && open == old(open)
      ensures old(isConnected) && closeOk ==> ok && !isConnected && !open
      ensures old(isConnected) && !closeOk ==> !ok && isConnected && open == old(open)
    {
      if !isConnected {
        return true;
      }
      if !closeOk {
        return false;
      }
      open := false;
      isConnected := false;
      ok := true;
    }

    /** `name()` for the current settings. */
    function Name(): (s: string)
      reads this
      ensures Connection.NameLayout(s, login, ip, port, timeoutValue, tcpNodelay)
      ensures !tcpNodelay <==> s[|s| - 1] == ','
    {
      Connection.Name(login, ip, port, timeoutValue, tcpNodelay)
    }

    /** `startLog`: open the log file (`created` says whether that succeeds) and turn
        logging on. */
    method StartLog(created: bool) returns (ok: bool)
      modifies this`logOpen, link`logging
      ensures ok == created
      ensures created ==> logOpen && link.logging
      ensures !created ==> logOpen == old(logOpen) && link.logging == old(link.logging)
    {
      if !created {
        return false;
      }
      logOpen := true;
      link.logging := true;
      ok := true;
    }

    /** `stopLog`: close the log file and turn logging off; with no log file open
        the close raises and nothing changes. */
    method StopLog() returns (ok: bool)
      modifies this`logOpen, link`logging
      ensures ok == old(logOpen)
      ensures ok ==> !logOpen && !link.logging
      ensures !ok ==> !logOpen && link.logging == old(link.logging)
    {
      if !logOpen {
        return false;
      }
      logOpen := false;
      link.logging := false;
      ok := true;
    }

    /** `command`: `(-2, "Not connected")` with no I/O when not connected; otherwise
        the command exchange, returning every response read, concatenated in order.
        `fuel` bounds the rounds of the exchange (`responses` are the reads made). */
    method Command(cmd: string, fuel: nat) returns (code: int, text: string, ghost responses: seq<string>)
      modifies link
      ensures !isConnected ==> code == -2 && text == "Not connected"
                               && link.writes == old(link.writes) && link.input == old(link.input)
      ensures isConnected && !open ==> code == -2 && text == "Unexpected error"
                                       && link.writes == old(link.writes) && link.input == old(link.input)
      ensures isConnected && open ==>
        && code == 0 && text == Concat(responses)
        && 1 <= |responses| <= fuel + 1
        && responses == ReadsOf(old(link.input), |responses|)
        && link.input == DropReads(old(link.input), |responses|)
        && Answered(cmdInquiry, responses[..|responses| - 1])
        && (cmdInquiry(Last(responses)).None? || |responses| == fuel + 1)
        && link.writes == old(link.writes) + [cmd + "\r\n"] + Replies(cmdInquiry, responses[..|responses| - 1])
      ensures link.logging == old(link.logging)
      ensures link.transcript == old(link.transcript) +
        (if isConnected && open && link.logging
         then [cmd + "\r\n"] + ExchangeLog(cmdInquiry, responses) else [])
    {
      responses := [];
      if !isConnected {
        return -2, "Not connected", responses;
      }
      if !open {
        return -2, "Unexpected error", responses;
      }
      var rs, finished := CommandExchange(link, cmdInquiry, cmd, fuel);
      responses := rs;
      code, text := 0, Concat(rs);
    }

    /** `load`: -3 when not connected or when there is no file (`content` is the
        file's lines, each with its line end, or `None`); otherwise the lines are
        packed into blocks with logging off, logging is restored, and the transfer
        runs.  Logging is the same on exit as on entry; since it is restored before
        the transfer, a log that is on receives the transfer's whole traffic. */
    method Load(content: Option<seq<string>>, qual: string) returns (code: int)
      modifies link
      ensures !isConnected || content.None? ==>
        code == -3 && link.writes == old(link.writes) && link.input == old(link.input)
      ensures isConnected && content.Some? && !open ==>
        code == -4 && link.writes == old(link.writes) && link.input == old(link.input)
      ensures isConnected && content.Some? && open ==>
        var d := LoadDialogue(asInquiry, Pack(content.value), qual, old(link.input));
        code == d.code && link.writes == old(link.writes) + d.out && link.input == d.rest
      ensures link.logging == old(link.logging)
      ensures link.transcript == old(link.transcript) +
        (if isConnected && content.Some? && open && link.logging
         then LoadDialogue(asInquiry, Pack(content.value), qual, old(link.input)).log else [])
    {
      if !isConnected {
        return -3;
      }
      var enableLater := link.logging;
      link.logging := false;
      if content.None? {
        link.logging := enableLater;
        return -3;
      }
      var blocks := SplitContentToBlocks(content.value);
      link.logging := enableLater;
      if !open {
        return -4;
      }
      code := Transfer(link, asInquiry, blocks, qual);
    }

    /** `save`: the save dialogue with logging off, then the cleaning of the data
        with logging restored.  The file is opened for writing first, so it ends up
        empty when the dialogue fails; success returns no code at all (`None`).  A
        busy controller makes the cleaning step fail on the `-2` marker: -4.  There
        is no connection check: without an open socket the first write raises: -4. */
    method Save(prog: Option<string>, qual: string) returns (code: Option<int>, file: string)
      modifies link
      ensures !open ==> code == Some(-4) && file == ""
                        && link.writes == old(link.writes) && link.input == old(link.input)
      ensures open ==>
        var d := SaveDialogue(prog, qual, true, old(link.input));
        && link.writes == old(link.writes) + d.out && link.input == d.rest
        && (d.data.None? ==> code == Some(-4) && file == "")
        && (d.data.Some? ==> code.None? && file == JoinLines(Kept(SplitLines(StripControl(d.data.value)))))
      ensures link.logging == old(link.logging)
      ensures var d := SaveDialogue(prog, qual, true, old(link.input));
        link.transcript == old(link.transcript) +
          (if open && d.data.Some? && link.logging then Dropped(SplitLines(StripControl(d.data.value))) else [])
    {
      var enableLater := link.logging;
      link.logging := false;
      file := "";
      if !open {
        link.logging := enableLater;
        return Some(-4), file;
      }
      var data := GetSavefile(link, prog, qual, true);
      link.logging := enableLater;
      if data.None? {
        return Some(-4), file;
      }
      var clean := ProcessData(link, data.value);
      file := JoinLines(clean);
      code := None;
    }
  }
}
