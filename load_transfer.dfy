/** The block transfer of `load`, specified by pure functions of the read script,
    and the protocol properties of those functions. */
module LoadTransfer {
  import opened Text
  import opened Transport
  import opened Inquiry
  import opened Dialogue

  /** Frame that opens a load transfer. */
  const OpenFrame := "\U{02}A    0\U{17}"
  /** Frame that closes the data of a load transfer (the EOF byte 0x1a). */
  const EofFrame := "\U{02}C    0\U{1a}\U{17}"

  /** One block of program text wrapped in a data frame. */
  function DataFrame(block: string): (f: string)
    ensures StartsWith(f, "\U{02}C    0")
    ensures |f| == |block| + 10 && f[7..|f| - 3] == block && f[|f| - 3..] == "\r\n\U{17}"
  {
    var f := "\U{02}C    0" + block + "\r\n\U{17}";
    assert f[7..|f| - 3] == block;
    f
  }

  function LoadCommand(qual: string): string {
    "load" + qual + " file\r\n"
  }

  /** What a phase of the transfer wrote, the script it left, its empty-read
      counter, the responses it read, and its traffic (writes and reads
      interleaved in the order they happen), which is what the log receives. */
  datatype Phase = Phase(out: seq<string>, rest: seq<string>, empties: nat, responses: seq<string>,
                         log: seq<string>)

  /** The per-block loop: send each block, read once, write the resolver's reply
      if any, and stop after the read that makes the empty-read counter exceed 2.
      The counter is never reset by a non-empty read. */
  function BlockPhase(inq: string -> Option<string>, blocks: seq<string>, script: seq<string>, empties: nat): Phase
    requires empties <= 2
    decreases |blocks|
  {
    if blocks == [] then Phase([], script, empties, [], [])
    else
      var resp := Head(script);
      var w := [DataFrame(blocks[0])] + ReplyOf(inq(resp));
      var l := [DataFrame(blocks[0]), resp] + ReplyOf(inq(resp));
      var e := if resp == "" then empties + 1 else empties;
      if e > 2 then Phase(w, Tail(script), e, [resp], l)
      else
        var p := BlockPhase(inq, blocks[1..], Tail(script), e);
        Phase(w + p.out, p.rest, p.empties, [resp] + p.responses, l + p.log)
  }

  /** The trailer loop: keep reading and answering until the counter exceeds 2. */
  function TrailerPhase(inq: string -> Option<string>, script: seq<string>, empties: nat): Phase
    requires empties <= 2
    decreases |script|, 2 - empties
  {
    var resp := Head(script);
    var w := ReplyOf(inq(resp));
    var e := if resp == "" then empties + 1 else empties;
    if e > 2 then Phase(w, Tail(script), e, [resp], [resp] + w)
    else
      var p := TrailerPhase(inq, Tail(script), e);
      Phase(w + p.out, p.rest, p.empties, [resp] + p.responses, [resp] + w + p.log)
  }

  /** The writes that close a transfer: the EOF frame, a bare line end, and the
      acknowledgment frame. */
  const CloseWrites: seq<string> := [EofFrame, "\r\n", EndFrame]

  /** The traffic of the closing writes and their two reads from `script`. */
  function CloseLog(script: seq<string>): seq<string> {
    [EofFrame, "\r\n", Head(script), EndFrame, Head(Tail(script))]
  }

  /** Return code, writes, remaining script and traffic of a whole load dialogue. */
  datatype LoadRun = LoadRun(code: int, out: seq<string>, rest: seq<string>, log: seq<string>)

  /** The load dialogue from the load command on: a busy banner in the first read
      ends it with -2; otherwise the open frame, the blocks, the trailer and the
      three closing writes follow, with one read after the open frame and one after
      each of the last two closing writes. */
  function LoadDialogue(inq: string -> Option<string>, blocks: seq<string>, qual: string,
                        script: seq<string>): LoadRun
  {
    if Contains(Head(script), BusyBanner) then
      LoadRun(-2, [LoadCommand(qual)], Tail(script), [LoadCommand(qual), Head(script)])
    else
      var p := BlockPhase(inq, blocks, Tail(Tail(script)), 0);
      var t := TrailerPhase(inq, p.rest, 0);
      LoadRun(0, [LoadCommand(qual), OpenFrame] + p.out + t.out + CloseWrites,
              Tail(Tail(t.rest)),
              [LoadCommand(qual), Head(script), OpenFrame, Head(Tail(script))] + p.log + t.log + CloseLog(t.rest))
  }

  /** Advancing the block loop by one block keeps `sent ++ BlockPhase(todo)`
      equal to the whole phase, or ends it. */
  lemma BlockAdvance(inq: string -> Option<string>, whole: Phase, todo: seq<string>,
                     script: seq<string>, empties: nat, sent: seq<string>)
    requires todo != [] && empties <= 2
    requires whole.out == sent + BlockPhase(inq, todo, script, empties).out
    requires whole.rest == BlockPhase(inq, todo, script, empties).rest
    ensures var resp := Head(script);
      var sent' := sent + ([DataFrame(todo[0])] + ReplyOf(inq(resp)));
      var e := if resp == "" then empties + 1 else empties;
      && (e > 2 ==> whole.out == sent' && whole.rest == Tail(script))
      && (e <= 2 ==> whole.out == sent' + BlockPhase(inq, todo[1..], Tail(script), e).out
                     && whole.rest == BlockPhase(inq, todo[1..], Tail(script), e).rest)
  {
    var resp := Head(script);
    var w := [DataFrame(todo[0])] + ReplyOf(inq(resp));
    var e := if resp == "" then empties + 1 else empties;
    if e <= 2 {
      AppendAssoc(sent, w, BlockPhase(inq, todo[1..], Tail(script), e).out);
    }
  }

  /** The traffic of one block-loop round advances the same way. */
  lemma BlockAdvanceLog(inq: string -> Option<string>, whole: seq<string>, todo: seq<string>,
                        script: seq<string>, empties: nat, logged: seq<string>)
    requires todo != [] && empties <= 2
    requires whole == logged + BlockPhase(inq, todo, script, empties).log
    ensures var resp := Head(script);
      var logged' := logged + ([DataFrame(todo[0]), resp] + ReplyOf(inq(resp)));
      var e := if resp == "" then empties + 1 else empties;
      && (e > 2 ==> whole == logged')
      && (e <= 2 ==> whole == logged' + BlockPhase(inq, todo[1..], Tail(script), e).log)
  {
    var resp := Head(script);
    var l := [DataFrame(todo[0]), resp] + ReplyOf(inq(resp));
    var e := if resp == "" then empties + 1 else empties;
    if e <= 2 {
      AppendAssoc(logged, l, BlockPhase(inq, todo[1..], Tail(script), e).log);
    }
  }

  /** One round of the block loop: send the block's frame, read once and write
      the resolver's reply if any. */
  method SendBlock(link: Link, inq: string -> Option<string>, block: string) returns (response: string)
    modifies link
    ensures response == Head(old(link.input)) && link.input == Tail(old(link.input))
    ensures link.writes == old(link.writes) + ([DataFrame(block)] + ReplyOf(inq(response)))
    ensures link.logging == old(link.logging)
    ensures link.transcript == old(link.transcript) +
      (if link.logging then [DataFrame(block), response] + ReplyOf(inq(response)) else [])
  {
    link.Write(DataFrame(block));
    response := Answer(link, inq);
    AppendAssoc(old(link.writes), [DataFrame(block)], ReplyOf(inq(response)));
    if link.logging {
      AppendAssoc(old(link.transcript), [DataFrame(block)], [response] + ReplyOf(inq(response)));
      assert [DataFrame(block)] + ([response] + ReplyOf(inq(response)))
          == [DataFrame(block), response] + ReplyOf(inq(response));
    }
  }

  /** The per-block loop of `load`. */
  method SendBlocks(link: Link, inq: string -> Option<string>, blocks: seq<string>)
    modifies link
    ensures var p := BlockPhase(inq, blocks, old(link.input), 0);
      link.writes == old(link.writes) + p.out && link.input == p.rest
    ensures link.logging == old(link.logging)
    ensures link.transcript == old(link.transcript) +
      (if link.logging then BlockPhase(inq, blocks, old(link.input), 0).log else [])
  {
    ghost var whole := BlockPhase(inq, blocks, link.input, 0);
    ghost var w0 := link.writes;
    ghost var t0 := link.transcript;
    ghost var sent: seq<string> := [];
    ghost var logged: seq<string> := [];
    var empties := 0;
    var todo := blocks;
    while todo != []
      invariant empties <= 2
      invariant link.writes == w0 + sent
      invariant whole.out == sent + BlockPhase(inq, todo, link.input, empties).out
      invariant whole.rest == BlockPhase(inq, todo, link.input, empties).rest
      invariant whole.log == logged + BlockPhase(inq, todo, link.input, empties).log
      invariant link.logging == old(link.logging)
      invariant link.transcript == t0 + (if link.logging then logged else [])
      decreases |todo|
    {
      BlockAdvance(inq, whole, todo, link.input, empties, sent);
      BlockAdvanceLog(inq, whole.log, todo, link.input, empties, logged);
      var response := SendBlock(link, inq, todo[0]);
      ghost var w := [DataFrame(todo[0])] + ReplyOf(inq(response));
      ghost var l := [DataFrame(todo[0]), response] + ReplyOf(inq(response));
      AppendAssoc(w0, sent, w);
      AppendAssoc(t0, logged, l);
      sent := sent + w;
      logged := logged + l;
      if response == "" {
        empties := empties + 1;
      }
      if empties > 2 {
        break;
      }
      todo := todo[1..];
    }
  }

  /** Advancing the trailer loop by one read. */
  lemma TrailerAdvance(inq: string -> Option<string>, whole: Phase, script: seq<string>, empties: nat,
                       sent: seq<string>)
    requires empties <= 2
    requires whole.out == sent + TrailerPhase(inq, script, empties).out
    requires whole.rest == TrailerPhase(inq, script, empties).rest
    ensures var resp := Head(script);
      var sent' := sent + ReplyOf(inq(resp));
      var e := if resp == "" then empties + 1 else empties;
      && (e > 2 ==> whole.out == sent' && whole.rest == Tail(script))
      && (e <= 2 ==> whole.out == sent' + TrailerPhase(inq, Tail(script), e).out
                     && whole.rest == TrailerPhase(inq, Tail(script), e).rest)
  {
    var resp := Head(script);
    var e := if resp == "" then empties + 1 else empties;
    if e <= 2 {
      AppendAssoc(sent, ReplyOf(inq(resp)), TrailerPhase(inq, Tail(script), e).out);
    }
  }

  /** The traffic of one trailer round advances the same way. */
  lemma TrailerAdvanceLog(inq: string -> Option<string>, whole: seq<string>, script: seq<string>,
                          empties: nat, logged: seq<string>)
    requires empties <= 2
    requires whole == logged + TrailerPhase(inq, script, empties).log
    ensures var resp := Head(script);
      var logged' := logged + ([resp] + ReplyOf(inq(resp)));
      var e := if resp == "" then empties + 1 else empties;
      && (e > 2 ==> whole == logged')
      && (e <= 2 ==> whole == logged' + TrailerPhase(inq, Tail(script), e).log)
  {
    var resp := Head(script);
    var e := if resp == "" then empties + 1 else empties;
    if e <= 2 {
      AppendAssoc(logged, [resp] + ReplyOf(inq(resp)), TrailerPhase(inq, Tail(script), e).log);
    }
  }

  /** The trailer loop of `load`. */
  method ReadTrailer(link: Link, inq: string -> Option<string>)
    modifies link
    ensures var t := TrailerPhase(inq, old(link.input), 0);
      link.writes == old(link.writes) + t.out && link.input == t.rest
    ensures link.logging == old(link.logging)
    ensures link.transcript == old(link.transcript) +
      (if link.logging then TrailerPhase(inq, old(link.input), 0).log else [])
  {
    ghost var whole := TrailerPhase(inq, link.input, 0);
    ghost var w0 := link.writes;
    ghost var t0 := link.transcript;
    ghost var sent: seq<string> := [];
    ghost var logged: seq<string> := [];
    var empties := 0;
    while true
      invariant empties <= 2
      invariant link.writes == w0 + sent
      invariant whole.out == sent + TrailerPhase(inq, link.input, empties).out
      invariant whole.rest == TrailerPhase(inq, link.input, empties).rest
      invariant whole.log == logged + TrailerPhase(inq, link.input, empties).log
      invariant link.logging == old(link.logging)
      invariant link.transcript == t0 + (if link.logging then logged else [])
      decreases |link.input|, 2 - empties
    {
      TrailerAdvance(inq, whole, link.input, empties, sent);
      TrailerAdvanceLog(inq, whole.log, link.input, empties, logged);
      var response := Answer(link, inq);
      AppendAssoc(w0, sent, ReplyOf(inq(response)));
      AppendAssoc(t0, logged, [response] + ReplyOf(inq(response)));
      sent := sent + ReplyOf(inq(response));
      logged := logged + ([response] + ReplyOf(inq(response)));
      if response == "" {
        empties := empties + 1;
      }
      if empties > 2 {
        break;
      }
    }
  }

  /** The closing writes of `load`, with a read after the line end and after the
      acknowledgment frame. */
  method CloseTransfer(link: Link)
    modifies link
    ensures link.writes == old(link.writes) + CloseWrites && link.input == Tail(Tail(old(link.input)))
    ensures link.logging == old(link.logging)
    ensures link.transcript == old(link.transcript) + (if link.logging then CloseLog(old(link.input)) else [])
  {
    link.Write(EofFrame);
    link.Write("\r\n");
    var response := link.Read();
    link.Write(EndFrame);
    response := link.Read();
  }

  /** The transfer part of `load` (everything after the file has been read and
      split into blocks). */
  method Transfer(link: Link, inq: string -> Option<string>, blocks: seq<string>, qual: string)
    returns (code: int)
    modifies link
    ensures var d := LoadDialogue(inq, blocks, qual, old(link.input));
      code == d.code && link.writes == old(link.writes) + d.out && link.input == d.rest
    ensures link.logging == old(link.logging)
    ensures link.transcript == old(link.transcript) +
      (if link.logging then LoadDialogue(inq, blocks, qual, old(link.input)).log else [])
  {
    ghost var s0 := link.input;
    ghost var w0 := link.writes;
    ghost var t0 := link.transcript;
    link.Write(LoadCommand(qual));
    var response := link.Read();
    if Contains(response, BusyBanner) {
      return -2;
    }
    link.Write(OpenFrame);
    response := link.Read();
    ghost var p := BlockPhase(inq, blocks, Tail(Tail(s0)), 0);
    ghost var t := TrailerPhase(inq, p.rest, 0);
    ghost var pre := [LoadCommand(qual), OpenFrame] + p.out + t.out;
    ghost var opening := [LoadCommand(qual), Head(s0), OpenFrame, Head(Tail(s0))];
    ghost var lpre := opening + p.log + t.log;
    assert LoadDialogue(inq, blocks, qual, s0)
        == LoadRun(0, pre + CloseWrites, Tail(Tail(t.rest)), lpre + CloseLog(t.rest));
    assert link.input == Tail(Tail(s0)) && link.writes == w0 + [LoadCommand(qual), OpenFrame];
    ghost var on := link.logging;
    ghost var l0 := if on then opening else [];
    assert link.transcript == t0 + l0;
    ghost var w1 := link.writes;
    SendBlocks(link, inq, blocks);
    assert link.writes == w1 + p.out && link.input == p.rest;
    ghost var l1 := if on then p.log else [];
    AppendAssoc(t0, l0, l1);
    ghost var w2 := link.writes;
    ReadTrailer(link, inq);
    assert link.writes == w2 + t.out;
    ghost var l2 := if on then t.log else [];
    AppendAssoc(t0, l0 + l1, l2);
    AppendAssoc(w0 + [LoadCommand(qual), OpenFrame], p.out, t.out);
    AppendAssoc(w0, [LoadCommand(qual), OpenFrame], p.out);
    AppendAssoc(w0, [LoadCommand(qual), OpenFrame] + p.out, t.out);
    assert link.writes == w0 + pre;
    CloseTransfer(link);
    code := 0;
    AppendAssoc(w0, pre, CloseWrites);
    ghost var l3 := if on then CloseLog(t.rest) else [];
    AppendAssoc(t0, l0 + l1 + l2, l3);
    assert l0 + l1 + l2 + l3 == (if on then lpre + CloseLog(t.rest) else []);
  }

  // ---------------------------------------------------------------------------
  // Properties of the transfer

  /** The writes of the block loop for the blocks `bs` and their responses `rs`:
      each data frame followed by the answer to the response read after it. */
  function Exchange(inq: string -> Option<string>, bs: seq<string>, rs: seq<string>): seq<string>
    requires |bs| == |rs|
  {
    if bs == [] then [] else [DataFrame(bs[0])] + ReplyOf(inq(rs[0])) + Exchange(inq, bs[1..], rs[1..])
  }

  /** The block loop reads exactly one response per block sent: the next results
      of the script, in order. */
  lemma {:induction false} BlockPhaseReads(inq: string -> Option<string>, blocks: seq<string>,
                                           script: seq<string>, empties: nat)
    requires empties <= 2
    ensures var p := BlockPhase(inq, blocks, script, empties); var n := |p.responses|;
      && n <= |blocks|
      && (blocks != [] ==> 1 <= n)
      && p.responses == ReadsOf(script, n)
      && p.rest == DropReads(script, n)
    decreases |blocks|
  {
    var p := BlockPhase(inq, blocks, script, empties);
    if blocks != [] {
      var resp := Head(script);
      var e := if resp == "" then empties + 1 else empties;
      if e <= 2 {
        BlockPhaseReads(inq, blocks[1..], Tail(script), e);
        var q := BlockPhase(inq, blocks[1..], Tail(script), e);
        var n := |q.responses|;
        assert ReadsOf(script, n + 1) == [resp] + ReadsOf(Tail(script), n);
        assert DropReads(script, n + 1) == DropReads(Tail(script), n);
      }
    }
  }

  /** One step of the block loop, as equations on its responses and counter. */
  lemma BlockPhaseStep(inq: string -> Option<string>, blocks: seq<string>, script: seq<string>, empties: nat)
    requires empties <= 2 && blocks != []
    ensures var p := BlockPhase(inq, blocks, script, empties);
      var resp := Head(script);
      var e := if resp == "" then empties + 1 else empties;
      && (e > 2 ==> p.responses == [resp] && p.empties == e)
      && (e <= 2 ==> var q := BlockPhase(inq, blocks[1..], Tail(script), e);
            p.responses == [resp] + q.responses && p.empties == q.empties)
  {
  }

  /** The block loop counts every empty read without ever resetting the counter. */
  lemma {:induction false} BlockPhaseCounter(inq: string -> Option<string>, blocks: seq<string>,
                                             script: seq<string>, empties: nat)
    requires empties <= 2
    ensures var p := BlockPhase(inq, blocks, script, empties);
      p.empties == empties + CountEmpty(p.responses) && p.empties <= 3
    decreases |blocks|
  {
    if blocks != [] {
      var p := BlockPhase(inq, blocks, script, empties);
      var resp := Head(script);
      var e := if resp == "" then empties + 1 else empties;
      BlockPhaseStep(inq, blocks, script, empties);
      if e > 2 {
        assert CountEmpty([resp]) == 1 + CountEmpty([resp][1..]);
      } else {
        BlockPhaseCounter(inq, blocks[1..], Tail(script), e);
        var q := BlockPhase(inq, blocks[1..], Tail(script), e);
        CountEmptyAppend([resp], q.responses);
        assert CountEmpty([resp]) == (if resp == "" then 1 else 0) + CountEmpty([resp][1..]);
      }
    }
  }

  /** The block loop stops before the last block only on the read that takes the
      counter to 3, which is an empty one. */
  lemma {:induction false} BlockPhaseStops(inq: string -> Option<string>, blocks: seq<string>,
                                           script: seq<string>, empties: nat)
    requires empties <= 2
    ensures var p := BlockPhase(inq, blocks, script, empties); var n := |p.responses|;
      && (n < |blocks| ==> p.empties == 3)
      && (p.empties == 3 ==> n >= 1 && Last(p.responses) == "")
    decreases |blocks|
  {
    if blocks != [] {
      var resp := Head(script);
      var e := if resp == "" then empties + 1 else empties;
      BlockPhaseStep(inq, blocks, script, empties);
      if e <= 2 {
        BlockPhaseStops(inq, blocks[1..], Tail(script), e);
        var q := BlockPhase(inq, blocks[1..], Tail(script), e);
        if q.empties == 3 {
          assert Last([resp] + q.responses) == Last(q.responses);
        }
      }
    }
  }

  /** The block loop sends a prefix of the blocks in order, each data frame
      followed by the answer to the response read right after it. */
  lemma {:induction false} BlockPhaseWrites(inq: string -> Option<string>, blocks: seq<string>,
                                            script: seq<string>, empties: nat)
    requires empties <= 2
    ensures var p := BlockPhase(inq, blocks, script, empties); var n := |p.responses|;
      n <= |blocks| && p.out == Exchange(inq, blocks[..n], p.responses)
    decreases |blocks|
  {
    var p := BlockPhase(inq, blocks, script, empties);
    if blocks != [] {
      var resp := Head(script);
      var e := if resp == "" then empties + 1 else empties;
      if e > 2 {
        assert blocks[..1] == [blocks[0]];
        assert Exchange(inq, [blocks[0]], [resp]) == [DataFrame(blocks[0])] + ReplyOf(inq(resp));
      } else {
        BlockPhaseWrites(inq, blocks[1..], Tail(script), e);
        var q := BlockPhase(inq, blocks[1..], Tail(script), e);
        var n := |q.responses|;
        var bs := blocks[..n + 1];
        assert bs[0] == blocks[0] && bs[1..] == blocks[1..][..n];
        assert p.responses[0] == resp && p.responses[1..] == q.responses;
      }
    }
  }

  /** The trailer loop reads the next results of the script, in order, until its
      counter reaches 3 on an empty read. */
  lemma {:induction false} TrailerPhaseReads(inq: string -> Option<string>, script: seq<string>, empties: nat)
    requires empties <= 2
    ensures var t := TrailerPhase(inq, script, empties); var n := |t.responses|;
      && 1 <= n
      && t.responses == ReadsOf(script, n)
      && t.rest == DropReads(script, n)
    decreases |script|, 2 - empties
  {
    var resp := Head(script);
    var e := if resp == "" then empties + 1 else empties;
    if e <= 2 {
      TrailerPhaseReads(inq, Tail(script), e);
      var n := |TrailerPhase(inq, Tail(script), e).responses|;
      assert ReadsOf(script, n + 1) == [resp] + ReadsOf(Tail(script), n);
      assert DropReads(script, n + 1) == DropReads(Tail(script), n);
    }
  }

  /** The trailer loop ends on its third empty read (counting from `empties`), and
      only then. */
  lemma {:induction false} TrailerPhaseCounter(inq: string -> Option<string>, script: seq<string>, empties: nat)
    requires empties <= 2
    ensures var t := TrailerPhase(inq, script, empties);
      && t.responses != []
      && t.empties == 3 == empties + CountEmpty(t.responses)
      && Last(t.responses) == ""
    decreases |script|, 2 - empties
  {
    var t := TrailerPhase(inq, script, empties);
    var resp := Head(script);
    var e := if resp == "" then empties + 1 else empties;
    if e > 2 {
      assert CountEmpty([resp]) == 1 + CountEmpty([resp][1..]);
    } else {
      TrailerPhaseCounter(inq, Tail(script), e);
      var u := TrailerPhase(inq, Tail(script), e);
      assert t.responses == [resp] + u.responses && t.empties == u.empties;
      assert t.responses[0] == resp && t.responses[1..] == u.responses;
      assert CountEmpty(t.responses) == (if resp == "" then 1 else 0) + CountEmpty(u.responses);
      assert Last(t.responses) == Last(u.responses);
    }
  }

  /** The trailer loop answers every response it reads, in order. */
  lemma {:induction false} TrailerPhaseWrites(inq: string -> Option<string>, script: seq<string>, empties: nat)
    requires empties <= 2
    ensures var t := TrailerPhase(inq, script, empties); t.out == Replies(inq, t.responses)
    decreases |script|, 2 - empties
  {
    var t := TrailerPhase(inq, script, empties);
    var resp := Head(script);
    var e := if resp == "" then empties + 1 else empties;
    if e > 2 {
      assert Replies(inq, [resp]) == ReplyOf(inq(resp)) + Replies(inq, []);
    } else {
      TrailerPhaseWrites(inq, Tail(script), e);
      var u := TrailerPhase(inq, Tail(script), e);
      assert t.responses[0] == resp && t.responses[1..] == u.responses;
    }
  }

  /** A reply that reports errors is answered with `break` right after the block
      that caused it, and the transfer goes on with the next block instead of
      aborting. */
  lemma ErrorsAnsweredWithBreak(blocks: seq<string>, script: seq<string>, empties: nat)
    requires blocks != [] && empties <= 2
    requires Contains(Head(script), ErrorsCue)
    ensures var p := BlockPhase(DefaultAsInquiry, blocks, script, empties);
      && |p.out| >= 2 && p.out[..2] == [DataFrame(blocks[0]), "break"]
      && (|blocks| >= 2 ==> |p.out| >= 3 && p.out[2] == DataFrame(blocks[1]))
  {
    var resp := Head(script);
    assert resp != "";
    if |blocks| >= 2 {
      assert blocks[1..][0] == blocks[1];
    }
  }

  /** The protocol frames among the writes: those that start with STX. */
  function Frames(ws: seq<string>): seq<string> {
    if ws == [] then []
    else (if StartsWith(ws[0], "\U{02}") then [ws[0]] else []) + Frames(ws[1..])
  }

  lemma {:induction false} FramesAppend(a: seq<string>, b: seq<string>)
    ensures Frames(a + b) == Frames(a) + Frames(b)
  {
    if a == [] {
      assert a + b == b;
    } else {
      assert (a + b)[0] == a[0] && (a + b)[1..] == a[1..] + b;
      FramesAppend(a[1..], b);
      AppendAssoc(if StartsWith(a[0], "\U{02}") then [a[0]] else [], Frames(a[1..]), Frames(b));
    }
  }

  function DataFrames(bs: seq<string>): seq<string> {
    if bs == [] then [] else [DataFrame(bs[0])] + DataFrames(bs[1..])
  }

  /** The resolver never answers with something that starts like a frame. */
  ghost predicate NeverFrames(inq: string -> Option<string>) {
    forall m :: inq(m).Some? ==> !StartsWith(inq(m).value, "\U{02}")
  }

  lemma DefaultAsNeverFrames()
    ensures NeverFrames(DefaultAsInquiry)
  {
    forall m | DefaultAsInquiry(m).Some?
      ensures !StartsWith(DefaultAsInquiry(m).value, "\U{02}")
    {
      AsRepliesAreNotFrames(m);
    }
  }

  lemma {:induction false} RepliesFrames(inq: string -> Option<string>, rs: seq<string>)
    requires NeverFrames(inq)
    ensures Frames(Replies(inq, rs)) == []
  {
    if rs != [] {
      RepliesFrames(inq, rs[1..]);
      FramesAppend(ReplyOf(inq(rs[0])), Replies(inq, rs[1..]));
      if inq(rs[0]).Some? {
        assert Frames([inq(rs[0]).value]) == [] + Frames([]);
      }
    }
  }

  /** A reply of a resolver that never answers with a frame adds no frame. */
  lemma ReplyNotFrame(inq: string -> Option<string>, m: string)
    requires NeverFrames(inq)
    ensures Frames(ReplyOf(inq(m))) == []
  {
    if inq(m).Some? {
      var w := inq(m).value;
      assert !StartsWith(w, "\U{02}");
      StartsWithChar(w, '\U{02}');
      FramesOne(w);
    }
  }

  lemma {:induction false} ExchangeFrames(inq: string -> Option<string>, bs: seq<string>, rs: seq<string>)
    requires |bs| == |rs| && NeverFrames(inq)
    ensures Frames(Exchange(inq, bs, rs)) == DataFrames(bs)
  {
    if bs != [] {
      var f := [DataFrame(bs[0])];
      var r := ReplyOf(inq(rs[0]));
      var e := Exchange(inq, bs[1..], rs[1..]);
      assert Exchange(inq, bs, rs) == f + r + e;
      ExchangeFrames(inq, bs[1..], rs[1..]);
      FramesAppend(f + r, e);
      FramesAppend(f, r);
      ReplyNotFrame(inq, rs[0]);
      assert DataFrame(bs[0])[0] == '\U{02}';
      FramesOne(DataFrame(bs[0]));
      assert DataFrames(bs) == f + DataFrames(bs[1..]);
    }
  }

  lemma FramesOne(w: string)
    ensures Frames([w]) == if w != [] && w[0] == '\U{02}' then [w] else []
  {
    StartsWithChar(w, '\U{02}');
    assert [w][1..] == [];
  }

  lemma OpeningFrames(qual: string)
    ensures Frames([LoadCommand(qual), OpenFrame]) == [OpenFrame]
  {
    FramesOne(LoadCommand(qual));
    FramesOne(OpenFrame);
    FramesAppend([LoadCommand(qual)], [OpenFrame]);
    assert [LoadCommand(qual)] + [OpenFrame] == [LoadCommand(qual), OpenFrame];
  }

  lemma ClosingFrames()
    ensures Frames(CloseWrites) == [EofFrame, EndFrame]
  {
    FramesOne(EofFrame);
    FramesOne("\r\n");
    FramesOne(EndFrame);
    FramesAppend([EofFrame], ["\r\n"]);
    FramesAppend([EofFrame] + ["\r\n"], [EndFrame]);
    assert [EofFrame] + ["\r\n"] + [EndFrame] == CloseWrites;
  }

  lemma DialogueFrames(qual: string, blockWrites: seq<string>, trailerWrites: seq<string>, sent: seq<string>)
    requires Frames(blockWrites) == DataFrames(sent) && Frames(trailerWrites) == []
    ensures Frames([LoadCommand(qual), OpenFrame] + blockWrites + trailerWrites + CloseWrites) ==
            [OpenFrame] + DataFrames(sent) + [EofFrame, EndFrame]
  {
    var head := [LoadCommand(qual), OpenFrame];
    OpeningFrames(qual);
    ClosingFrames();
    FramesAppend(head, blockWrites);
    FramesAppend(head + blockWrites, trailerWrites);
    FramesAppend(head + blockWrites + trailerWrites, CloseWrites);
  }

  /** The load dialogue ends with -2, having sent only the load command, exactly
      when the first reply carries the busy banner; otherwise its frames are the
      open frame, the data frames of the blocks sent (a prefix of the blocks, in
      order), the EOF frame and the acknowledgment frame, in that order, provided
      the resolver never answers with something that starts like a frame. */
  lemma LoadFrames(inq: string -> Option<string>, blocks: seq<string>, qual: string, script: seq<string>)
    requires NeverFrames(inq)
    ensures var d := LoadDialogue(inq, blocks, qual, script);
      var n := |BlockPhase(inq, blocks, Tail(Tail(script)), 0).responses|;
      && (d.code == -2 <==> Contains(Head(script), BusyBanner))
      && (d.code == -2 ==> d.out == [LoadCommand(qual)])
      && (d.code != -2 ==>
            && d.code == 0 && d.out[0] == LoadCommand(qual) && n <= |blocks|
            && Frames(d.out) == [OpenFrame] + DataFrames(blocks[..n]) + [EofFrame, EndFrame])
  {
    if !Contains(Head(script), BusyBanner) {
      var p := BlockPhase(inq, blocks, Tail(Tail(script)), 0);
      var t := TrailerPhase(inq, p.rest, 0);
      var n := |p.responses|;
      BlockPhaseWrites(inq, blocks, Tail(Tail(script)), 0);
      ExchangeFrames(inq, blocks[..n], p.responses);
      TrailerPhaseWrites(inq, p.rest, 0);
      RepliesFrames(inq, t.responses);
      DialogueFrames(qual, p.out, t.out, blocks[..n]);
    }
  }

  /** The block loop's traffic is its writes and its reads, nothing lost and
      nothing added. */
  lemma {:induction false} BlockPhaseLog(inq: string -> Option<string>, blocks: seq<string>,
                                         script: seq<string>, empties: nat)
    requires empties <= 2
    ensures var p := BlockPhase(inq, blocks, script, empties);
      multiset(p.log) == multiset(p.out) + multiset(p.responses)
    decreases |blocks|
  {
    if blocks != [] {
      var resp := Head(script);
      var r := ReplyOf(inq(resp));
      var e := if resp == "" then empties + 1 else empties;
      StepTraffic(DataFrame(blocks[0]), resp, r);
      if e <= 2 {
        var p := BlockPhase(inq, blocks[1..], Tail(script), e);
        BlockPhaseLog(inq, blocks[1..], Tail(script), e);
        SumTraffic([DataFrame(blocks[0]), resp] + r, [DataFrame(blocks[0])] + r, [resp], p.log, p.out, p.responses);
      }
    }
  }

  /** A write, its read and the reply to it: two writes and one read. */
  lemma StepTraffic<T>(w: T, r: T, reply: seq<T>)
    ensures multiset([w, r] + reply) == multiset([w] + reply) + multiset([r])
  {
    forall x
      ensures multiset([w, r] + reply)[x] == (multiset([w] + reply) + multiset([r]))[x]
    {
    }
  }

  /** Traffic made of writes and reads, followed by more of the same. */
  lemma SumTraffic<T>(l: seq<T>, ws: seq<T>, rs: seq<T>, l': seq<T>, ws': seq<T>, rs': seq<T>)
    requires multiset(l) == multiset(ws) + multiset(rs)
    requires multiset(l') == multiset(ws') + multiset(rs')
    ensures multiset(l + l') == multiset(ws + ws') + multiset(rs + rs')
  {
    forall x
      ensures multiset(l + l')[x] == (multiset(ws + ws') + multiset(rs + rs'))[x]
    {
    }
  }

  /** The trailer loop's traffic is its writes and its reads. */
  lemma {:induction false} TrailerPhaseLog(inq: string -> Option<string>, script: seq<string>, empties: nat)
    requires empties <= 2
    ensures var t := TrailerPhase(inq, script, empties);
      multiset(t.log) == multiset(t.out) + multiset(t.responses)
    decreases |script|, 2 - empties
  {
    var resp := Head(script);
    var e := if resp == "" then empties + 1 else empties;
    if e <= 2 {
      TrailerPhaseLog(inq, Tail(script), e);
    }
  }

  /** Four pieces of traffic, each the writes and reads of a stretch, add up. */
  lemma TrafficSum(o: seq<string>, pl: seq<string>, tl: seq<string>, c: seq<string>,
                   ow: seq<string>, pw: seq<string>, tw: seq<string>, cw: seq<string>,
                   or: seq<string>, pr: seq<string>, tr: seq<string>, cr: seq<string>)
    requires multiset(o) == multiset(ow) + multiset(or)
    requires multiset(pl) == multiset(pw) + multiset(pr)
    requires multiset(tl) == multiset(tw) + multiset(tr)
    requires multiset(c) == multiset(cw) + multiset(cr)
    ensures multiset(o + pl + tl + c) == multiset(ow + pw + tw + cw) + multiset(or + pr + tr + cr)
  {
  }

  lemma PairTraffic(w1: string, r1: string, w2: string, r2: string)
    ensures multiset([w1, r1, w2, r2]) == multiset([w1, w2]) + multiset([r1, r2])
  {
  }

  lemma CloseTraffic(script: seq<string>)
    ensures multiset(CloseLog(script)) == multiset(CloseWrites) + multiset([Head(script), Head(Tail(script))])
  {
    CloseShape(EofFrame, "\r\n", Head(script), EndFrame, Head(Tail(script)));
  }

  /** Three writes with a read after the second and the third. */
  lemma CloseShape<T>(w1: T, w2: T, r1: T, w3: T, r2: T)
    ensures multiset([w1, w2, r1, w3, r2]) == multiset([w1, w2, w3]) + multiset([r1, r2])
  {
    forall x
      ensures multiset([w1, w2, r1, w3, r2])[x] == (multiset([w1, w2, w3]) + multiset([r1, r2]))[x]
    {
    }
  }

  /** The log of a load opens with the load command and the first reply. */
  lemma LoadLogOpens(inq: string -> Option<string>, blocks: seq<string>, qual: string, script: seq<string>)
    ensures var d := LoadDialogue(inq, blocks, qual, script);
      |d.log| >= 2 && d.log[0] == LoadCommand(qual) && d.log[1] == Head(script)
  {
  }

  /** What the log receives from a load: every write of the dialogue and every
      read, nothing else: the two opening replies, the replies of both loops and
      the two closing replies. */
  lemma LoadLog(inq: string -> Option<string>, blocks: seq<string>, qual: string, script: seq<string>)
    ensures var d := LoadDialogue(inq, blocks, qual, script);
      && (d.code == -2 ==> multiset(d.log) == multiset(d.out) + multiset([Head(script)]))
      && (d.code != -2 ==>
            var p := BlockPhase(inq, blocks, Tail(Tail(script)), 0);
            var t := TrailerPhase(inq, p.rest, 0);
            multiset(d.log) == multiset(d.out) +
              multiset([Head(script), Head(Tail(script))] + p.responses + t.responses
                       + [Head(t.rest), Head(Tail(t.rest))]))
  {
    if !Contains(Head(script), BusyBanner) {
      var p := BlockPhase(inq, blocks, Tail(Tail(script)), 0);
      var t := TrailerPhase(inq, p.rest, 0);
      BlockPhaseLog(inq, blocks, Tail(Tail(script)), 0);
      TrailerPhaseLog(inq, p.rest, 0);
      var opening := [LoadCommand(qual), Head(script), OpenFrame, Head(Tail(script))];
      PairTraffic(LoadCommand(qual), Head(script), OpenFrame, Head(Tail(script)));
      CloseTraffic(t.rest);
      TrafficSum(opening, p.log, t.log, CloseLog(t.rest),
                 [LoadCommand(qual), OpenFrame], p.out, t.out, CloseWrites,
                 [Head(script), Head(Tail(script))], p.responses, t.responses, [Head(t.rest), Head(Tail(t.rest))]);
    }
  }
}
