/** The framed read stream of `save` (`__get_savefile`), specified by pure
    functions of the read script. */
module SaveStream {
  import opened Text
  import opened Transport
  import opened Inquiry
  import opened Dialogue

  /** Frame that asks the controller for the program text. */
  const RequestFrame := "\U{02}B    0\U{17}"

  /** The writes that close a save: the acknowledgment frame, a bare line end, and
      the acknowledgment frame again. */
  const SaveCloseWrites: seq<string> := [EndFrame, "\r\n", EndFrame]

  /** `file.as` followed by `=<program>` when a program is named. */
  function ProgText(prog: Option<string>): string {
    match prog
    case None => ""
    case Some(p) => "=" + p
  }

  function SaveCommand(prog: Option<string>, qual: string): string {
    "save" + qual + " file.as" + ProgText(prog) + "\r\n"
  }

  /** The data read by the stream loop, the script it left, and the number of
      reads it made. */
  datatype SaveRead = SaveRead(raw: string, rest: seq<string>, count: nat)

  /** The stream loop.  At a block boundary it reads up to the block separator and
      stops on an empty read; otherwise it also reads what is immediately available
      and stops if that is empty or carries the end marker.  Between boundaries it
      reads up to ETB and stops only on the end marker: an empty read there does not
      stop it. */
  function SaveLoop(script: seq<string>, boundary: bool): SaveRead
    decreases 2 * |script| + (if boundary then 0 else 1)
  {
    if boundary then
      var first := Head(script);
      if first == "" then SaveRead("", Tail(script), 1)
      else
        var eager := Head(Tail(script));
        if eager == "" then SaveRead(first, Tail(Tail(script)), 2)
        else if Contains(eager, EndMarker) then SaveRead(first + eager, Tail(Tail(script)), 2)
        else
          var r := SaveLoop(Tail(Tail(script)), false);
          SaveRead(first + eager + r.raw, r.rest, 2 + r.count)
    else
      var chunk := Head(script);
      if Contains(chunk, EndMarker) then SaveRead(chunk, Tail(script), 1)
      else
        var r := SaveLoop(Tail(script), true);
        SaveRead(chunk + r.raw, r.rest, 1 + r.count)
  }

  /** The result of the save dialogue: `None` for the busy case (`-2`), the raw
      program data otherwise; the writes; and the script left. */
  datatype SaveRun = SaveRun(data: Option<string>, out: seq<string>, rest: seq<string>)

  /** `__get_savefile`: the save command, one read, then (unless the busy check is
      on and the read carries the busy banner) the request frame, the stream loop,
      the three closing writes and one last read. */
  function SaveDialogue(prog: Option<string>, qual: string, checkBusy: bool, script: seq<string>): SaveRun {
    if checkBusy && Contains(Head(script), BusyBanner) then
      SaveRun(None, [SaveCommand(prog, qual)], Tail(script))
    else
      var r := SaveLoop(Tail(script), true);
      SaveRun(Some(r.raw), [SaveCommand(prog, qual), RequestFrame] + SaveCloseWrites, Tail(r.rest))
  }

  /** One pass at a block boundary: what is left of the loop after the separator
      read and the eager read. */
  lemma BoundaryAdvance(whole: SaveRead, raw: string, script: seq<string>)
    requires whole.raw == raw + SaveLoop(script, true).raw && whole.rest == SaveLoop(script, true).rest
    ensures var first := Head(script); var eager := Head(Tail(script));
      && (first == "" ==> whole.raw == raw && whole.rest == Tail(script))
      && (first != "" && eager == "" ==> whole.raw == raw + first && whole.rest == Tail(Tail(script)))
      && (first != "" && eager != "" && Contains(eager, EndMarker) ==>
            whole.raw == (raw + first) + eager && whole.rest == Tail(Tail(script)))
      && (first != "" && eager != "" && !Contains(eager, EndMarker) ==>
            whole.raw == ((raw + first) + eager) + SaveLoop(Tail(Tail(script)), false).raw
            && whole.rest == SaveLoop(Tail(Tail(script)), false).rest)
  {
    var first := Head(script);
    var eager := Head(Tail(script));
    if first != "" && eager != "" {
      if Contains(eager, EndMarker) {
        AppendAssoc(raw, first, eager);
      } else {
        var r := SaveLoop(Tail(Tail(script)), false);
        assert SaveLoop(script, true).raw == first + eager + r.raw;
        AppendAssoc(raw, first + eager, r.raw);
        AppendAssoc(raw, first, eager);
      }
    }
  }

  /** One pass between boundaries: what is left of the loop after the read up to ETB. */
  lemma AlternateAdvance(whole: SaveRead, raw: string, script: seq<string>)
    requires whole.raw == raw + SaveLoop(script, false).raw && whole.rest == SaveLoop(script, false).rest
    ensures var chunk := Head(script);
      && (Contains(chunk, EndMarker) ==> whole.raw == raw + chunk && whole.rest == Tail(script))
      && (!Contains(chunk, EndMarker) ==>
            whole.raw == (raw + chunk) + SaveLoop(Tail(script), true).raw
            && whole.rest == SaveLoop(Tail(script), true).rest)
  {
    var chunk := Head(script);
    if !Contains(chunk, EndMarker) {
      AppendAssoc(raw, chunk, SaveLoop(Tail(script), true).raw);
    }
  }

  /** The stream loop of `__get_savefile`. */
  method ReadStream(link: Link) returns (raw: string)
    modifies link
    ensures var r := SaveLoop(old(link.input), true); raw == r.raw && link.input == r.rest
    ensures link.writes == old(link.writes) && link.logging == old(link.logging)
    ensures !link.logging ==> link.transcript == old(link.transcript)
  {
    ghost var whole := SaveLoop(link.input, true);
    var boundary := true;
    raw := "";
    while true
      invariant whole.raw == raw + SaveLoop(link.input, boundary).raw
      invariant whole.rest == SaveLoop(link.input, boundary).rest
      invariant link.writes == old(link.writes) && link.logging == old(link.logging)
      invariant !link.logging ==> link.transcript == old(link.transcript)
      decreases 2 * |link.input| + (if boundary then 0 else 1)
    {
      if boundary {
        BoundaryAdvance(whole, raw, link.input);
        var block := link.Read();
        if block == "" {
          break;
        }
        raw := raw + block;
        var eager := link.Read();
        if eager == "" {
          break;
        }
        raw := raw + eager;
        if Contains(eager, EndMarker) {
          break;
        }
      } else {
        AlternateAdvance(whole, raw, link.input);
        var block := link.Read();
        raw := raw + block;
        if Contains(block, EndMarker) {
          break;
        }
      }
      boundary := !boundary;
    }
  }

  /** `__get_savefile`, with the busy check of the current engine (`checkBusy`) or
      without it (the earlier variant). */
  method GetSavefile(link: Link, prog: Option<string>, qual: string, checkBusy: bool)
    returns (data: Option<string>)
    modifies link
    ensures var d := SaveDialogue(prog, qual, checkBusy, old(link.input));
      data == d.data && link.writes == old(link.writes) + d.out && link.input == d.rest
    ensures link.logging == old(link.logging)
    ensures !link.logging ==> link.transcript == old(link.transcript)
  {
    ghost var w0 := link.writes;
    link.Write(SaveCommand(prog, qual));
    var response := link.Read();
    if checkBusy && Contains(response, BusyBanner) {
      return None;
    }
    link.Write(RequestFrame);
    ghost var w1 := link.writes;
    var raw := ReadStream(link);
    CloseSave(link);
    data := Some(raw);
    assert w1 == w0 + [SaveCommand(prog, qual), RequestFrame];
    AppendAssoc(w0, [SaveCommand(prog, qual), RequestFrame], SaveCloseWrites);
  }

  /** The end of `__get_savefile`: acknowledge, line end, acknowledge, and the read
      up to the prompt. */
  method CloseSave(link: Link)
    modifies link
    ensures link.writes == old(link.writes) + SaveCloseWrites && link.input == Tail(old(link.input))
    ensures link.logging == old(link.logging)
    ensures !link.logging ==> link.transcript == old(link.transcript)
  {
    link.Write(EndFrame);
    link.Write("\r\n");
    link.Write(EndFrame);
    var response := link.Read();
  }

  // ---------------------------------------------------------------------------
  // Properties of the stream loop

  /** Reading `[h] + rest`: the first read and then the rest. */
  lemma ReadsCons(script: seq<string>, n: nat)
    requires n >= 1
    ensures ReadsOf(script, n) == [Head(script)] + ReadsOf(Tail(script), n - 1)
    ensures Concat(ReadsOf(script, n)) == Head(script) + Concat(ReadsOf(Tail(script), n - 1))
    ensures DropReads(script, n) == DropReads(Tail(script), n - 1)
    ensures n >= 2 ==> Last(ReadsOf(script, n)) == Last(ReadsOf(Tail(script), n - 1))
  {
    var rs := ReadsOf(script, n);
    assert rs[1..] == ReadsOf(Tail(script), n - 1);
  }

  /** The loop's data is exactly what it read, and it left the script after its
      last read. */
  lemma {:induction false} SaveLoopReads(script: seq<string>, boundary: bool)
    ensures var r := SaveLoop(script, boundary);
      && r.count >= 1
      && r.raw == Concat(ReadsOf(script, r.count))
      && r.rest == DropReads(script, r.count)
    decreases 2 * |script| + (if boundary then 0 else 1), 1
  {
    if boundary {
      BoundaryReads(script, boundary);
    } else {
      ChunkReads(script, boundary);
    }
  }

  /** `SaveLoopReads` for a loop that starts at a boundary read. */
  lemma {:induction false} BoundaryReads(script: seq<string>, boundary: bool)
    requires boundary
    ensures var r := SaveLoop(script, boundary);
      && r.count >= 1
      && r.raw == Concat(ReadsOf(script, r.count))
      && r.rest == DropReads(script, r.count)
    decreases 2 * |script|, 0
  {
    var r := SaveLoop(script, boundary);
    var first, eager := Head(script), Head(Tail(script));
    ReadsCons(script, r.count);
    if first == "" {
      assert ReadsOf(Tail(script), 0) == [];
    } else {
      ReadsCons(Tail(script), r.count - 1);
      if eager == "" || Contains(eager, EndMarker) {
        assert ReadsOf(Tail(Tail(script)), 0) == [];
        assert eager + "" == eager;
      } else {
        var q := SaveLoop(Tail(Tail(script)), false);
        assert r == SaveRead(first + eager + q.raw, q.rest, 2 + q.count);
        SaveLoopReads(Tail(Tail(script)), false);
        AppendAssoc(first, eager, q.raw);
      }
    }
  }

  /** `SaveLoopReads` for a loop that starts at a chunk read. */
  lemma {:induction false} ChunkReads(script: seq<string>, boundary: bool)
    requires !boundary
    ensures var r := SaveLoop(script, boundary);
      && r.count >= 1
      && r.raw == Concat(ReadsOf(script, r.count))
      && r.rest == DropReads(script, r.count)
    decreases 2 * |script| + 1, 0
  {
    var r := SaveLoop(script, boundary);
    var chunk := Head(script);
    if Contains(chunk, EndMarker) {
      assert r == SaveRead(chunk, Tail(script), 1);
      ReadsCons(script, 1);
      assert Concat(ReadsOf(Tail(script), 0)) == "";
      assert chunk + "" == chunk;
    } else {
      var q := SaveLoop(Tail(script), true);
      assert r == SaveRead(chunk + q.raw, q.rest, 1 + q.count);
      SaveLoopReads(Tail(script), true);
      ReadsCons(script, r.count);
    }
  }

  /** Where a read falls in the loop's cycle: 0 for the read at a block boundary,
      1 for the eager read after it, 2 for the read between boundaries.  A loop
      entered at a boundary starts the cycle at 0, otherwise at 2. */
  function ReadKind(j: nat, boundary: bool): nat {
    (j + (if boundary then 0 else 2)) % 3
  }

  /** Whether the read `x`, of the given kind, ends the loop: an empty boundary
      read, an empty or end-marked eager read, an end-marked read between
      boundaries. */
  predicate EndsLoop(x: string, kind: nat) {
    || (kind == 0 && x == "")
    || (kind == 1 && (x == "" || Contains(x, EndMarker)))
    || (kind == 2 && Contains(x, EndMarker))
  }

  lemma KindShift(j: nat, boundary: bool)
    ensures boundary ==> ReadKind(j + 2, true) == ReadKind(j, false)
    ensures !boundary ==> ReadKind(j + 1, false) == ReadKind(j, true)
  {
  }

  /** The loop's last read ends it. */
  lemma {:induction false} SaveLoopLastEnds(script: seq<string>, boundary: bool)
    ensures var r := SaveLoop(script, boundary);
      r.count >= 1 && EndsLoop(Last(ReadsOf(script, r.count)), ReadKind(r.count - 1, boundary))
    decreases 2 * |script| + (if boundary then 0 else 1), 2
  {
    if boundary {
      BoundaryLastEnds(script, boundary);
    } else {
      ChunkLastEnds(script, boundary);
    }
  }

  /** `SaveLoopLastEnds` for a loop that starts at a boundary read. */
  lemma {:induction false} BoundaryLastEnds(script: seq<string>, boundary: bool)
    requires boundary
    ensures var r := SaveLoop(script, boundary);
      r.count >= 1 && EndsLoop(Last(ReadsOf(script, r.count)), ReadKind(r.count - 1, boundary))
    decreases 2 * |script|, 1
  {
    var r := SaveLoop(script, boundary);
    var first, eager := Head(script), Head(Tail(script));
    if first == "" {
      assert r.count == 1 && ReadsOf(script, 1) == [first];
      assert EndsLoop(first, ReadKind(0, true));
    } else if eager == "" || Contains(eager, EndMarker) {
      assert r.count == 2 && ReadsOf(script, 2) == [first, eager];
      assert EndsLoop(eager, ReadKind(1, true));
    } else {
      BoundaryGoesOn(script);
    }
  }

  /** `BoundaryLastEnds` when the first two reads do not end the loop. */
  lemma {:induction false} BoundaryGoesOn(script: seq<string>)
    requires Head(script) != ""
    requires !(Head(Tail(script)) == "" || Contains(Head(Tail(script)), EndMarker))
    ensures var r := SaveLoop(script, true);
      r.count >= 1 && EndsLoop(Last(ReadsOf(script, r.count)), ReadKind(r.count - 1, true))
    decreases 2 * |script|, 0
  {
    var r := SaveLoop(script, true);
    var q := SaveLoop(Tail(Tail(script)), false);
    assert r == SaveRead(Head(script) + Head(Tail(script)) + q.raw, q.rest, 2 + q.count);
    SaveLoopLastEnds(Tail(Tail(script)), false);
    assert Last(ReadsOf(script, r.count)) == Last(ReadsOf(Tail(Tail(script)), q.count)) by {
      ReadsLast(script, r.count);
      ReadsLast(Tail(script), r.count - 1);
    }
    assert ReadKind(r.count - 1, true) == ReadKind(q.count - 1, false) by {
      KindShift(q.count - 1, true);
    }
  }

  /** `SaveLoopLastEnds` for a loop that starts at a chunk read. */
  lemma {:induction false} ChunkLastEnds(script: seq<string>, boundary: bool)
    requires !boundary
    ensures var r := SaveLoop(script, boundary);
      r.count >= 1 && EndsLoop(Last(ReadsOf(script, r.count)), ReadKind(r.count - 1, boundary))
    decreases 2 * |script| + 1, 1
  {
    var r := SaveLoop(script, boundary);
    var chunk := Head(script);
    if Contains(chunk, EndMarker) {
      assert r == SaveRead(chunk, Tail(script), 1);
      assert ReadsOf(script, 1) == [chunk];
      assert EndsLoop(chunk, ReadKind(0, false));
    } else {
      var q := SaveLoop(Tail(script), true);
      assert r == SaveRead(chunk + q.raw, q.rest, 1 + q.count);
      SaveLoopLastEnds(Tail(script), true);
      assert Last(ReadsOf(script, r.count)) == Last(ReadsOf(Tail(script), q.count)) by {
        ReadsLast(script, r.count);
      }
      assert ReadKind(r.count - 1, false) == ReadKind(q.count - 1, true) by {
        KindShift(q.count - 1, false);
      }
    }
  }

  /** The last of two or more reads is the last of the reads after the first. */
  lemma ReadsLast(script: seq<string>, n: nat)
    requires n >= 2
    ensures Last(ReadsOf(script, n)) == Last(ReadsOf(Tail(script), n - 1))
  {
  }

  /** No read before the loop's last one ends it. */
  lemma {:induction false} SaveLoopNoEarlyEnd(script: seq<string>, boundary: bool)
    ensures var r := SaveLoop(script, boundary);
      var rs := ReadsOf(script, r.count);
      forall j :: 0 <= j < r.count - 1 ==> !EndsLoop(rs[j], ReadKind(j, boundary))
    decreases 2 * |script| + (if boundary then 0 else 1), 1
  {
    var first, eager := Head(script), Head(Tail(script));
    if boundary && first != "" && !(eager == "" || Contains(eager, EndMarker)) {
      BoundaryNoEarlyEnd(script, boundary);
    } else if !boundary && !Contains(first, EndMarker) {
      ChunkNoEarlyEnd(script, boundary);
    }
  }

  /** `SaveLoopNoEarlyEnd` when the loop goes on past a boundary and its eager read. */
  lemma {:induction false} BoundaryNoEarlyEnd(script: seq<string>, boundary: bool)
    requires boundary && Head(script) != ""
    requires !(Head(Tail(script)) == "" || Contains(Head(Tail(script)), EndMarker))
    ensures var r := SaveLoop(script, boundary);
      var rs := ReadsOf(script, r.count);
      forall j :: 0 <= j < r.count - 1 ==> !EndsLoop(rs[j], ReadKind(j, boundary))
    decreases 2 * |script|, 0
  {
    var first, eager := Head(script), Head(Tail(script));
    var r := SaveLoop(script, true);
    var rs := ReadsOf(script, r.count);
    var q := SaveLoop(Tail(Tail(script)), false);
    var qs := ReadsOf(Tail(Tail(script)), q.count);
    assert r == SaveRead(first + eager + q.raw, q.rest, 2 + q.count);
    assert ReadsOf(Tail(script), r.count - 1) == [eager] + qs;
    assert rs == [first] + ([eager] + qs);
    SaveLoopNoEarlyEnd(Tail(Tail(script)), false);
    assert rs[0] == first && rs[1] == eager;
    assert ReadKind(0, true) == 0 && ReadKind(1, true) == 1;
    forall j | 0 <= j < r.count - 1
      ensures !EndsLoop(rs[j], ReadKind(j, true))
    {
      if j >= 2 {
        assert rs[j] == qs[j - 2];
        KindShift(j - 2, true);
      }
    }
  }

  /** `SaveLoopNoEarlyEnd` when the loop goes on past a chunk read. */
  lemma {:induction false} ChunkNoEarlyEnd(script: seq<string>, boundary: bool)
    requires !boundary && !Contains(Head(script), EndMarker)
    ensures var r := SaveLoop(script, boundary);
      var rs := ReadsOf(script, r.count);
      forall j :: 0 <= j < r.count - 1 ==> !EndsLoop(rs[j], ReadKind(j, boundary))
    decreases 2 * |script| + 1, 0
  {
    var r := SaveLoop(script, false);
    var rs := ReadsOf(script, r.count);
    var q := SaveLoop(Tail(script), true);
    var qs := ReadsOf(Tail(script), q.count);
    assert r == SaveRead(Head(script) + q.raw, q.rest, 1 + q.count);
    assert rs == [Head(script)] + qs;
    SaveLoopNoEarlyEnd(Tail(script), true);
    assert rs[0] == Head(script) && ReadKind(0, false) == 2;
    forall j | 0 <= j < r.count - 1
      ensures !EndsLoop(rs[j], ReadKind(j, false))
    {
      if j >= 1 {
        assert rs[j] == qs[j - 1];
        KindShift(j - 1, false);
      }
    }
  }

  /** The loop ends exactly at the first read that ends it: its last read ends the
      loop, and no read before it does. */
  lemma SaveLoopStops(script: seq<string>, boundary: bool)
    ensures var r := SaveLoop(script, boundary);
      var rs := ReadsOf(script, r.count);
      && r.count >= 1
      && EndsLoop(Last(rs), ReadKind(r.count - 1, boundary))
      && forall j :: 0 <= j < r.count - 1 ==> !EndsLoop(rs[j], ReadKind(j, boundary))
  {
    SaveLoopLastEnds(script, boundary);
    SaveLoopNoEarlyEnd(script, boundary);
  }

  /** Between boundaries an empty read does not end the loop: it goes on to the next
      boundary. */
  lemma EmptyChunkContinues(rest: seq<string>)
    ensures SaveLoop([""] + rest, false).count == 1 + SaveLoop(rest, true).count
  {
    assert !Contains("", EndMarker);
    assert Tail([""] + rest) == rest;
  }

  /** At a boundary an empty read ends the loop at once, with no data. */
  lemma EmptyBoundaryStops(rest: seq<string>)
    ensures SaveLoop([""] + rest, true) == SaveRead("", rest, 1)
  {
    assert Tail([""] + rest) == rest;
  }

  /** A busy controller gets the save command and nothing else: no request frame is
      sent and nothing is returned.  Without the busy check the same reply is treated
      as the start of the transfer. */
  lemma BusySaveSendsNoRequest(prog: Option<string>, qual: string, script: seq<string>)
    requires Contains(Head(script), BusyBanner)
    ensures SaveDialogue(prog, qual, true, script).data.None?
    ensures RequestFrame !in SaveDialogue(prog, qual, true, script).out
    ensures SaveDialogue(prog, qual, false, script).data.Some?
    ensures SaveDialogue(prog, qual, false, script).out[1] == RequestFrame
  {
    assert SaveCommand(prog, qual)[..4] == "save";
  }

  /** The busy check only matters when the first reply carries the busy banner. */
  lemma BusyCheckOnlyOnBanner(prog: Option<string>, qual: string, script: seq<string>)
    requires !Contains(Head(script), BusyBanner)
    ensures SaveDialogue(prog, qual, true, script) == SaveDialogue(prog, qual, false, script)
    ensures SaveDialogue(prog, qual, true, script).out
      == [SaveCommand(prog, qual), RequestFrame, EndFrame, "\r\n", EndFrame]
  {
  }

  /** The program name can be read back from the save command. */
  lemma SaveCommandNamesProgram(prog: Option<string>, qual: string)
    ensures var c := SaveCommand(prog, qual); var h := "save" + qual + " file.as";
      && StartsWith(c, h) && |c| >= |h| + 2 && c[|c| - 2..] == "\r\n"
      && (prog.None? <==> c[|h|..|c| - 2] == "")
      && (prog.Some? ==> c[|h|..|c| - 2] == "=" + prog.value)
  {
    var c := SaveCommand(prog, qual);
    var h := "save" + qual + " file.as";
    assert c == h + ProgText(prog) + "\r\n";
    assert c[..|h|] == h;
    assert c[|h|..|c| - 2] == ProgText(prog);
  }
}
