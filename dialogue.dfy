/** The command exchange and the pieces every dialogue shares: how a resolver's
    answers become writes, and one read-and-answer round. */
module Dialogue {
  import opened Text
  import opened Transport
  import opened Inquiry

  /** A resolver's answer as a list of writes: nothing for `None`. */
  function ReplyOf(o: Option<string>): seq<string> {
    if o.Some? then [o.value] else []
  }

  /** The writes a resolver makes in answer to the responses `rs`, in order. */
  function Replies(inq: string -> Option<string>, rs: seq<string>): seq<string> {
    if rs == [] then [] else ReplyOf(inq(rs[0])) + Replies(inq, rs[1..])
  }

  /** The traffic of answered responses: each response followed by its reply. */
  function Turns(inq: string -> Option<string>, rs: seq<string>): seq<string> {
    if rs == [] then [] else [rs[0]] + ReplyOf(inq(rs[0])) + Turns(inq, rs[1..])
  }

  /** The traffic of the command exchange after the command line: every response
      but the last followed by its reply, then the last response. */
  function ExchangeLog(inq: string -> Option<string>, rs: seq<string>): seq<string>
    requires rs != []
  {
    Turns(inq, rs[..|rs| - 1]) + [Last(rs)]
  }

  lemma {:induction false} TurnsAppend(inq: string -> Option<string>, rs: seq<string>, r: string)
    ensures Turns(inq, rs + [r]) == Turns(inq, rs) + ([r] + ReplyOf(inq(r)))
  {
    if rs == [] {
      assert [] + [r] == [r];
      assert Turns(inq, [r]) == [r] + ReplyOf(inq(r)) + Turns(inq, []);
    } else {
      assert (rs + [r])[1..] == rs[1..] + [r];
      TurnsAppend(inq, rs[1..], r);
      var h := [rs[0]] + ReplyOf(inq(rs[0]));
      AppendAssoc(h, Turns(inq, rs[1..]), [r] + ReplyOf(inq(r)));
    }
  }

  /** The exchange's traffic is its reads and its replies, nothing lost and
      nothing added: every response read, and the reply to each but the last. */
  lemma {:induction false} TurnsHoldsTraffic(inq: string -> Option<string>, rs: seq<string>)
    ensures multiset(Turns(inq, rs)) == multiset(rs) + multiset(Replies(inq, rs))
  {
    if rs != [] {
      TurnsHoldsTraffic(inq, rs[1..]);
      assert rs == [rs[0]] + rs[1..];
    }
  }

  /** One more round of the exchange adds the reply to the last response and the
      next response to its traffic. */
  /** One more round of the exchange, for the invariant of `CommandExchange`: the
      reply to the last response is written and the next result is read, so the
      writes grow by the reply and the traffic by the reply and the read. */
  lemma ExchangeStep(inq: string -> Option<string>, script: seq<string>, w0: seq<string>,
                     t0: seq<string>, cmd: string, responses: seq<string>)
    requires responses != [] && responses == ReadsOf(script, |responses|)
    requires inq(Last(responses)).Some?
    ensures var r := Head(DropReads(script, |responses|));
      var next := responses + [r];
      var v := inq(Last(responses)).value;
      && next == ReadsOf(script, |next|)
      && DropReads(script, |next|) == Tail(DropReads(script, |responses|))
      && w0 + Replies(inq, next[..|next| - 1]) == w0 + Replies(inq, responses[..|responses| - 1]) + [v]
      && Answered(inq, next[..|next| - 1]) == Answered(inq, responses[..|responses| - 1])
      && t0 + ([cmd + "\r\n"] + ExchangeLog(inq, next))
         == t0 + ([cmd + "\r\n"] + ExchangeLog(inq, responses)) + [v] + [r]
  {
    var r := Head(DropReads(script, |responses|));
    var v := inq(Last(responses)).value;
    ExchangeAdvance(inq, script, responses);
    AppendAssoc(w0, Replies(inq, responses[..|responses| - 1]), [v]);
    ExchangeLogAdvance(inq, responses, r);
    PushTwo([cmd + "\r\n"], ExchangeLog(inq, responses), v, r);
    PushTwo(t0, [cmd + "\r\n"] + ExchangeLog(inq, responses), v, r);
  }

  /** Two entries appended one at a time are the pair appended at once. */
  lemma PushTwo<T>(t: seq<T>, l: seq<T>, a: T, b: T)
    ensures t + l + [a] + [b] == t + (l + [a] + [b])
  {
  }

  lemma ExchangeLogAdvance(inq: string -> Option<string>, rs: seq<string>, r: string)
    requires rs != [] && inq(Last(rs)).Some?
    ensures ExchangeLog(inq, rs + [r]) == ExchangeLog(inq, rs) + [inq(Last(rs)).value] + [r]
  {
    var front := rs[..|rs| - 1];
    assert rs == front + [Last(rs)];
    assert (rs + [r])[..|rs|] == rs;
    TurnsAppend(inq, front, Last(rs));
    var v := inq(Last(rs)).value;
    assert Turns(inq, rs) == Turns(inq, front) + [Last(rs), v];
    calc {
      ExchangeLog(inq, rs + [r]);
      Turns(inq, rs) + [r];
      Turns(inq, front) + [Last(rs), v] + [r];
      { AppendAssoc(Turns(inq, front), [Last(rs)], [v]); }
      Turns(inq, front) + [Last(rs)] + [v] + [r];
    }
  }

  /** Every response in `rs` got a reply (the resolver never said "stop"). */
  predicate Answered(inq: string -> Option<string>, rs: seq<string>) {
    rs == [] || (inq(rs[0]).Some? && Answered(inq, rs[1..]))
  }

  lemma {:induction false} AnsweredAppend(inq: string -> Option<string>, rs: seq<string>, r: string)
    ensures Answered(inq, rs + [r]) <==> Answered(inq, rs) && inq(r).Some?
  {
    if rs != [] {
      assert (rs + [r])[1..] == rs[1..] + [r];
      AnsweredAppend(inq, rs[1..], r);
    } else {
      assert ([r])[1..] == [];
    }
  }

  /** `Answered` says that no response in the list made the resolver stop. */
  lemma {:induction false} AnsweredMeans(inq: string -> Option<string>, rs: seq<string>)
    ensures Answered(inq, rs) <==> forall j :: 0 <= j < |rs| ==> inq(rs[j]).Some?
  {
    if rs != [] {
      AnsweredMeans(inq, rs[1..]);
      if Answered(inq, rs) {
        forall j | 0 <= j < |rs| ensures inq(rs[j]).Some? {
          if j > 0 {
            assert rs[j] == rs[1..][j - 1];
          }
        }
      } else if inq(rs[0]).Some? {
        var j :| 0 <= j < |rs[1..]| && inq(rs[1..][j]).None?;
        assert rs[j + 1] == rs[1..][j];
      }
    }
  }

  lemma {:induction false} RepliesAppend(inq: string -> Option<string>, rs: seq<string>, r: string)
    ensures Replies(inq, rs + [r]) == Replies(inq, rs) + ReplyOf(inq(r))
  {
    if rs == [] {
      assert [] + [r] == [r];
      assert Replies(inq, [r]) == ReplyOf(inq(r)) + Replies(inq, []);
    } else {
      assert (rs + [r])[1..] == rs[1..] + [r];
      RepliesAppend(inq, rs[1..], r);
    }
  }

  // ---------------------------------------------------------------------------
  // Command exchange

  /** One more round of the command loop extends the reads by the next result and
      the replies by the answer to the previous response. */
  lemma ExchangeAdvance(inq: string -> Option<string>, script: seq<string>, responses: seq<string>)
    requires responses != [] && responses == ReadsOf(script, |responses|)
    ensures var next := responses + [Head(DropReads(script, |responses|))];
      && next == ReadsOf(script, |next|)
      && DropReads(script, |next|) == Tail(DropReads(script, |responses|))
      && Replies(inq, next[..|next| - 1]) == Replies(inq, responses[..|responses| - 1]) + ReplyOf(inq(Last(responses)))
      && (Answered(inq, next[..|next| - 1]) <==> Answered(inq, responses[..|responses| - 1]) && inq(Last(responses)).Some?)
  {
    ReadsOfStep(script, |responses|);
    var next := responses + [Head(DropReads(script, |responses|))];
    assert next[..|next| - 1] == responses == responses[..|responses| - 1] + [Last(responses)];
    RepliesAppend(inq, responses[..|responses| - 1], Last(responses));
    AnsweredAppend(inq, responses[..|responses| - 1], Last(responses));
  }

  /** `command`'s loop: write the command line, then read, ask the resolver, and
      write its reply until the resolver answers `None`.  The source's loop has no
      bound; here it runs at most `fuel` rounds after the first read, and
      `finished` says whether the resolver stopped it. */
  method CommandExchange(link: Link, inq: string -> Option<string>, cmd: string, fuel: nat)
    returns (responses: seq<string>, finished: bool)
    modifies link
    ensures 1 <= |responses| <= fuel + 1
    ensures responses == ReadsOf(old(link.input), |responses|)
    ensures link.input == DropReads(old(link.input), |responses|)
    ensures Answered(inq, responses[..|responses| - 1])
    ensures finished <==> inq(Last(responses)).None?
    ensures !finished ==> |responses| == fuel + 1
    ensures link.writes == old(link.writes) + [cmd + "\r\n"] + Replies(inq, responses[..|responses| - 1])
    ensures link.logging == old(link.logging)
    ensures link.transcript == old(link.transcript) +
      (if link.logging then [cmd + "\r\n"] + ExchangeLog(inq, responses) else [])
  {
    ghost var in0 := link.input;
    ghost var w0 := link.writes + [cmd + "\r\n"];
    ghost var t0 := link.transcript;
    ghost var on := link.logging;
    link.Write(cmd + "\r\n");
    var response := link.Read();
    responses := [response];
    var rounds := 0;
    assert responses[..0] == [];
    assert ExchangeLog(inq, responses) == [response];
    var request := inq(response);
    while request.Some? && rounds < fuel
      invariant rounds <= fuel && |responses| == rounds + 1 && response == Last(responses)
      invariant request == inq(response)
      invariant responses == ReadsOf(in0, |responses|)
      invariant link.input == DropReads(in0, |responses|)
      invariant Answered(inq, responses[..|responses| - 1])
      invariant link.writes == w0 + Replies(inq, responses[..|responses| - 1])
      invariant link.logging == on
      invariant on ==> link.transcript == t0 + ([cmd + "\r\n"] + ExchangeLog(inq, responses))
      invariant !on ==> link.transcript == t0
      decreases fuel - rounds
    {
      ExchangeStep(inq, in0, w0, t0, cmd, responses);
      link.Write(request.value);
      response := link.Read();
      responses := responses + [response];
      rounds := rounds + 1;
      request := inq(response);
    }
    finished := request.None?;
  }

  /** Against a controller that has stopped sending, the default command resolver
      never answers `None` (an empty buffer asks for the empty reply), so the
      exchange only ends when its fuel runs out. */
  lemma SilentPeerNeverFinishes(n: nat)
    ensures forall j :: 0 <= j < n ==> DefaultCmdInquiry(ReadsOf([], n)[j]) == Some("")
  {
    forall j | 0 <= j < n
      ensures ReadsOf([], n)[j] == ""
    {
      SilentReads(n, j);
    }
  }

  lemma {:induction false} SilentReads(n: nat, j: nat)
    requires j < n
    ensures ReadsOf([], n)[j] == ""
  {
    if j > 0 {
      SilentReads(n - 1, j - 1);
    }
  }

  /** Frame that acknowledges the end of a transfer. */
  const EndFrame := "\U{02}E    0\U{17}"

  /** One round of a transfer loop: read once and write the resolver's reply, if any. */
  method Answer(link: Link, inq: string -> Option<string>) returns (response: string)
    modifies link
    ensures response == Head(old(link.input)) && link.input == Tail(old(link.input))
    ensures link.writes == old(link.writes) + ReplyOf(inq(response))
    ensures link.logging == old(link.logging)
    ensures link.transcript == old(link.transcript) + (if link.logging then [response] + ReplyOf(inq(response)) else [])
  {
    response := link.Read();
    var request := inq(response);
    if request.Some? {
      link.Write(request.value);
    }
  }
}
