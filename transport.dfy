/** The Telnet connection as the dialogue sees it: a finite script of read results
    and a record of every write.  Each read (`read_until`, `expect`, `read_eager`)
    takes the next scripted result; past the end of the script a read returns the
    empty string, as telnetlib does when its timeout expires with nothing buffered. */
module Transport {
  import opened Text

  /** The result of the next read. */
  function Head(script: seq<string>): string {
    if script == [] then "" else script[0]
  }

  /** The script after one read. */
  function Tail(script: seq<string>): seq<string> {
    if script == [] then [] else script[1..]
  }

  /** The results of the next `n` reads. */
  function ReadsOf(script: seq<string>, n: nat): (rs: seq<string>)
    ensures |rs| == n
  {
    if n == 0 then [] else [Head(script)] + ReadsOf(Tail(script), n - 1)
  }

  /** The script after `n` reads. */
  function DropReads(script: seq<string>, n: nat): seq<string> {
    if n == 0 then script else DropReads(Tail(script), n - 1)
  }

  /** One more read consumes the next result. */
  lemma {:induction false} DropReadsStep(script: seq<string>, n: nat)
    ensures DropReads(script, n + 1) == Tail(DropReads(script, n))
  {
    if n > 0 {
      DropReadsStep(Tail(script), n - 1);
    }
  }

  /** One more read extends the reads by the next result. */
  lemma {:induction false} ReadsOfStep(script: seq<string>, n: nat)
    ensures ReadsOf(script, n + 1) == ReadsOf(script, n) + [Head(DropReads(script, n))]
    ensures DropReads(script, n + 1) == Tail(DropReads(script, n))
  {
    DropReadsStep(script, n);
    if n == 0 {
      assert ReadsOf(script, 1) == [Head(script)] + ReadsOf(Tail(script), 0);
    } else {
      ReadsOfStep(Tail(script), n - 1);
      var h := [Head(script)];
      var rest := ReadsOf(Tail(script), n - 1);
      var next := [Head(DropReads(script, n))];
      assert DropReads(script, n) == DropReads(Tail(script), n - 1);
      assert ReadsOf(Tail(script), n) == rest + next;
      assert ReadsOf(script, n + 1) == h + (rest + next);
      assert ReadsOf(script, n) == h + rest;
      AppendAssoc(h, rest, next);
    }
  }

  /** The session's I/O: the Telnet connection and the log file.  The log records
      every payload written or read while logging is on; its text filtering (control
      sequences removed, CRLF turned into LF) is not modelled. */
  class Link {
    /** The read results still to come. */
    var input: seq<string>
    /** Every payload written, in order. */
    var writes: seq<string>
    /** Whether traffic is copied to the log file. */
    var logging: bool
    /** The payloads copied to the log file, in order. */
    var transcript: seq<string>

    constructor (script: seq<string>)
      ensures input == script && writes == [] && !logging && transcript == []
    {
      input := script;
      writes := [];
      logging := false;
      transcript := [];
    }

    /** `__write`: send `data` and log it. */
    method Write(data: string)
      modifies this
      ensures writes == old(writes) + [data] && input == old(input) && logging == old(logging)
      ensures transcript == old(transcript) + (if logging then [data] else [])
    {
      writes := writes + [data];
      if logging {
        transcript := transcript + [data];
      }
    }

    /** `__log` on data that is neither sent nor read: a log entry only. */
    method Note(entry: string)
      modifies this`transcript
      ensures transcript == old(transcript) + (if logging then [entry] else [])
    {
      if logging {
        transcript := transcript + [entry];
      }
    }

    /** One read (`__read_until`, `__read_until_many`, `__read_eager`) and its log entry. */
    method Read() returns (r: string)
      modifies this
      ensures r == Head(old(input)) && input == Tail(old(input))
      ensures writes == old(writes) && logging == old(logging)
      ensures transcript == old(transcript) + (if logging then [r] else [])
    {
      if input == [] {
        r := "";
      } else {
        r := input[0];
        input := input[1..];
      }
      if logging {
        transcript := transcript + [r];
      }
    }
  }
}
