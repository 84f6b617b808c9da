/** Post-processing of the raw bytes captured by `save`: control sequences are
    stripped, the data is split into lines and banner lines are dropped. */
module Clean {
  import opened Text
  import opened Transport

  const ETB: char := '\U{17}'
  const ENQ: char := '\U{05}'
  const STX: char := '\U{02}'

  /** The six texts the pattern `\x17?\x05\x02[DE]?` matches. */
  const ControlTexts: set<string> :=
    {[ENQ, STX], [ENQ, STX, 'D'], [ENQ, STX, 'E'], [ETB, ENQ, STX], [ETB, ENQ, STX, 'D'], [ETB, ENQ, STX, 'E']}

  lemma ControlTextOf(pre: string, post: string)
    requires pre == [] || pre == [ETB]
    requires post == [] || post == ['D'] || post == ['E']
    ensures pre + [ENQ, STX] + post in ControlTexts
  {
    var m := pre + [ENQ, STX] + post;
    if pre == [] && post == [] {
      assert m == [ENQ, STX];
    } else if pre == [] {
      assert m == [ENQ, STX, post[0]];
    } else if post == [] {
      assert m == [ETB, ENQ, STX];
    } else {
      assert m == [ETB, ENQ, STX, post[0]];
    }
  }

  /** Length of a match of the pattern `\x17?\x05\x02[DE]?` anchored at the start of
      `s`, or 0 when there is none.  The optional ETB is taken only when ENQ STX
      follows it (greedy match with backtracking). */
  function ControlMatch(s: string): (n: nat)
    ensures n <= |s|
    ensures n > 0 <==> StartsWith(s, [ENQ, STX]) || StartsWith(s, [ETB, ENQ, STX])
    ensures n > 0 ==> s[..n] in ControlTexts
    ensures StartsWith(s, [ETB, ENQ, STX]) ==> n >= 3
    ensures 0 < n < |s| ==> !(s[n - 1] == STX && (s[n] == 'D' || s[n] == 'E'))
  {
    var k := if |s| >= 3 && s[0] == ETB && s[1] == ENQ && s[2] == STX then 1 else 0;
    if |s| >= k + 2 && s[k] == ENQ && s[k + 1] == STX then
      var letter := |s| > k + 2 && (s[k + 2] == 'D' || s[k + 2] == 'E');
      var n := k + 2 + (if letter then 1 else 0);
      var pre := if k == 1 then [ETB] else [];
      var post := if letter then [s[k + 2]] else [];
      assert s[..n] == pre + [ENQ, STX] + post;
      ControlTextOf(pre, post);
      n
    else 0
  }

  /** `re.sub(rb'\x17{0,1}\x05\x02[DE]{0,1}', b'', s)`: scans left to right and removes
      every non-overlapping match. */
  function StripControl(s: string): (r: string)
    ensures |r| <= |s|
    decreases |s|
  {
    if s == [] then []
    else
      var n := ControlMatch(s);
      if n > 0 then StripControl(s[n..]) else [s[0]] + StripControl(s[1..])
  }

  /** A control sequence followed by `D` or `E` is removed together with the letter. */
  lemma StripControlLetter(c: char, s: string)
    requires c == 'D' || c == 'E'
    ensures StripControl([ENQ, STX, c] + s) == StripControl(s)
    ensures StripControl([ETB, ENQ, STX, c] + s) == StripControl(s)
  {
    var a := [ENQ, STX, c] + s;
    assert a[..2] == [ENQ, STX] && a[2] == c;
    assert ControlMatch(a) == 3;
    assert a[3..] == s;
    var b := [ETB, ENQ, STX, c] + s;
    assert b[..3] == [ETB, ENQ, STX] && b[3] == c;
    assert ControlMatch(b) == 4;
    assert b[4..] == s;
  }

  /** Data without ENQ holds no control sequence: stripping leaves it unchanged. */
  lemma {:induction false} StripControlIdentity(s: string)
    requires ENQ !in s
    ensures StripControl(s) == s
    decreases |s|
  {
    if s != [] {
      assert ControlMatch(s) == 0;
      assert ENQ !in s[1..];
      StripControlIdentity(s[1..]);
    }
  }

  predicate IsBreak(c: char) {
    c == '\n' || c == '\r'
  }

  /** Index of the first line break in `s`, or `|s|` when there is none. */
  function BreakAt(s: string): (k: nat)
    ensures k <= |s|
    ensures forall j :: 0 <= j < k ==> !IsBreak(s[j])
    ensures k < |s| ==> IsBreak(s[k])
  {
    if s == [] then 0
    else if IsBreak(s[0]) then 0
    else 1 + BreakAt(s[1..])
  }

  /** Python `bytes.splitlines()`: `\n`, `\r` and `\r\n` end a line, the terminators
      are dropped, and a final terminator does not open an empty last line. */
  function SplitLines(s: string): seq<string>
    decreases |s|
  {
    if s == [] then []
    else
      var k := BreakAt(s);
      if k == |s| then [s]
      else
        var next := if s[k] == '\r' && k + 1 < |s| && s[k + 1] == '\n' then k + 2 else k + 1;
        [s[..k]] + SplitLines(s[next..])
  }

  ghost predicate NoBreaks(line: string) {
    forall j :: 0 <= j < |line| ==> !IsBreak(line[j])
  }

  /** What `save` writes to the file: every line followed by `\n`. */
  function JoinLines(lines: seq<string>): string {
    if lines == [] then "" else lines[0] + "\n" + JoinLines(lines[1..])
  }

  /** No line produced by `SplitLines` contains a line break. */
  lemma {:induction false} SplitLinesNoBreaks(s: string)
    ensures forall i :: 0 <= i < |SplitLines(s)| ==> NoBreaks(SplitLines(s)[i])
    decreases |s|
  {
    if s != [] {
      var k := BreakAt(s);
      if k < |s| {
        var next := if s[k] == '\r' && k + 1 < |s| && s[k + 1] == '\n' then k + 2 else k + 1;
        SplitLinesNoBreaks(s[next..]);
        var rest := SplitLines(s[next..]);
        var lines := SplitLines(s);
        assert lines == [s[..k]] + rest;
        forall i | 0 <= i < |lines|
          ensures NoBreaks(lines[i])
        {
          if i == 0 {
            forall j | 0 <= j < k
              ensures !IsBreak(s[..k][j])
            {
              assert s[..k][j] == s[j];
            }
          } else {
            assert lines[i] == rest[i - 1];
          }
        }
      }
    }
  }

  lemma BreakAtLine(line: string, tail: string)
    requires NoBreaks(line)
    ensures BreakAt(line + "\n" + tail) == |line|
    decreases |line|
  {
    if line != [] {
      assert (line + "\n" + tail)[1..] == line[1..] + "\n" + tail;
      BreakAtLine(line[1..], tail);
    }
  }

  /** Splitting the saved file gives back exactly the lines that were written. */
  lemma {:induction false} SplitJoinLines(lines: seq<string>)
    requires forall i :: 0 <= i < |lines| ==> NoBreaks(lines[i])
    ensures SplitLines(JoinLines(lines)) == lines
  {
    if lines != [] {
      var s := JoinLines(lines);
      var l0 := lines[0];
      var tail := JoinLines(lines[1..]);
      assert s == l0 + "\n" + tail;
      BreakAtLine(l0, tail);
      assert s[..|l0|] == l0;
      assert s[|l0|] == '\n';
      assert s[|l0| + 1..] == tail;
      assert SplitLines(s) == [l0] + SplitLines(tail);
      forall i | 0 <= i < |lines[1..]|
        ensures NoBreaks(lines[1..][i])
      {
        assert lines[1..][i] == lines[i + 1];
      }
      SplitJoinLines(lines[1..]);
      assert lines == [l0] + lines[1..];
    }
  }

  /** A split line that `__process_data` keeps as program text. */
  predicate Keep(line: string) {
    line != "" && !StartsWith(line, [ETB]) && !StartsWith(line, "Bfile.as") && !StartsWith(line, "=")
  }

  /** The program-text lines of `lines`, in order. */
  function Kept(lines: seq<string>): seq<string> {
    if lines == [] then [] else (if Keep(lines[0]) then [lines[0]] else []) + Kept(lines[1..])
  }

  lemma {:induction false} KeptAppend(lines: seq<string>, line: string)
    ensures Kept(lines + [line]) == Kept(lines) + (if Keep(line) then [line] else [])
  {
    if lines == [] {
      assert [] + [line] == [line];
      assert Kept([line]) == (if Keep(line) then [line] else []) + Kept([]);
    } else {
      var h := if Keep(lines[0]) then [lines[0]] else [];
      var x := if Keep(line) then [line] else [];
      assert (lines + [line])[0] == lines[0];
      assert (lines + [line])[1..] == lines[1..] + [line];
      assert Kept(lines + [line]) == h + Kept(lines[1..] + [line]);
      KeptAppend(lines[1..], line);
      AppendAssoc(h, Kept(lines[1..]), x);
    }
  }

  /** `line.replace(b'\x17', b'')`. */
  function EraseEtb(s: string): (r: string)
    ensures ETB !in r && |r| + multiset(s)[ETB] == |s|
    ensures forall c :: c in r ==> c in s
    ensures ETB !in s ==> r == s
  {
    if s == [] then []
    else
      assert s == [s[0]] + s[1..];
      (if s[0] == ETB then [] else [s[0]]) + EraseEtb(s[1..])
  }

  /** Erasing works piecewise: the characters other than ETB stay, in order. */
  lemma {:induction false} EraseEtbAppend(a: string, b: string)
    ensures EraseEtb(a + b) == EraseEtb(a) + EraseEtb(b)
  {
    if a != [] {
      assert (a + b)[0] == a[0] && (a + b)[1..] == a[1..] + b;
      EraseEtbAppend(a[1..], b);
      AppendAssoc(if a[0] == ETB then [] else [a[0]], EraseEtb(a[1..]), EraseEtb(b));
    } else {
      assert a + b == b;
    }
  }

  /** The log entry `__process_data` makes for one split line: none for a kept
      line or the `Bfile.as` header, otherwise the line without ETB and with `\n`. */
  function DropNote(line: string): seq<string> {
    if Keep(line) || StartsWith(line, "Bfile.as") then [] else [EraseEtb(line) + "\n"]
  }

  /** The log entries for the dropped lines of `lines`, in order. */
  function Dropped(lines: seq<string>): seq<string> {
    if lines == [] then [] else DropNote(lines[0]) + Dropped(lines[1..])
  }

  lemma {:induction false} DroppedAppend(lines: seq<string>, line: string)
    ensures Dropped(lines + [line]) == Dropped(lines) + DropNote(line)
  {
    if lines == [] {
      assert [] + [line] == [line];
      assert Dropped([line]) == DropNote(line) + Dropped([]);
    } else {
      var h := DropNote(lines[0]);
      assert (lines + [line])[0] == lines[0];
      assert (lines + [line])[1..] == lines[1..] + [line];
      assert Dropped(lines + [line]) == h + Dropped(lines[1..] + [line]);
      DroppedAppend(lines[1..], line);
      AppendAssoc(h, Dropped(lines[1..]), DropNote(line));
    }
  }

  /** Every split line is kept, noted in the log, or is a `Bfile.as` header; with
      no header among them the kept lines and the notes account for all lines. */
  lemma {:induction false} EveryLineAccounted(lines: seq<string>)
    ensures |Kept(lines)| + |Dropped(lines)| <= |lines|
    ensures (forall i :: 0 <= i < |lines| ==> !StartsWith(lines[i], "Bfile.as")) ==>
              |Kept(lines)| + |Dropped(lines)| == |lines|
  {
    if lines != [] {
      EveryLineAccounted(lines[1..]);
      if forall i :: 0 <= i < |lines| ==> !StartsWith(lines[i], "Bfile.as") {
        assert forall i :: 0 <= i < |lines[1..]| ==> lines[1..][i] == lines[i + 1];
      }
    }
  }

  /** Every kept line is one of the input lines and is program text. */
  lemma {:induction false} KeptFromLines(lines: seq<string>)
    ensures forall x :: x in Kept(lines) ==> x in lines && Keep(x)
  {
    if lines != [] {
      KeptFromLines(lines[1..]);
    }
  }

  /** The file `save` writes splits back into exactly the kept lines. */
  lemma SavedFileReadsBack(data: string)
    ensures var kept := Kept(SplitLines(StripControl(data)));
      SplitLines(JoinLines(kept)) == kept
  {
    var lines := SplitLines(StripControl(data));
    var kept := Kept(lines);
    SplitLinesNoBreaks(StripControl(data));
    KeptFromLines(lines);
    forall i | 0 <= i < |kept|
      ensures NoBreaks(kept[i])
    {
      assert kept[i] in kept;
      var j :| 0 <= j < |lines| && lines[j] == kept[i];
    }
    SplitJoinLines(kept);
  }

  /** One more line extends the kept lines and the log notes by that line's share. */
  lemma KeepStep(lines: seq<string>, i: nat)
    requires i < |lines|
    ensures Kept(lines[..i + 1]) == Kept(lines[..i]) + (if Keep(lines[i]) then [lines[i]] else [])
    ensures Dropped(lines[..i + 1]) == Dropped(lines[..i]) + DropNote(lines[i])
  {
    assert lines[..i + 1] == lines[..i] + [lines[i]];
    KeptAppend(lines[..i], lines[i]);
    DroppedAppend(lines[..i], lines[i]);
  }

  /** `clean` holds, in order, exactly the lines among the first `n` that pass the
      keep test, and `picked` their indices. */
  ghost predicate PickedUpTo(lines: seq<string>, n: nat, clean: seq<string>, picked: seq<nat>) {
    && n <= |lines|
    && |picked| == |clean|
    && (forall j :: 0 <= j < |clean| ==> picked[j] < n && clean[j] == lines[picked[j]])
    && (forall j, j' :: 0 <= j < j' < |picked| ==> picked[j] < picked[j'])
    && (forall k :: 0 <= k < n ==> (Keep(lines[k]) <==> k in picked))
  }

  lemma PickStep(lines: seq<string>, i: nat, clean: seq<string>, picked: seq<nat>)
    requires i < |lines| && PickedUpTo(lines, i, clean, picked)
    ensures Keep(lines[i]) ==> PickedUpTo(lines, i + 1, clean + [lines[i]], picked + [i])
    ensures !Keep(lines[i]) ==> PickedUpTo(lines, i + 1, clean, picked)
  {
    if !Keep(lines[i]) {
      assert i !in picked;
    }
  }

  /** The indices of the lines that pass the keep test, in increasing order. */
  ghost function KeptIndices(lines: seq<string>): seq<nat> {
    if lines == [] then []
    else
      var n := |lines| - 1;
      KeptIndices(lines[..n]) + (if Keep(lines[n]) then [n] else [])
  }

  /** What holds of a prefix holds of the whole list up to the prefix's length. */
  lemma PickedPrefix(lines: seq<string>, m: nat, clean: seq<string>, picked: seq<nat>)
    requires m <= |lines| && PickedUpTo(lines[..m], m, clean, picked)
    ensures PickedUpTo(lines, m, clean, picked)
  {
    forall k | 0 <= k < m
      ensures lines[..m][k] == lines[k]
    {
    }
  }

  /** `Kept` is the filter: it holds, in order, exactly the lines that pass the keep
      test, at increasing indices. */
  lemma {:induction false} KeptIsFilter(lines: seq<string>)
    ensures PickedUpTo(lines, |lines|, Kept(lines), KeptIndices(lines))
  {
    if lines != [] {
      var n := |lines| - 1;
      var init := lines[..n];
      KeptIsFilter(init);
      assert init[..n] == init;
      PickedPrefix(lines, n, Kept(init), KeptIndices(init));
      PickStep(lines, n, Kept(init), KeptIndices(init));
      assert init + [lines[n]] == lines;
      KeptAppend(init, lines[n]);
    }
  }

  /** The else branch of the loop: log a dropped line unless it is the header. */
  method NoteDropped(link: Link, line: string)
    requires !Keep(line)
    modifies link`transcript
    ensures link.transcript == old(link.transcript) + (if link.logging then DropNote(line) else [])
  {
    if !StartsWith(line, "Bfile.as") {
      link.Note(EraseEtb(line) + "\n");
    }
  }

  /** The filter loop of `__process_data`: keeps exactly the lines that are program
      text, in their original order (`picked` are their indices). */
  method KeepLines(link: Link, lines: seq<string>) returns (clean: seq<string>)
    modifies link`transcript
    ensures clean == Kept(lines)
    ensures link.transcript == old(link.transcript) + (if link.logging then Dropped(lines) else [])
  {
    clean := [];
    ghost var t0 := link.transcript;
    var i := 0;
    while i < |lines|
      invariant 0 <= i <= |lines|
      invariant clean == Kept(lines[..i])
      invariant link.transcript == t0 + (if link.logging then Dropped(lines[..i]) else [])
    {
      KeepStep(lines, i);
      var line := lines[i];
      AppendAssoc(t0, Dropped(lines[..i]), DropNote(line));
      if Keep(line) {
        clean := clean + [line];
      } else {
        NoteDropped(link, line);
      }
      i := i + 1;
    }
    assert lines[..i] == lines;
  }

  /** `__process_data`: strip the control sequences, split into lines, keep the
      program text and log the other lines. */
  method ProcessData(link: Link, data: string) returns (clean: seq<string>)
    modifies link`transcript
    ensures var lines := SplitLines(StripControl(data));
      && clean == Kept(lines)
      && link.transcript == old(link.transcript) + (if link.logging then Dropped(lines) else [])
  {
    var stripped := StripControl(data);
    clean := KeepLines(link, SplitLines(stripped));
  }
}
