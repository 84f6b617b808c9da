/** Chunking of program text for `load`: whole-line packing (current engine) and
    fixed-width slicing (legacy engine). */
module Blocks {
  import opened Text

  /** Line budget of one block, in characters. */
  const MaxChars := 492

  /** Greedy packing: `block` is the block being filled, `lines` the lines still to
      place.  A line that would bring the block to `MaxChars - 2` or more closes the
      current block (even an empty one) and starts the next; a final empty block is
      not emitted. */
  function PackFrom(block: string, lines: seq<string>): seq<string>
    decreases |lines|
  {
    if lines == [] then (if block != "" then [block] else [])
    else if |block| + |lines[0]| + 2 >= MaxChars then [block] + PackFrom(lines[0], lines[1..])
    else PackFrom(block + lines[0], lines[1..])
  }

  function Pack(lines: seq<string>): seq<string> {
    PackFrom("", lines)
  }

  /** The lines that went into each block of `PackFrom(Concat(cur), lines)`, where
      `cur` holds the lines of the block being filled.  A final group whose text is
      empty is dropped together with its block. */
  ghost function GroupsFrom(cur: seq<string>, lines: seq<string>): seq<seq<string>>
    decreases |lines|
  {
    if lines == [] then (if Concat(cur) != "" then [cur] else [])
    else if |Concat(cur)| + |lines[0]| + 2 >= MaxChars then [cur] + GroupsFrom([lines[0]], lines[1..])
    else GroupsFrom(cur + [lines[0]], lines[1..])
  }

  /** `__split_content_to_blocks`: the loop over the lines, updating `block` and
      appending to the block list. */
  method SplitContentToBlocks(content: seq<string>) returns (blocks: seq<string>)
    ensures blocks == Pack(content)
    ensures Concat(blocks) == Concat(content)
    ensures blocks != [] ==> Last(blocks) != ""
  {
    blocks := [];
    var block := "";
    var i := 0;
    while i < |content|
      invariant 0 <= i <= |content|
      invariant blocks + PackFrom(block, content[i..]) == Pack(content)
    {
      var line := content[i];
      assert content[i..][0] == line && content[i..][1..] == content[i + 1..];
      if |block| + |line| + 2 >= MaxChars {
        assert PackFrom(block, content[i..]) == [block] + PackFrom(line, content[i + 1..]);
        AppendAssoc(blocks, [block], PackFrom(line, content[i + 1..]));
        blocks := blocks + [block];
        block := "";
        assert block + line == line;
      } else {
        assert PackFrom(block, content[i..]) == PackFrom(block + line, content[i + 1..]);
      }
      block := block + line;
      i := i + 1;
    }
    assert content[i..] == [];
    if block != "" {
      blocks := blocks + [block];
    }
    PackConcat(content);
    PackLastNotEmpty(content);
  }

  lemma {:induction false} PackFromConcat(block: string, lines: seq<string>)
    ensures Concat(PackFrom(block, lines)) == block + Concat(lines)
    decreases |lines|
  {
    if lines == [] {
      if block != "" {
        ConcatSingle(block);
      }
    } else {
      var tail := Concat(lines[1..]);
      assert Concat(lines) == lines[0] + tail;
      if |block| + |lines[0]| + 2 >= MaxChars {
        var rest := PackFrom(lines[0], lines[1..]);
        assert PackFrom(block, lines) == [block] + rest;
        PackFromConcat(lines[0], lines[1..]);
        assert ([block] + rest)[1..] == rest;
        assert Concat([block] + rest) == block + Concat(rest);
      } else {
        assert PackFrom(block, lines) == PackFrom(block + lines[0], lines[1..]);
        PackFromConcat(block + lines[0], lines[1..]);
        AppendAssoc(block, lines[0], tail);
      }
    }
  }

  /** Joining the blocks gives back the joined input lines. */
  lemma PackConcat(lines: seq<string>)
    ensures Concat(Pack(lines)) == Concat(lines)
  {
    PackFromConcat("", lines);
  }

  lemma {:induction false} PackFromLastNotEmpty(block: string, lines: seq<string>)
    requires block == "" ==> lines == [] || |lines[0]| + 2 < MaxChars || lines[0] != ""
    ensures PackFrom(block, lines) != [] ==> Last(PackFrom(block, lines)) != ""
    decreases |lines|
  {
    if lines != [] {
      if |block| + |lines[0]| + 2 >= MaxChars {
        var rest := PackFrom(lines[0], lines[1..]);
        PackFromLastNotEmpty(lines[0], lines[1..]);
        if rest == [] {
          PackFromConcat(lines[0], lines[1..]);
          assert block != "";
        }
      } else {
        PackFromLastNotEmpty(block + lines[0], lines[1..]);
      }
    }
  }

  /** The packer never emits a final empty block. */
  lemma PackLastNotEmpty(lines: seq<string>)
    ensures Pack(lines) != [] ==> Last(Pack(lines)) != ""
  {
    PackFromLastNotEmpty("", lines);
  }

  /** A first line that alone reaches the budget flushes the still-empty first block. */
  lemma PackLeadingEmptyBlock(lines: seq<string>)
    requires lines != [] && |lines[0]| + 2 >= MaxChars
    ensures |Pack(lines)| >= 2 && Pack(lines)[0] == "" && Pack(lines)[1] == lines[0]
  {
    PackFromConcat(lines[0], lines[1..]);
  }

  lemma {:induction false} PackFromSingle(block: string, lines: seq<string>)
    requires block + Concat(lines) != ""
    requires |block| + |Concat(lines)| + 2 < MaxChars
    ensures PackFrom(block, lines) == [block + Concat(lines)]
    decreases |lines|
  {
    if lines == [] {
      assert block + Concat(lines) == block;
    } else {
      assert Concat(lines) == lines[0] + Concat(lines[1..]);
      assert block + Concat(lines) == (block + lines[0]) + Concat(lines[1..]);
      assert |block| + |lines[0]| + 2 < MaxChars;
      PackFromSingle(block + lines[0], lines[1..]);
    }
  }

  /** Non-empty text that fits the budget with its line terminator is sent as one block. */
  lemma PackSingle(lines: seq<string>)
    requires Concat(lines) != "" && |Concat(lines)| + 2 < MaxChars
    ensures Pack(lines) == [Concat(lines)]
  {
    assert "" + Concat(lines) == Concat(lines);
    PackFromSingle("", lines);
  }

  /** `cur` is a block in the making: short, or a single (possibly long) line. */
  ghost predicate Forming(cur: seq<string>) {
    |Concat(cur)| < MaxChars - 2 || |cur| == 1
  }

  lemma ConcatSingle(s: string)
    ensures Concat([s]) == s
  {
    assert [s][1..] == [];
    assert Flatten([s]) == s + Flatten([s][1..]);
  }

  /** Each block is the text of its group, and is short or a single line. */
  lemma {:induction false} GroupsFromBlocks(cur: seq<string>, lines: seq<string>)
    requires Forming(cur)
    ensures var g := GroupsFrom(cur, lines); var p := PackFrom(Concat(cur), lines);
      && |g| == |p|
      && (forall k :: 0 <= k < |g| ==> p[k] == Concat(g[k]))
      && (forall k :: 0 <= k < |g| ==> |p[k]| < MaxChars - 2 || |g[k]| == 1)
    decreases |lines|
  {
    var g := GroupsFrom(cur, lines);
    var p := PackFrom(Concat(cur), lines);
    if lines != [] {
      var l0, rest := lines[0], lines[1..];
      ConcatSingle(l0);
      if |Concat(cur)| + |l0| + 2 >= MaxChars {
        GroupsFromBlocks([l0], rest);
        var g' := GroupsFrom([l0], rest);
        var p' := PackFrom(l0, rest);
        assert g == [cur] + g' && p == [Concat(cur)] + p';
        forall k | 0 <= k < |g|
          ensures p[k] == Concat(g[k]) && (|p[k]| < MaxChars - 2 || |g[k]| == 1)
        {
          if k > 0 {
            assert g[k] == g'[k - 1] && p[k] == p'[k - 1];
          }
        }
      } else {
        ConcatAppend(cur, [l0]);
        assert Concat(cur + [l0]) == Concat(cur) + l0;
        GroupsFromBlocks(cur + [l0], rest);
      }
    }
  }

  /** The groups take the lines in order; whatever no group takes is empty text. */
  lemma {:induction false} GroupsFromLines(cur: seq<string>, lines: seq<string>)
    ensures var g := GroupsFrom(cur, lines);
      && |Flatten(g)| <= |cur + lines|
      && Flatten(g) == (cur + lines)[..|Flatten(g)|]
      && Concat((cur + lines)[|Flatten(g)|..]) == ""
    decreases |lines|
  {
    var g := GroupsFrom(cur, lines);
    if lines == [] {
      assert cur + lines == cur;
      if Concat(cur) != "" {
        assert Flatten(g) == cur by { assert g[1..] == []; }
      }
    } else {
      var l0, rest := lines[0], lines[1..];
      assert lines == [l0] + rest;
      if |Concat(cur)| + |l0| + 2 >= MaxChars {
        GroupsFromLines([l0], rest);
        var g' := GroupsFrom([l0], rest);
        assert g == [cur] + g';
        assert g[1..] == g';
        assert Flatten(g) == cur + Flatten(g');
        var n := |Flatten(g')|;
        assert ([l0] + rest)[..n] == Flatten(g');
        assert (cur + lines)[..|Flatten(g)|] == cur + ([l0] + rest)[..n];
        assert (cur + lines)[|Flatten(g)|..] == ([l0] + rest)[n..];
      } else {
        GroupsFromLines(cur + [l0], rest);
        assert (cur + [l0]) + rest == cur + lines;
      }
    }
  }

  /** Every line lies wholly inside one block and the blocks take the lines in input
      order (only trailing empty lines may be absorbed by no block); a block is either
      a single line or shorter than 490 characters. */
  lemma PackGroups(lines: seq<string>)
    ensures var g := GroupsFrom([], lines); var p := Pack(lines);
      && |g| == |p|
      && (forall k :: 0 <= k < |g| ==> p[k] == Concat(g[k]))
      && (forall k :: 0 <= k < |g| ==> |p[k]| < MaxChars - 2 || |g[k]| == 1)
      && |Flatten(g)| <= |lines|
      && Flatten(g) == lines[..|Flatten(g)|]
      && Concat(lines[|Flatten(g)|..]) == ""
  {
    assert [] + lines == lines;
    GroupsFromBlocks([], lines);
    GroupsFromLines([], lines);
  }

  /** Legacy chunking: consecutive slices of `MaxChars` characters (the list
      comprehension over `range(0, len(content), 492)`). */
  function Slices(content: string): (pieces: seq<string>)
    ensures Concat(pieces) == content
    ensures |content| <= |pieces| * MaxChars < |content| + MaxChars
    ensures forall k :: 0 <= k < |pieces| - 1 ==> |pieces[k]| == MaxChars
    ensures pieces != [] ==> 1 <= |Last(pieces)| <= MaxChars
    decreases |content|
  {
    if content == [] then []
    else if |content| <= MaxChars then ConcatSingle(content); [content]
    else
      var rest := Slices(content[MaxChars..]);
      assert ([content[..MaxChars]] + rest)[1..] == rest;
      [content[..MaxChars]] + rest
  }
}
