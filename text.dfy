/** Byte-string helpers shared by the whole model.
    The controller protocol is ASCII: every `char` of a `string` stands for one byte. */
module Text {

  datatype Option<+T> = None | Some(value: T)

  /** `p` is a prefix of `s` (Python `s.startswith(p)`). */
  predicate StartsWith(s: string, p: string) {
    |p| <= |s| && s[..|p|] == p
  }

  /** `p` occurs somewhere in `s` (Python `p in s`). */
  predicate Contains(s: string, p: string)
    decreases |s|
  {
    StartsWith(s, p) || (s != [] && Contains(s[1..], p))
  }

  /** The sequences of `ss` one after the other. */
  function Flatten<T>(ss: seq<seq<T>>): seq<T> {
    if ss == [] then [] else ss[0] + Flatten(ss[1..])
  }

  /** Python `b''.join(ss)`. */
  function Concat(ss: seq<string>): string {
    Flatten(ss)
  }

  function Last<T>(s: seq<T>): T
    requires s != []
  {
    s[|s| - 1]
  }

  /** Number of empty strings in `ss`. */
  function CountEmpty(ss: seq<string>): nat {
    if ss == [] then 0 else (if ss[0] == "" then 1 else 0) + CountEmpty(ss[1..])
  }

  lemma ConcatAppend(a: seq<string>, b: seq<string>)
    ensures Concat(a + b) == Concat(a) + Concat(b)
  {
    FlattenAppend(a, b);
  }

  lemma {:induction false} FlattenAppend<T>(a: seq<seq<T>>, b: seq<seq<T>>)
    ensures Flatten(a + b) == Flatten(a) + Flatten(b)
  {
    if a == [] {
      assert a + b == b;
    } else {
      assert (a + b)[1..] == a[1..] + b;
      FlattenAppend(a[1..], b);
    }
  }

  lemma {:induction false} CountEmptyAppend(a: seq<string>, b: seq<string>)
    ensures CountEmpty(a + b) == CountEmpty(a) + CountEmpty(b)
  {
    if a == [] {
      assert a + b == b;
    } else {
      assert (a + b)[1..] == a[1..] + b;
      CountEmptyAppend(a[1..], b);
    }
  }

  lemma AppendAssoc<T>(a: seq<T>, b: seq<T>, c: seq<T>)
    ensures (a + b) + c == a + (b + c)
  {
  }

  lemma AppendAssoc5<T>(a: seq<T>, b: seq<T>, c: seq<T>, d: seq<T>, e: seq<T>)
    ensures a + b + c + d + e == a + (b + c + d + e)
  {
    AppendAssoc(a, b, c);
    AppendAssoc(a, b + c, d);
    AppendAssoc(a, b + c + d, e);
  }

  /** Dropping the first part of a concatenation leaves the second. */
  lemma DropFront<T>(a: seq<T>, b: seq<T>)
    ensures (a + b)[|a|..] == b
  {
  }

  /** Starting with a one-character string is a test of the first character. */
  lemma StartsWithChar(s: string, c: char)
    ensures StartsWith(s, [c]) <==> s != [] && s[0] == c
  {
    if s != [] {
      assert s[..1] == [s[0]];
    }
  }

  /** A string that starts with `p` contains it. */
  lemma StartsWithContains(s: string, p: string)
    requires StartsWith(s, p)
    ensures Contains(s, p)
  {
  }
}
