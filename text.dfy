/**
 * Swift's `joined(separator:)`, which the macro uses to lay out one entry
 * per field, and its inverse on lines, used to state that the laid-out text
 * holds exactly those entries.
 */
module Text {

  /** `xs.joined(separator: sep)`. */
  function Join(xs: seq<string>, sep: string): string
    decreases |xs|
  {
    if |xs| == 0 then ""
    else if |xs| == 1 then xs[0]
    else xs[0] + sep + Join(xs[1..], sep)
  }

  /** Cuts `s` at every `c`; the pieces hold no `c` and there is one more piece than cuts. */
  function Split(s: string, c: char): (pieces: seq<string>)
    ensures |pieces| >= 1
    ensures forall k :: 0 <= k < |pieces| ==> c !in pieces[k]
    decreases |s|
  {
    if s == [] then [""]
    else
      var rest := Split(s[1..], c);
      if s[0] == c then [""] + rest
      else [[s[0]] + rest[0]] + rest[1..]
  }

  /** The lines of `s`. */
  function Lines(s: string): seq<string> {
    Split(s, '\n')
  }

  /** `xs` with `p` appended to every entry but the last. */
  function Punctuate(xs: seq<string>, p: string): (ys: seq<string>)
    ensures |ys| == |xs|
  {
    seq(|xs|, k requires 0 <= k < |xs| => if k < |xs| - 1 then xs[k] + p else xs[k])
  }

  /** Appending nothing leaves the entries as they are. */
  lemma PunctuateNothing(xs: seq<string>)
    ensures Punctuate(xs, "") == xs
  {
    forall k | 0 <= k < |xs| ensures Punctuate(xs, "")[k] == xs[k] {
      assert xs[k] + "" == xs[k];
    }
  }

  /** A text without the separator is one piece. */
  lemma {:induction false} SplitWhole(s: string, c: char)
    requires c !in s
    ensures Split(s, c) == [s]
    decreases |s|
  {
    if s != [] {
      SplitWhole(s[1..], c);
      assert [s[0]] + s[1..] == s;
    }
  }

  /** Splitting at one separator splits the two sides independently. */
  lemma {:induction false} SplitAround(a: string, c: char, b: string)
    ensures Split(a + [c] + b, c) == Split(a, c) + Split(b, c)
    decreases |a|
  {
    var s := a + [c] + b;
    if a == [] {
      assert s[0] == c && s[1..] == b;
    } else {
      assert s[0] == a[0] && s[1..] == a[1..] + [c] + b;
      SplitAround(a[1..], c, b);
      assert a[1..] == [] ==> a == [a[0]];
    }
  }

  /**
   * Joining entries that hold no line break with a separator that ends in
   * one line break gives one line per entry, each but the last ending in the
   * rest of the separator; no entries give one empty line.
   */
  lemma {:induction false} LinesOfJoin(xs: seq<string>, p: string)
    requires forall k :: 0 <= k < |xs| ==> '\n' !in xs[k]
    requires '\n' !in p
    ensures Lines(Join(xs, p + "\n")) == if xs == [] then [""] else Punctuate(xs, p)
    decreases |xs|
  {
    if |xs| == 1 {
      SplitWhole(xs[0], '\n');
    } else if |xs| > 1 {
      var head, rest := xs[0] + p, xs[1..];
      var tail := Join(rest, p + "\n");
      assert Lines(tail) == Punctuate(rest, p) by {
        LinesOfJoin(rest, p);
      }
      assert Join(xs, p + "\n") == head + ['\n'] + tail;
      assert Lines(head + ['\n'] + tail) == [head] + Lines(tail) by {
        SplitAround(head, '\n', tail);
        SplitWhole(head, '\n');
      }
      assert Punctuate(xs, p) == [head] + Punctuate(rest, p);
    }
  }
}
