/**
  Joining a list of strings with a separator, as Python's `str.join` does, and
  splitting on the `", "` separator, as `str.split(", ")` does. The song record
  only ever joins; splitting is here as the inverse that shows which joins lose
  nothing.
 */
module Strings {

  /** The separator the song record puts between the items of a multi-valued tag. */
  const Separator: string := ", "

  /** Sum of the lengths of the parts. */
  function TotalLength(parts: seq<string>): nat
  {
    if |parts| == 0 then 0 else |parts[0]| + TotalLength(parts[1..])
  }

  /** `sep.join(parts)`: the parts in order, with `sep` between neighbours. */
  function Join(parts: seq<string>, sep: string): (r: string)
    ensures |r| == TotalLength(parts) + (if |parts| == 0 then 0 else |sep| * (|parts| - 1))
    ensures |parts| > 0 ==> r[..|parts[0]|] == parts[0]
  {
    if |parts| == 0 then ""
    else if |parts| == 1 then parts[0]
    else parts[0] + sep + Join(parts[1..], sep)
  }

  /** True iff `s` has an occurrence of `", "`. */
  predicate ContainsSeparator(s: string)
  {
    |s| >= 2 && ((s[0] == ',' && s[1] == ' ') || ContainsSeparator(s[1..]))
  }

  /** `s.split(", ")`: the maximal pieces between occurrences of the separator, left to right. */
  function Split(s: string): (r: seq<string>)
    ensures |r| >= 1
    decreases |s|
  {
    if |s| < 2 then [s]
    else if s[0] == ',' && s[1] == ' ' then [""] + Split(s[2..])
    else
      var rest := Split(s[1..]);
      [[s[0]] + rest[0]] + rest[1..]
  }

  /** A string without the separator splits into itself. */
  lemma {:induction false} SplitWithoutSeparator(p: string)
    requires !ContainsSeparator(p)
    ensures Split(p) == [p]
    decreases |p|
  {
    if |p| >= 2 {
      SplitWithoutSeparator(p[1..]);
      assert [p[0]] + p[1..] == p;
    }
  }

  /** A separator-free piece followed by the separator splits off as exactly one piece. */
  lemma {:induction false} SplitAfterPiece(p: string, t: string)
    requires !ContainsSeparator(p)
    ensures Split(p + Separator + t) == [p] + Split(t)
    decreases |p|
  {
    var s := p + Separator + t;
    if |p| == 0 {
      assert s[2..] == t;
    } else {
      assert s[0] == p[0];
      assert s[1] == (if |p| == 1 then ',' else p[1]);
      assert !ContainsSeparator(p[1..]);
      assert s[1..] == p[1..] + Separator + t;
      SplitAfterPiece(p[1..], t);
      assert [p[0]] + p[1..] == p;
    }
  }

  /**
    Splitting undoes joining with `", "` whenever there is at least one part and
    no part contains the separator itself.
   */
  lemma {:induction false} SplitJoin(parts: seq<string>)
    requires |parts| >= 1
    requires forall i :: 0 <= i < |parts| ==> !ContainsSeparator(parts[i])
    ensures Split(Join(parts, Separator)) == parts
    decreases |parts|
  {
    if |parts| == 1 {
      SplitWithoutSeparator(parts[0]);
    } else {
      SplitJoin(parts[1..]);
      SplitAfterPiece(parts[0], Join(parts[1..], Separator));
      assert [parts[0]] + parts[1..] == parts;
    }
  }
}
