/**
 * Dotted scope names such as "q.w.e": `get_child` and `get_injector` split them on '.'
 * with Python's `str.split('.')`, which keeps empty segments ("a..b" has three).
 */
module DottedNames {

  const Separator: char := '.'

  /** Python's `s.split('.')`: the maximal runs between separators, empty ones included. */
  function Split(s: string): (segs: seq<string>)
    ensures |segs| == Occurrences(s) + 1
    ensures forall i :: 0 <= i < |segs| ==> Separator !in segs[i]
    decreases |s|
  {
    if |s| == 0 then [""]
    else
      var rest := Split(s[1..]);
      if s[0] == Separator then [""] + rest
      else [[s[0]] + rest[0]] + rest[1..]
  }

  /** Number of separators in `s`. */
  function Occurrences(s: string): nat
    decreases |s|
  {
    if |s| == 0 then 0 else (if s[0] == Separator then 1 else 0) + Occurrences(s[1..])
  }

  /** Python's `'.'.join(segs)`, the inverse of `Split`. */
  function Join(segs: seq<string>): string
    requires |segs| >= 1
    decreases |segs|
  {
    if |segs| == 1 then segs[0] else segs[0] + [Separator] + Join(segs[1..])
  }

  /** Prefixing the first segment prefixes the joined name. */
  lemma {:induction false} JoinPrefixesHead(x: string, segs: seq<string>)
    requires |segs| >= 1
    ensures Join([x + segs[0]] + segs[1..]) == x + Join(segs)
  {
    var t := [x + segs[0]] + segs[1..];
    if |segs| > 1 {
      assert t[1..] == segs[1..];
    }
  }

  /** Joining the segments of a name gives the name back. */
  lemma {:induction false} JoinSplit(s: string)
    ensures Join(Split(s)) == s
    decreases |s|
  {
    if |s| > 0 {
      var rest := Split(s[1..]);
      JoinSplit(s[1..]);
      if s[0] == Separator {
        assert ([""] + rest)[1..] == rest;
        assert s == [s[0]] + s[1..];
      } else {
        JoinPrefixesHead([s[0]], rest);
        assert [[s[0]] + rest[0]] + rest[1..] == Split(s);
        assert s == [s[0]] + s[1..];
      }
    }
  }

  /** A separator-free prefix only extends the first segment. */
  lemma {:induction false} SplitPrefix(x: string, s: string)
    requires Separator !in x
    ensures Split(x + s) == [x + Split(s)[0]] + Split(s)[1..]
    decreases |x|
  {
    if |x| == 0 {
      var segs := Split(s);
      assert x + s == s && x + segs[0] == segs[0];
      assert [segs[0]] + segs[1..] == segs;
    } else {
      var xs := x + s;
      assert xs[0] == x[0] && xs[1..] == x[1..] + s;
      SplitPrefix(x[1..], s);
      assert [x[0]] + (x[1..] + Split(s)[0]) == x + Split(s)[0];
    }
  }

  /** Splitting a join of separator-free segments gives the segments back. */
  lemma {:induction false} SplitJoin(segs: seq<string>)
    requires |segs| >= 1
    requires forall i :: 0 <= i < |segs| ==> Separator !in segs[i]
    ensures Split(Join(segs)) == segs
    decreases |segs|
  {
    if |segs| == 1 {
      SplitPrefix(segs[0], "");
      assert segs[0] + "" == segs[0];
    } else {
      var tail := Join(segs[1..]);
      SplitJoin(segs[1..]);
      var dotted := [Separator] + tail;
      assert dotted[0] == Separator && dotted[1..] == tail;
      assert Split(dotted) == [""] + segs[1..];
      SplitPrefix(segs[0], dotted);
      assert segs[0] + [Separator] + tail == segs[0] + dotted;
      assert segs[0] + "" == segs[0];
      assert [segs[0]] + segs[1..] == segs;
    }
  }
}
