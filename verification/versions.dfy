/**
  `String.prototype.split('.')` and its inverse `Array.prototype.join('.')`,
  as used to turn the configured version string into `parsedVersion`.
 */
module Versions {

  const Dot: char := '.'

  /**
    JavaScript `s.split('.')`: the maximal dot-free pieces of `s`, in order.
    The empty string splits into one empty piece, and adjacent dots give
    empty pieces between them.
   */
  function Split(s: string): (parts: seq<string>)
    ensures |parts| >= 1
    ensures forall i :: 0 <= i < |parts| ==> Dot !in parts[i]
  {
    if |s| == 0 then [""]
    else
      var rest := Split(s[1..]);
      if s[0] == Dot then [""] + rest
      else [[s[0]] + rest[0]] + rest[1..]
  }

  /** JavaScript `parts.join('.')`. */
  function Join(parts: seq<string>): string
    requires |parts| >= 1
  {
    if |parts| == 1 then parts[0] else parts[0] + [Dot] + Join(parts[1..])
  }

  /** Joining the pieces back with dots gives the original string. */
  lemma {:induction false} JoinSplit(s: string)
    ensures Join(Split(s)) == s
  {
    if |s| == 0 {
    } else {
      var rest := Split(s[1..]);
      JoinSplit(s[1..]);
      if s[0] == Dot {
        assert Split(s) == [""] + rest;
        assert ([""] + rest)[1..] == rest;
        assert Join(Split(s)) == "" + [Dot] + s[1..];
        assert s == [s[0]] + s[1..];
      } else {
        var head := [s[0]] + rest[0];
        assert Split(s) == [head] + rest[1..];
        if |rest| == 1 {
          assert Join(Split(s)) == head;
          assert Join(rest) == rest[0];
        } else {
          assert ([head] + rest[1..])[1..] == rest[1..];
          assert Join(Split(s)) == head + [Dot] + Join(rest[1..]);
          assert Join(rest) == rest[0] + [Dot] + Join(rest[1..]);
        }
        assert s == [s[0]] + s[1..];
      }
    }
  }

  /** A dot-free string is its own single piece. */
  lemma {:induction false} SplitDotFree(p: string)
    requires Dot !in p
    ensures Split(p) == [p]
  {
    if |p| > 0 {
      SplitDotFree(p[1..]);
      assert p == [p[0]] + p[1..];
    }
  }

  /** Splitting `p.t` with `p` dot-free peels `p` off as the first piece. */
  lemma {:induction false} SplitAfterDot(p: string, t: string)
    requires Dot !in p
    ensures Split(p + [Dot] + t) == [p] + Split(t)
  {
    if |p| == 0 {
      assert p + [Dot] + t == [Dot] + t;
      assert ([Dot] + t)[1..] == t;
    } else {
      var s := p + [Dot] + t;
      assert s[0] == p[0];
      assert s[1..] == p[1..] + [Dot] + t;
      SplitAfterDot(p[1..], t);
      assert [p[0]] + p[1..] == p;
    }
  }

  /** Splitting the join of dot-free pieces gives the pieces back. */
  lemma {:induction false} SplitJoin(parts: seq<string>)
    requires |parts| >= 1
    requires forall i :: 0 <= i < |parts| ==> Dot !in parts[i]
    ensures Split(Join(parts)) == parts
  {
    if |parts| == 1 {
      SplitDotFree(parts[0]);
    } else {
      SplitJoin(parts[1..]);
      SplitAfterDot(parts[0], Join(parts[1..]));
      assert [parts[0]] + parts[1..] == parts;
    }
  }

  /** The default version `'1.1'` parses to `["1", "1"]`. */
  lemma DefaultVersionParts()
    ensures Split("1.1") == ["1", "1"]
  {
    SplitAfterDot("1", "1");
    SplitDotFree("1");
  }
}
