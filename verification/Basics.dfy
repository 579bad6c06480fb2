/** Small things several components share. */
module Basics {

  datatype Option<+T> = None | Some(value: T)

  /** One second, in the nanoseconds the program's times and durations count. */
  const SECOND: int := 1_000_000_000
  const MINUTE: int := 60 * SECOND
  const HOUR: int := 60 * MINUTE

  function Last<T>(s: seq<T>): T
    requires |s| > 0
  {
    s[|s| - 1]
  }

  function Front<T>(s: seq<T>): seq<T>
    requires |s| > 0
  {
    s[..|s| - 1]
  }

  ghost predicate Distinct<T>(s: seq<T>) {
    forall i, j :: 0 <= i < j < |s| ==> s[i] != s[j]
  }

  lemma DistinctFront<T>(s: seq<T>)
    requires Distinct(s) && |s| > 0
    ensures Distinct(Front(s)) && Last(s) !in Front(s)
  {
  }

  lemma InFrontOrLast<T>(s: seq<T>, x: T)
    requires |s| > 0
    ensures x in s <==> x in Front(s) || x == Last(s)
  {
    assert s == Front(s) + [Last(s)];
  }

  lemma FrontOfSum<T>(s: seq<T>, t: seq<T>)
    requires |t| > 0
    ensures s + t != [] && Front(s + t) == s + Front(t) && Last(s + t) == Last(t)
  {
  }

  /** Joining two texts with a separator loses nothing when the first text is free of it.
      The program builds its map keys this way. */
  lemma JoinInjective(separator: char, a: string, b: string, c: string, d: string)
    requires separator !in a && separator !in c
    requires a + [separator] + b == c + [separator] + d
    ensures a == c && b == d
  {
    var joined := a + [separator] + b;
    assert joined[|a|] == separator && joined[|c|] == separator;
    assert forall i :: 0 <= i < |a| ==> joined[i] == a[i];
    assert forall i :: 0 <= i < |c| ==> joined[i] == c[i];
    assert |a| == |c|;
    assert a == joined[..|a|] == c && b == joined[|a| + 1..] == d;
  }
}
