/**
 * The LIKE operator: `%` matches any run of characters (possibly empty),
 * `_` matches exactly one character, every other character matches itself.
 */
module LikePattern {

  const AnyRun: char := '%'
  const AnyOne: char := '_'

  predicate IsWildcard(c: char) {
    c == AnyRun || c == AnyOne
  }

  /** Does the text `s` match the LIKE pattern `p`? */
  predicate Matches(p: string, s: string)
    decreases |p| + |s|
  {
    if p == [] then s == []
    else if p[0] == AnyRun then Matches(p[1..], s) || (s != [] && Matches(p, s[1..]))
    else s != [] && (p[0] == AnyOne || p[0] == s[0]) && Matches(p[1..], s[1..])
  }

  /** A pattern without wildcards matches exactly the text equal to it. */
  lemma {:induction false} LiteralMatchesItself(p: string, s: string)
    requires forall i :: 0 <= i < |p| ==> !IsWildcard(p[i])
    ensures Matches(p, s) <==> s == p
  {
    if p != [] && s != [] {
      LiteralMatchesItself(p[1..], s[1..]);
      if p[0] == s[0] && p[1..] == s[1..] {
        assert s == [s[0]] + s[1..] && p == [p[0]] + p[1..];
      }
    }
  }

  /** `%` alone matches every text. */
  lemma {:induction false} AnyRunMatchesAll(s: string)
    ensures Matches([AnyRun], s)
  {
    if s != [] {
      AnyRunMatchesAll(s[1..]);
    }
  }

  /** The pattern `%c%`, for an ordinary character c, matches exactly the texts that contain c. */
  lemma {:induction false} ContainsPattern(c: char, s: string)
    requires !IsWildcard(c)
    ensures Matches([AnyRun, c, AnyRun], s) <==> c in s
  {
    var p := [AnyRun, c, AnyRun];
    assert p[1..] == [c, AnyRun];
    assert [c, AnyRun][1..] == [AnyRun];
    if s == [] {
      assert !Matches([c, AnyRun], s);
    } else {
      AnyRunMatchesAll(s[1..]);
      assert Matches([c, AnyRun], s) <==> s[0] == c;
      ContainsPattern(c, s[1..]);
      assert c in s <==> s[0] == c || c in s[1..] by {
        assert s == [s[0]] + s[1..];
      }
    }
  }
}
