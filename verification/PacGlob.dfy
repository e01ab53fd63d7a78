/** The `shExpMatch` wildcard matcher against its declarative meaning. */
module PacGlob {
  import opened Bytes

  const STAR: Byte := 42
  const QUESTION: Byte := 63

  predicate Matches(s: seq<Byte>, p: seq<Byte>)
    decreases |p|, |s|
  {
    if p == [] then s == []
    else if p[0] == STAR then
      Matches(s, p[1..]) || (s != [] && Matches(s[1..], p))
    else if s == [] then false
    else (p[0] == QUESTION || s[0] == p[0]) && Matches(s[1..], p[1..])
  }

  /** One pattern byte against the segment it is to cover. */
  predicate Covers(c: Byte, segment: seq<Byte>) {
    if c == STAR then true
    else if c == QUESTION then |segment| == 1
    else segment == [c]
  }

  function Join(parts: seq<seq<Byte>>): seq<Byte> {
    if parts == [] then [] else parts[0] + Join(parts[1..])
  }

  /** The string cut into one segment per pattern byte, each covered by its byte. */
  ghost predicate Cut(s: seq<Byte>, p: seq<Byte>, parts: seq<seq<Byte>>) {
    |parts| == |p| && Join(parts) == s && forall i :: 0 <= i < |p| ==> Covers(p[i], parts[i])
  }

  lemma {:induction false} MatchedHasCut(s: seq<Byte>, p: seq<Byte>) returns (parts: seq<seq<Byte>>)
    requires Matches(s, p)
    ensures Cut(s, p, parts)
    decreases |p|, |s|
  {
    if p == [] {
      parts := [];
    } else if p[0] == STAR && !Matches(s, p[1..]) {
      var rest := MatchedHasCut(s[1..], p);
      parts := [[s[0]] + rest[0]] + rest[1..];
      assert parts[1..] == rest[1..];
      assert Join(parts) == [s[0]] + (rest[0] + Join(rest[1..])) == [s[0]] + s[1..];
    } else {
      var n := if p[0] == STAR then 0 else 1;
      var rest := MatchedHasCut(s[n..], p[1..]);
      parts := [s[..n]] + rest;
      assert parts[1..] == rest;
      assert s == s[..n] + s[n..];
    }
  }

  lemma {:induction false} CutIsMatched(s: seq<Byte>, p: seq<Byte>, parts: seq<seq<Byte>>)
    requires Cut(s, p, parts)
    ensures Matches(s, p)
    decreases |p|, |s|
  {
    if p != [] {
      var tail := parts[1..];
      assert forall i :: 0 <= i < |p[1..]| ==> p[1..][i] == p[i + 1] && tail[i] == parts[i + 1];
      assert Covers(p[0], parts[0]);
      if parts[0] == [] {
        assert s == Join(tail);
        CutIsMatched(s, p[1..], tail);
      } else {
        var n := |parts[0]|;
        assert s[0] == parts[0][0];
        if p[0] == STAR {
          var shorter := [parts[0][1..]] + tail;
          assert shorter[1..] == tail;
          assert s[1..] == parts[0][1..] + Join(tail);
          CutIsMatched(s[1..], p, shorter);
        } else {
          assert s[1..] == Join(tail);
          CutIsMatched(s[1..], p[1..], tail);
        }
      }
    }
  }

  /** The matcher accepts exactly the strings that can be cut along the pattern. */
  lemma MatchesIsDeclarative(s: seq<Byte>, p: seq<Byte>)
    ensures Matches(s, p) <==> exists parts :: Cut(s, p, parts)
  {
    if Matches(s, p) {
      var parts := MatchedHasCut(s, p);
    }
    if exists parts :: Cut(s, p, parts) {
      var parts :| Cut(s, p, parts);
      CutIsMatched(s, p, parts);
    }
  }

  /** Runs of stars squeezed to one. */
  function Squeeze(p: seq<Byte>): seq<Byte> {
    if |p| < 2 then p
    else if p[0] == STAR && p[1] == STAR then Squeeze(p[1..])
    else [p[0]] + Squeeze(p[1..])
  }

  lemma {:induction false} DoubleStar(s: seq<Byte>, p: seq<Byte>)
    requires |p| >= 2 && p[0] == STAR && p[1] == STAR
    ensures Matches(s, p) == Matches(s, p[1..])
    decreases |s|
  {
    if s != [] { DoubleStar(s[1..], p); }
  }

  lemma {:induction false} SqueezeKeepsMatches(s: seq<Byte>, p: seq<Byte>)
    ensures Matches(s, Squeeze(p)) == Matches(s, p)
    decreases |p|, |s|
  {
    if |p| < 2 {
    } else if p[0] == STAR && p[1] == STAR {
      DoubleStar(s, p);
      SqueezeKeepsMatches(s, p[1..]);
    } else {
      assert Squeeze(p)[1..] == Squeeze(p[1..]);
      SqueezeKeepsMatches(s, p[1..]);
      if s != [] {
        SqueezeKeepsMatches(s[1..], p);
        SqueezeKeepsMatches(s[1..], p[1..]);
      }
    }
  }
}
