/** Facts about the `module:action`-like strings the repository builds and takes apart. */
module Strings {
  /** A string has one way to be cut at its first colon. */
  lemma CutAtFirstColonIsUnique(head1: string, tail1: string, head2: string, tail2: string)
    requires ':' !in head1 && ':' !in head2
    ensures head1 + ":" + tail1 == head2 + ":" + tail2 <==> head1 == head2 && tail1 == tail2
  {
    var s1, s2 := head1 + ":" + tail1, head2 + ":" + tail2;
    if s1 == s2 {
      assert s1[|head1|] == ':' && forall i :: 0 <= i < |head1| ==> s1[i] == head1[i];
      assert s2[|head2|] == ':' && forall i :: 0 <= i < |head2| ==> s2[i] == head2[i];
      assert |head1| == |head2|;
      assert s1[..|head1|] == head1 && s2[..|head2|] == head2;
      assert s1[|head1| + 1..] == tail1 && s2[|head2| + 1..] == tail2;
    }
  }

  lemma PrefixCancels(prefix: string, s1: string, s2: string)
    ensures prefix + s1 == prefix + s2 <==> s1 == s2
  {
    assert (prefix + s1)[|prefix|..] == s1 && (prefix + s2)[|prefix|..] == s2;
  }

  function LowerChar(c: char): char {
    if 'A' <= c <= 'Z' then (c as int + 32) as char else c
  }

  /** Case folding of the letters A to Z. */
  function Lower(s: string): (r: string)
    ensures |r| == |s|
  {
    seq(|s|, i requires 0 <= i < |s| => LowerChar(s[i]))
  }

  function UpperChar(c: char): char {
    if 'a' <= c <= 'z' then (c as int - 32) as char else c
  }

  function Upper(s: string): string {
    seq(|s|, i requires 0 <= i < |s| => UpperChar(s[i]))
  }

  /** The digits of a string, in order. */
  function Digits(s: string): string {
    if s == "" then "" else if '0' <= s[0] <= '9' then [s[0]] + Digits(s[1..]) else Digits(s[1..])
  }

  /** What case folding does to each character. */
  lemma LowerFolds(c: char)
    ensures Lower("ABCDEFGHIJKLMNOPQRSTUVWXYZ") == "abcdefghijklmnopqrstuvwxyz"
    ensures !('A' <= c <= 'Z') ==> Lower([c]) == [c]
  {
  }

  lemma UpperFolds(c: char)
    ensures Upper("abcdefghijklmnopqrstuvwxyz") == "ABCDEFGHIJKLMNOPQRSTUVWXYZ"
    ensures !('a' <= c <= 'z') ==> Upper([c]) == [c]
  {
  }

  /** Folding works on each character by itself. */
  lemma FoldsCharacterwise(s: string, t: string)
    ensures Lower(s + t) == Lower(s) + Lower(t) && Upper(s + t) == Upper(s) + Upper(t)
  {
  }

  /** A single character is kept when it is a digit. */
  lemma DigitAlone(c: char)
    ensures Digits([c]) == if '0' <= c <= '9' then [c] else ""
  {
    assert [c][1..] == "" && Digits("") == "";
  }

  /** The digits of a string are those of its parts. */
  lemma {:induction false} DigitsOfConcat(s: string, t: string)
    ensures Digits(s + t) == Digits(s) + Digits(t)
  {
    if s == "" {
      assert s + t == t;
    } else {
      var rest := s[1..];
      DigitsOfConcat(rest, t);
      assert (s + t)[1..] == rest + t && (s + t)[0] == s[0];
      if '0' <= s[0] <= '9' {
        assert [s[0]] + (Digits(rest) + Digits(t)) == ([s[0]] + Digits(rest)) + Digits(t);
      }
    }
  }
}
