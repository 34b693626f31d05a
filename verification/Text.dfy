/** ASCII case mapping, as StringUtil::Upper and StringUtil::Lower do it. */
module Text {
  function UpperChar(c: char): char {
    if 'a' <= c <= 'z' then c - 'a' + 'A' else c
  }

  function LowerChar(c: char): char {
    if 'A' <= c <= 'Z' then c - 'A' + 'a' else c
  }

  /** The same letter, in either case; or the same character. */
  predicate SameLetter(c: char, d: char) {
    c == d || ('a' <= c <= 'z' && d == c - 'a' + 'A') || ('a' <= d <= 'z' && c == d - 'a' + 'A')
  }

  predicate SameUpToCase(a: string, b: string) {
    |a| == |b| && forall i :: 0 <= i < |a| ==> SameLetter(a[i], b[i])
  }

  function Upper(s: string): (u: string)
    ensures |u| == |s|
    ensures forall i :: 0 <= i < |s| ==> u[i] == UpperChar(s[i])
  {
    seq(|s|, i requires 0 <= i < |s| => UpperChar(s[i]))
  }

  function Lower(s: string): (l: string)
    ensures |l| == |s|
    ensures forall i :: 0 <= i < |s| ==> l[i] == LowerChar(s[i])
  {
    seq(|s|, i requires 0 <= i < |s| => LowerChar(s[i]))
  }

  predicate Contains(s: string, part: string) {
    part <= s || (s != "" && Contains(s[1..], part))
  }

  /** Mapping to upper case, or to lower case, identifies exactly the strings equal up to case. */
  lemma CaseMapsIff(a: string, b: string)
    ensures Upper(a) == Upper(b) <==> SameUpToCase(a, b)
    ensures Lower(a) == Lower(b) <==> SameUpToCase(a, b)
  {
    if Upper(a) == Upper(b) {
      forall i | 0 <= i < |a| ensures SameLetter(a[i], b[i]) {
        assert Upper(a)[i] == Upper(b)[i];
      }
    }
    if Lower(a) == Lower(b) {
      forall i | 0 <= i < |a| ensures SameLetter(a[i], b[i]) {
        assert Lower(a)[i] == Lower(b)[i];
      }
    }
  }

  /** A string without lower-case letters is its own upper-case form, so comparing with it after
      mapping is comparing up to case. */
  lemma UpperIs(s: string, name: string)
    requires forall i :: 0 <= i < |name| ==> !('a' <= name[i] <= 'z')
    ensures Upper(s) == name <==> SameUpToCase(s, name)
  {
    assert Upper(name) == name;
    CaseMapsIff(s, name);
  }

  /** `s` begins with `part`, in any case. */
  predicate Begins(s: string, part: string) {
    |part| <= |s| && SameUpToCase(s[..|part|], part)
  }

  lemma BeginsIff(s: string, part: string)
    requires forall i :: 0 <= i < |part| ==> !('a' <= part[i] <= 'z')
    ensures part <= Upper(s) <==> Begins(s, part)
  {
    if |part| <= |s| {
      assert Upper(s[..|part|]) == Upper(s)[..|part|];
      UpperIs(s[..|part|], part);
    }
  }

  /** `part` occurs in `s`, in any case. */
  ghost predicate Mentions(s: string, part: string) {
    exists i :: 0 <= i <= |s| && Begins(s[i..], part)
  }

  lemma {:induction false} MentionsIff(s: string, part: string)
    requires forall i :: 0 <= i < |part| ==> !('a' <= part[i] <= 'z')
    ensures Contains(Upper(s), part) <==> Mentions(s, part)
  {
    BeginsIff(s, part);
    assert s[0..] == s;
    if s != "" {
      MentionsIff(s[1..], part);
      assert Upper(s)[1..] == Upper(s[1..]);
      assert forall i :: 1 <= i <= |s| ==> s[i..] == s[1..][i - 1..];
      if Mentions(s[1..], part) {
        var i :| 0 <= i <= |s[1..]| && Begins(s[1..][i..], part);
        assert s[i + 1..] == s[1..][i..];
      }
    }
  }
}
