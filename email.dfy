/** The e-mail check of the contact form: `/^[^\s@]+@[^\s@]+\.[^\s@]+$/`
    (script.js line 244), without regular expressions. */
module Email {
  import opened Options
  import opened Text

  /** `[^\s@]`: neither whitespace nor '@'. */
  predicate IsAddressChar(c: char)
  {
    !IsSpace(c) && c != '@'
  }

  predicate AllAddressChars(s: string)
  {
    forall i :: 0 <= i < |s| ==> IsAddressChar(s[i])
  }

  /** `[^\s@]+`: a non-empty run of address characters. */
  predicate IsAddressPart(s: string)
  {
    |s| > 0 && AllAddressChars(s)
  }

  /** The pattern read literally: the '@' at `at` and the '.' at `dot` cut
      `s` into three non-empty runs of address characters. */
  predicate SplitsAt(s: string, at: int, dot: int)
  {
    0 <= at < dot < |s| && s[at] == '@' && s[dot] == '.' &&
    IsAddressPart(s[..at]) && IsAddressPart(s[at + 1..dot]) && IsAddressPart(s[dot + 1..])
  }

  /** `s` matches the e-mail pattern: some choice of '@' and '.' splits it. */
  ghost predicate MatchesEmailPattern(s: string)
  {
    exists at, dot :: SplitsAt(s, at, dot)
  }

  /** The first position of `c` in `s`, if any. */
  function FirstIndexOf(s: string, c: char): (r: Option<nat>)
    ensures r.Some? ==> r.value < |s| && s[r.value] == c && c !in s[..r.value]
    ensures r.None? ==> c !in s
  {
    if s == [] then None
    else if s[0] == c then Some(0)
    else match FirstIndexOf(s[1..], c)
      case None => None
      case Some(i) =>
        assert s[..i + 1] == [s[0]] + s[1..][..i];
        Some(i + 1)
  }

  /** The check as a direct scan: the part before the first '@' is a
      non-empty run of address characters, and the rest is made of address
      characters with a '.' that is neither its first nor its last character. */
  predicate IsEmail(s: string)
    ensures IsEmail(s) ==> |s| >= 5 && forall i :: 0 <= i < |s| ==> !IsSpace(s[i])
  {
    match FirstIndexOf(s, '@')
    case None => false
    case Some(at) =>
      var domain := s[at + 1..];
      if IsAddressPart(s[..at]) && |domain| >= 3 && AllAddressChars(domain) &&
         '.' in domain[1..|domain| - 1]
      then
        AroundAtHasNoSpace(s, at);
        true
      else false
  }

  /** Address characters on both sides of an '@' leave no whitespace anywhere. */
  lemma AroundAtHasNoSpace(s: string, at: nat)
    requires at < |s| && s[at] == '@'
    requires AllAddressChars(s[..at]) && AllAddressChars(s[at + 1..])
    ensures forall i :: 0 <= i < |s| ==> !IsSpace(s[i])
  {
    forall i | 0 <= i < |s|
      ensures !IsSpace(s[i])
    {
      if i < at {
        assert s[i] == s[..at][i];
      } else if i > at {
        assert s[i] == s[at + 1..][i - at - 1];
      }
    }
  }

  /** The scan accepts exactly the strings the pattern matches. */
  lemma IsEmailIffPattern(s: string)
    ensures IsEmail(s) <==> MatchesEmailPattern(s)
  {
    if IsEmail(s) {
      var at := FirstIndexOf(s, '@').value;
      var domain := s[at + 1..];
      var inner := domain[1..|domain| - 1];
      var j :| 0 <= j < |inner| && inner[j] == '.';
      var dot := at + 2 + j;
      assert s[at + 1..dot] == domain[..j + 1];
      assert s[dot + 1..] == domain[j + 2..];
      assert SplitsAt(s, at, dot);
    }
    if MatchesEmailPattern(s) {
      var at, dot :| SplitsAt(s, at, dot);
      PatternFixesAt(s, at, dot);
    }
  }

  /** With a split at `at` and `dot`, the scan finds that same '@' and accepts. */
  lemma PatternFixesAt(s: string, at: int, dot: int)
    requires SplitsAt(s, at, dot)
    ensures IsEmail(s)
  {
    assert '@' in s;
    var domain := s[at + 1..];
    forall i | 0 <= i < |domain|
      ensures IsAddressChar(domain[i])
    {
      if at + 1 + i < dot {
        assert domain[i] == s[at + 1..dot][i];
      } else if at + 1 + i > dot {
        assert domain[i] == s[dot + 1..][at + i - dot];
      }
    }
    assert domain[1..|domain| - 1][dot - at - 2] == '.';
  }
}
