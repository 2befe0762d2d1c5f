/** The phone field of the contact form: the `input` sanitiser (script.js
    lines 209-216) and the phone pattern the submit check applies (line 255). */
module Phone {

  /** Longest value the sanitiser lets stand. */
  const MaxPhoneLength: nat := 15
  /** Shortest value the submit check accepts. */
  const MinPhoneLength: nat := 10

  /** The class `[0-9+\-() ]`: digits, plus, hyphen, parentheses and space. */
  predicate IsPhoneChar(c: char)
  {
    '0' <= c <= '9' || c == '+' || c == '-' || c == '(' || c == ')' || c == ' '
  }

  predicate AllPhoneChars(s: string)
  {
    forall i :: 0 <= i < |s| ==> IsPhoneChar(s[i])
  }

  /** `s.replace(/[^0-9+\-() ]/g, '')`: every allowed character is kept as
      often as it occurs, every other one is dropped. */
  function KeepPhoneChars(s: string): (r: string)
    ensures AllPhoneChars(r) && |r| <= |s|
  {
    if s == [] then []
    else (if IsPhoneChar(s[0]) then [s[0]] else []) + KeepPhoneChars(s[1..])
  }

  /** Filtering keeps every allowed character as often as it occurs and drops every other one. */
  lemma {:induction false} KeepPhoneCharsCounts(s: string, c: char)
    ensures multiset(KeepPhoneChars(s))[c] == if IsPhoneChar(c) then multiset(s)[c] else 0
  {
    if s != [] {
      KeepPhoneCharsCounts(s[1..], c);
      assert s == [s[0]] + s[1..];
    }
  }

  /** Filtering works piece by piece. */
  lemma {:induction false} KeepPhoneCharsAppend(a: string, b: string)
    ensures KeepPhoneChars(a + b) == KeepPhoneChars(a) + KeepPhoneChars(b)
  {
    if a == [] {
      assert a + b == b;
    } else {
      var head := if IsPhoneChar(a[0]) then [a[0]] else [];
      assert (a + b)[0] == a[0] && (a + b)[1..] == a[1..] + b;
      assert KeepPhoneChars(a + b) == head + KeepPhoneChars(a[1..] + b);
      KeepPhoneCharsAppend(a[1..], b);
      assert KeepPhoneChars(a) == head + KeepPhoneChars(a[1..]);
    }
  }

  /** Filtering leaves a string unchanged exactly when it holds only allowed characters. */
  lemma {:induction false} KeepPhoneCharsFixes(s: string)
    ensures KeepPhoneChars(s) == s <==> AllPhoneChars(s)
  {
    if s != [] && AllPhoneChars(s) {
      KeepPhoneCharsFixes(s[1..]);
    }
  }

  /** The `input` handler: drop disallowed characters, then cut to 15. */
  function Sanitize(s: string): (r: string)
    ensures AllPhoneChars(r)
    ensures |r| <= MaxPhoneLength
    ensures r <= KeepPhoneChars(s)
    ensures |r| == if |KeepPhoneChars(s)| > MaxPhoneLength then MaxPhoneLength else |KeepPhoneChars(s)|
  {
    var kept := KeepPhoneChars(s);
    if |kept| > MaxPhoneLength then kept[..MaxPhoneLength] else kept
  }

  /** Sanitising twice is the same as sanitising once, so repeated `input`
      events do not change the value further. */
  lemma SanitizeIdempotent(s: string)
    ensures Sanitize(Sanitize(s)) == Sanitize(s)
  {
    KeepPhoneCharsFixes(Sanitize(s));
  }

  /** A value that already matches the submit pattern passes the sanitiser untouched. */
  lemma SanitizeKeepsValidPhone(s: string)
    requires MatchesPhonePattern(s)
    ensures Sanitize(s) == s
  {
    KeepPhoneCharsFixes(s);
  }

  /** `/^[0-9+\-() ]{10,15}$/`: 10 to 15 characters, all allowed; the
      `input` filter leaves such a value as it is. */
  predicate MatchesPhonePattern(s: string)
    ensures MatchesPhonePattern(s) ==> KeepPhoneChars(s) == s
  {
    KeepPhoneCharsFixes(s);
    MinPhoneLength <= |s| <= MaxPhoneLength && AllPhoneChars(s)
  }

  /** A sanitised value passes the submit check exactly when it has at least 10 characters. */
  lemma SanitizedPhoneAcceptedIff(s: string)
    ensures MatchesPhonePattern(Sanitize(s)) <==> |Sanitize(s)| >= MinPhoneLength
  {
  }
}
