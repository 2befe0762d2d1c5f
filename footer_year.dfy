/** The footer year stamp (script.js lines 378-385): a footer paragraph
    whose text mentions 2023 or 2024 gets its first run of four digits
    replaced by the current year. The year is a parameter here; the page
    reads it from the clock. */
module FooterYear {
  import opened Options
  import opened Text

  /** `String.prototype.includes`: the empty pattern is found in any
      string, and a pattern longer than the string in none. */
  predicate Includes(s: string, pat: string)
    ensures pat == [] ==> Includes(s, pat)
    ensures Includes(s, pat) ==> |pat| <= |s|
    decreases |s|
  {
    if |s| < |pat| then false
    else s[..|pat|] == pat || Includes(s[1..], pat)
  }

  /** `includes` finds `pat` exactly when it occurs somewhere in `s`. */
  lemma {:induction false} IncludesIff(s: string, pat: string)
    ensures Includes(s, pat) <==> exists i :: OccursAt(s, i, pat)
    decreases |s|
  {
    if |s| >= |pat| {
      if s[..|pat|] == pat {
        assert OccursAt(s, 0, pat);
        return;
      }
      IncludesIff(s[1..], pat);
      if Includes(s, pat) {
        {
          var i :| OccursAt(s[1..], i, pat);
          assert s[1..][i..i + |pat|] == s[i + 1..i + 1 + |pat|];
          assert OccursAt(s, i + 1, pat);
        }
      } else {
        forall i | OccursAt(s, i, pat)
          ensures i > 0 && OccursAt(s[1..], i - 1, pat)
        {
          assert s[0..|pat|] == s[..|pat|];
          assert s[1..][i - 1..i - 1 + |pat|] == s[i..i + |pat|];
        }
      }
    }
  }

  /** The test of line 382. */
  predicate MentionsOldYear(text: string)
  {
    Includes(text, "2023") || Includes(text, "2024")
  }

  /** `\d`: an ASCII digit. */
  predicate IsDigit(c: char)
  {
    '0' <= c <= '9'
  }

  predicate AllDigits(s: string)
  {
    forall k :: 0 <= k < |s| ==> IsDigit(s[k])
  }

  /** `\d{4}` matches at `i`. */
  predicate DigitRunAt(s: string, i: int)
  {
    0 <= i && i + 4 <= |s| && forall k :: i <= k < i + 4 ==> IsDigit(s[k])
  }

  /** Where `/\d{4}/` matches first, searching from `from`: the leftmost run. */
  function FirstDigitRun(s: string, from: nat): (r: Option<nat>)
    ensures r.Some? ==> from <= r.value && DigitRunAt(s, r.value)
    ensures r.Some? ==> forall j :: from <= j < r.value ==> !DigitRunAt(s, j)
    ensures r.None? ==> forall j :: from <= j ==> !DigitRunAt(s, j)
    decreases |s| - from
  {
    if from + 4 > |s| then None
    else if DigitRunAt(s, from) then Some(from)
    else FirstDigitRun(s, from + 1)
  }

  function DigitChar(d: nat): (c: char)
    requires d < 10
    ensures IsDigit(c)
  {
    ('0' as int + d) as char
  }

  /** `String(n)` for a whole number: its decimal digits. */
  function DecimalString(n: nat): (r: string)
    ensures |r| > 0 && AllDigits(r)
    decreases n
  {
    if n < 10 then [DigitChar(n)] else DecimalString(n / 10) + [DigitChar(n % 10)]
  }

  /** The number a string of decimal digits denotes. */
  function DecimalValue(s: string): nat
    requires AllDigits(s)
  {
    if s == [] then 0 else DecimalValue(s[..|s| - 1]) * 10 + (s[|s| - 1] as int - '0' as int)
  }

  /** Reading the printed year back gives the year. */
  lemma {:induction false} DecimalRoundTrip(n: nat)
    ensures DecimalValue(DecimalString(n)) == n
    decreases n
  {
    if n >= 10 {
      DecimalRoundTrip(n / 10);
      var r := DecimalString(n);
      assert r[..|r| - 1] == DecimalString(n / 10);
    }
  }

  /** A year from 1000 to 9999 prints as four digits. */
  lemma FourDigitYear(year: nat)
    requires 1000 <= year <= 9999
    ensures |DecimalString(year)| == 4
  {
    assert |DecimalString(year / 1000)| == 1;
    assert |DecimalString(year / 100)| == 2;
    assert |DecimalString(year / 10)| == 3;
  }

  /** One footer paragraph: `text` is its `textContent`, `html` its
      `innerHTML`. When the text mentions 2023 or 2024, the leftmost four
      digits of the markup become the year; nothing else changes. */
  function StampYear(text: string, html: string, year: nat): (r: string)
    ensures !MentionsOldYear(text) || FirstDigitRun(html, 0).None? ==> r == html
    ensures MentionsOldYear(text) && FirstDigitRun(html, 0).Some? ==>
      var i := FirstDigitRun(html, 0).value;
      var y := DecimalString(year);
      |r| == |html| - 4 + |y| && r[..i] == html[..i] && r[i + |y|..] == html[i + 4..] &&
      AllDigits(r[i..i + |y|]) && DecimalValue(r[i..i + |y|]) == year
  {
    if !MentionsOldYear(text) then html
    else match FirstDigitRun(html, 0)
      case None => html
      case Some(i) =>
        var y := DecimalString(year);
        var r := html[..i] + y + html[i + 4..];
        assert r[i..i + |y|] == y;
        DecimalRoundTrip(year);
        r
  }

  /** Stamping a plain-text paragraph twice with a four-digit year is the
      same as stamping it once. */
  lemma StampYearIdempotent(s: string, year: nat)
    requires 1000 <= year <= 9999
    ensures var once := StampYear(s, s, year); StampYear(once, once, year) == once
  {
    var once := StampYear(s, s, year);
    if MentionsOldYear(s) && FirstDigitRun(s, 0).Some? {
      var i := FirstDigitRun(s, 0).value;
      var y := DecimalString(year);
      FourDigitYear(year);
      assert once == s[..i] + y + s[i + 4..];
      assert |once| == |s|;
      forall j | 0 <= j < i
        ensures DigitRunAt(once, j) == DigitRunAt(s, j)
      {
      }
      forall k | i <= k < i + 4
        ensures IsDigit(once[k])
      {
        assert once[k] == y[k - i];
      }
      assert DigitRunAt(once, i);
      forall j | 0 <= j < i
        ensures !DigitRunAt(once, j)
      {
      }
      if MentionsOldYear(once) {
        assert FirstDigitRun(once, 0) == Some(i);
        assert once[..i] + y + once[i + 4..] == once;
      }
    }
  }

  /** "(c) 2024 Neo" stamped with 2026 reads "(c) 2026 Neo". */
  lemma StampYearExample()
    ensures StampYear("(c) 2024 Neo", "(c) 2024 Neo", 2026) == "(c) 2026 Neo"
  {
    var s := "(c) 2024 Neo";
    assert MentionsOldYear(s) by {
      assert OccursAt(s, 4, "2024");
      IncludesIff(s, "2024");
    }
    ExampleFirstRun();
    ExampleDecimal();
    assert s[..4] + "2026" + s[8..] == "(c) 2026 Neo";
  }

  lemma ExampleFirstRun()
    ensures FirstDigitRun("(c) 2024 Neo", 0) == Some(4)
  {
    var s := "(c) 2024 Neo";
    assert DigitRunAt(s, 4);
    assert !IsDigit(s[0]) && !IsDigit(s[1]) && !IsDigit(s[2]) && !IsDigit(s[3]);
  }

  lemma ExampleDecimal()
    ensures DecimalString(2026) == "2026"
  {
    assert DecimalString(2) == "2";
    assert DecimalString(20) == "20";
    assert DecimalString(202) == "202";
  }
}
