/** Whitespace and `String.prototype.trim` as the contact form uses them. */
module Text {

  /** Whitespace, for the `\s` of a regular expression and for `trim`: tab,
      line feed, vertical tab, form feed, carriage return, space and no-break
      space. (JavaScript also counts the other Unicode space separators, line
      and paragraph separators and the byte-order mark.) */
  predicate IsSpace(c: char)
  {
    c as int in {9, 10, 11, 12, 13, 32, 160}
  }

  predicate AllSpace(s: string)
  {
    forall i :: 0 <= i < |s| ==> IsSpace(s[i])
  }

  /** `r` occurs in `s` starting at index `i`. */
  predicate OccursAt(s: string, i: int, r: string)
  {
    0 <= i <= |s| - |r| && s[i..i + |r|] == r
  }

  /** How many whitespace characters `s` starts with. */
  function LeadingSpaces(s: string): (n: nat)
    ensures n <= |s|
    ensures forall i :: 0 <= i < n ==> IsSpace(s[i])
    ensures n < |s| ==> !IsSpace(s[n])
  {
    if s != [] && IsSpace(s[0]) then 1 + LeadingSpaces(s[1..]) else 0
  }

  /** How many whitespace characters `s` ends with. */
  function TrailingSpaces(s: string): (n: nat)
    ensures n <= |s|
    ensures forall i :: |s| - n <= i < |s| ==> IsSpace(s[i])
    ensures n < |s| ==> !IsSpace(s[|s| - 1 - n])
  {
    if s != [] && IsSpace(s[|s| - 1]) then 1 + TrailingSpaces(s[..|s| - 1]) else 0
  }

  /** `s.trim()`: what is left neither starts nor ends with whitespace. */
  function Trim(s: string): (r: string)
    ensures r == [] || (!IsSpace(r[0]) && !IsSpace(r[|r| - 1]))
  {
    var lead := LeadingSpaces(s);
    if lead == |s| then [] else s[lead..|s| - TrailingSpaces(s)]
  }

  /** `trim` cuts off only whitespace: what it keeps is the piece of the
      value after the leading whitespace run, and everything after that
      piece is whitespace too. */
  lemma TrimIsSlice(s: string)
    ensures OccursAt(s, LeadingSpaces(s), Trim(s))
    ensures AllSpace(s[..LeadingSpaces(s)])
    ensures AllSpace(s[LeadingSpaces(s) + |Trim(s)|..])
  {
    var lead := LeadingSpaces(s);
    SpacesBefore(s, lead);
    if lead < |s| {
      SpacesFrom(s, |s| - TrailingSpaces(s));
    } else {
      assert s[lead..] == [];
    }
  }

  lemma SpacesBefore(s: string, n: nat)
    requires n <= |s| && forall i :: 0 <= i < n ==> IsSpace(s[i])
    ensures AllSpace(s[..n])
  {
    var head := s[..n];
    forall i | 0 <= i < |head|
      ensures IsSpace(head[i])
    {
      assert head[i] == s[i];
    }
  }

  lemma SpacesFrom(s: string, n: nat)
    requires n <= |s| && forall i :: n <= i < |s| ==> IsSpace(s[i])
    ensures AllSpace(s[n..])
  {
    var tail := s[n..];
    forall i | 0 <= i < |tail|
      ensures IsSpace(tail[i])
    {
      assert tail[i] == s[n + i];
    }
  }

  /** A field's value trims to the empty string exactly when it is all whitespace. */
  lemma TrimEmptyIffAllSpace(s: string)
    ensures Trim(s) == [] <==> AllSpace(s)
  {
  }
}
