/**
 * The two string operations the application applies to what the user types:
 * Python's `str.strip()` (with no argument) and `str.lower()`.
 */
module Text {

  /** The characters `str.isspace()` accepts, which is what `strip()` removes. */
  predicate IsSpace(c: char) {
    var n := c as int;
    n == 0x20 || 0x09 <= n <= 0x0D || 0x1C <= n <= 0x1F || n == 0x85 || n == 0xA0 ||
    n == 0x1680 || 0x2000 <= n <= 0x200A || n == 0x2028 || n == 0x2029 ||
    n == 0x202F || n == 0x205F || n == 0x3000
  }

  predicate AllSpace(s: string) {
    forall k :: 0 <= k < |s| ==> IsSpace(s[k])
  }

  /** How many whitespace characters `s` starts with. */
  function LeadingSpaces(s: string): (n: nat)
    ensures n <= |s|
    ensures forall k :: 0 <= k < n ==> IsSpace(s[k])
    ensures n < |s| ==> !IsSpace(s[n])
  {
    if s == [] || !IsSpace(s[0]) then 0 else LeadingSpaces(s[1..]) + 1
  }

  /** How many whitespace characters `s` ends with. */
  function TrailingSpaces(s: string): (n: nat)
    ensures n <= |s|
    ensures forall k :: |s| - n <= k < |s| ==> IsSpace(s[k])
    ensures n < |s| ==> !IsSpace(s[|s| - 1 - n])
  {
    if s == [] || !IsSpace(s[|s| - 1]) then 0 else TrailingSpaces(s[..|s| - 1]) + 1
  }

  /** `r` is `s` with the `i` characters before it and the rest after it all whitespace. */
  predicate TrimmedAt(s: string, i: nat, r: string) {
    i + |r| <= |s| && r == s[i..i + |r|] && AllSpace(s[..i]) && AllSpace(s[i + |r|..])
  }

  /** The whitespace `LeadingSpaces` and `TrailingSpaces` count is what surrounds the kept text. */
  lemma StripTrims(s: string, lead: nat, trail: nat)
    requires lead == LeadingSpaces(s) && trail == TrailingSpaces(s[lead..])
    ensures TrimmedAt(s, lead, s[lead..|s| - trail])
  {
    var rest := s[lead..];
    var r := rest[..|rest| - trail];
    assert r == s[lead..lead + |r|];
    assert s[lead + |r|..] == rest[|rest| - trail..];
  }

  /** `s.strip()`: `s` without its leading and trailing whitespace. */
  function Strip(s: string): (r: string)
    ensures r == [] <==> AllSpace(s)
    ensures r != [] ==> !IsSpace(r[0]) && !IsSpace(r[|r| - 1])
    ensures exists i: nat :: TrimmedAt(s, i, r)
  {
    var lead := LeadingSpaces(s);
    var rest := s[lead..];
    var trail := TrailingSpaces(rest);
    StripTrims(s, lead, trail);
    if rest == [] then []
    else
      assert !IsSpace(s[lead]);
      assert trail < |rest|;
      assert rest[..|rest| - trail] == s[lead..|s| - trail];
      rest[..|rest| - trail]
  }

  function LowerChar(c: char): char {
    if 'A' <= c <= 'Z' then (c as int + 32) as char else c
  }

  /** `s.lower()` on the ASCII letters. */
  function Lower(s: string): (r: string)
    ensures |r| == |s|
    ensures forall k :: 0 <= k < |s| ==> r[k] == LowerChar(s[k])
  {
    seq(|s|, k requires 0 <= k < |s| => LowerChar(s[k]))
  }
}
