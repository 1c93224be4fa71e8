/** String helpers the service relies on: ASCII case mapping (JavaScript's
    toUpperCase/toLowerCase and SQL UPPER, restricted to ASCII) and the
    8-4-4-4-12 hexadecimal shape of a UUID (RFC 4122, section 3). */
module Text {

  predicate IsLowerLetter(c: char) { 'a' <= c <= 'z' }
  predicate IsUpperLetter(c: char) { 'A' <= c <= 'Z' }

  function UpperChar(c: char): char {
    if IsLowerLetter(c) then (c as int - 32) as char else c
  }

  function LowerChar(c: char): char {
    if IsUpperLetter(c) then (c as int + 32) as char else c
  }

  /** Upper-cases every ASCII letter and leaves every other character alone. */
  function Upper(s: string): (r: string)
    ensures |r| == |s|
    ensures forall i :: 0 <= i < |s| ==> r[i] == UpperChar(s[i])
    ensures forall i :: 0 <= i < |r| ==> !IsLowerLetter(r[i])
  {
    if s == [] then [] else [UpperChar(s[0])] + Upper(s[1..])
  }

  /** Lower-cases every ASCII letter and leaves every other character alone. */
  function Lower(s: string): (r: string)
    ensures |r| == |s|
    ensures forall i :: 0 <= i < |s| ==> r[i] == LowerChar(s[i])
    ensures forall i :: 0 <= i < |r| ==> !IsUpperLetter(r[i])
  {
    if s == [] then [] else [LowerChar(s[0])] + Lower(s[1..])
  }

  /** A string is left unchanged by Lower exactly when it holds no upper-case letter. */
  lemma {:induction false} LowerFixedIffNoUpper(s: string)
    ensures Lower(s) == s <==> forall i :: 0 <= i < |s| ==> !IsUpperLetter(s[i])
  {
    if forall i :: 0 <= i < |s| ==> !IsUpperLetter(s[i]) {
      forall i | 0 <= i < |s| ensures Lower(s)[i] == s[i] { }
    } else {
      var i :| 0 <= i < |s| && IsUpperLetter(s[i]);
      assert Lower(s)[i] != s[i];
    }
  }

  /** Lower-casing twice is lower-casing once. */
  lemma LowerIdempotent(s: string)
    ensures Lower(Lower(s)) == Lower(s)
  {
    LowerFixedIffNoUpper(Lower(s));
  }

  predicate IsHexDigit(c: char) {
    '0' <= c <= '9' || 'a' <= c <= 'f' || 'A' <= c <= 'F'
  }

  /** Position of a hyphen in the 8-4-4-4-12 layout. */
  predicate IsHyphenPosition(i: int) {
    i == 8 || i == 13 || i == 18 || i == 23
  }

  /** The textual shape of a UUID: 36 characters, hyphens at 8, 13, 18 and 23,
      hexadecimal digits of either case everywhere else. */
  predicate IsUuid(s: string) {
    |s| == 36 &&
    forall i :: 0 <= i < |s| ==> if IsHyphenPosition(i) then s[i] == '-' else IsHexDigit(s[i])
  }

  /** The form in which PostgreSQL hands back a `uuid` value: the UUID shape
      with lower-case hexadecimal digits. */
  predicate IsStoredUuid(s: string) {
    IsUuid(s) && Lower(s) == s
  }

  /** The UUID shape does not depend on case, and lower-casing a UUID gives
      its stored form. */
  lemma {:induction false} UuidShapeIgnoresCase(s: string)
    ensures IsUuid(Lower(s)) <==> IsUuid(s)
    ensures IsUuid(s) ==> IsStoredUuid(Lower(s))
  {
    var l := Lower(s);
    forall i | 0 <= i < |s|
      ensures (l[i] == '-' <==> s[i] == '-') && (IsHexDigit(l[i]) <==> IsHexDigit(s[i]))
    {
      assert l[i] == LowerChar(s[i]);
    }
    LowerIdempotent(s);
  }
}
