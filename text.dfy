/** ASCII string helpers standing in for Python's str methods and Django's
    case-insensitive lookups. Non-ASCII case mapping is not modelled. */
module Text {

  predicate IsUpper(c: char) { 'A' <= c <= 'Z' }
  predicate IsLower(c: char) { 'a' <= c <= 'z' }
  predicate IsDigit(c: char) { '0' <= c <= '9' }

  /** The characters Python's `str.isspace` accepts in the ASCII range. */
  predicate IsSpace(c: char) {
    c == ' ' || c == '\t' || c == '\n' || c == '\r' || c == '\U{B}' || c == '\U{C}'
    || c == '\U{1C}' || c == '\U{1D}' || c == '\U{1E}' || c == '\U{1F}'
  }

  function UpperChar(c: char): (r: char)
    ensures !IsLower(r)
    ensures IsLower(c) ==> IsUpper(r)
    ensures !IsLower(c) ==> r == c
    ensures IsSpace(r) <==> IsSpace(c)
  {
    if IsLower(c) then (c as int - 32) as char else c
  }

  function LowerChar(c: char): (r: char)
    ensures !IsUpper(r)
    ensures IsUpper(c) ==> IsLower(r)
    ensures !IsUpper(c) ==> r == c
  {
    if IsUpper(c) then (c as int + 32) as char else c
  }

  /** `str.upper()` on ASCII. */
  function Upper(s: string): (r: string)
    ensures |r| == |s|
    ensures forall i :: 0 <= i < |s| ==> r[i] == UpperChar(s[i])
  {
    if s == [] then [] else [UpperChar(s[0])] + Upper(s[1..])
  }

  /** `str.lower()` on ASCII. */
  function Lower(s: string): (r: string)
    ensures |r| == |s|
    ensures forall i :: 0 <= i < |s| ==> r[i] == LowerChar(s[i])
  {
    if s == [] then [] else [LowerChar(s[0])] + Lower(s[1..])
  }

  /** `str.lstrip()` with no argument. */
  function StripLeft(s: string): (r: string)
    ensures |r| <= |s| && r == s[|s| - |r|..]
    ensures r != [] ==> !IsSpace(r[0])
    ensures forall i :: 0 <= i < |s| - |r| ==> IsSpace(s[i])
  {
    if s != [] && IsSpace(s[0]) then StripLeft(s[1..]) else s
  }

  /** `str.rstrip()` with no argument. */
  function StripRight(s: string): (r: string)
    ensures |r| <= |s| && r == s[..|r|]
    ensures r != [] ==> !IsSpace(r[|r| - 1])
    ensures forall i :: |r| <= i < |s| ==> IsSpace(s[i])
  {
    if s != [] && IsSpace(s[|s| - 1]) then StripRight(s[..|s| - 1]) else s
  }

  /** `str.strip()` with no argument. */
  function Strip(s: string): (r: string)
    ensures r != [] ==> !IsSpace(r[0]) && !IsSpace(r[|r| - 1])
    ensures exists i, j | 0 <= i <= j <= |s| ::
      r == s[i..j] && forall k | 0 <= k < i || j <= k < |s| :: IsSpace(s[k])
    ensures forall c | !IsSpace(c) :: c in r <==> c in s
  {
    var l := StripLeft(s);
    var r := StripRight(l);
    StripIsSlice(s, l, r, |s| - |l|);
    r
  }

  /** The right strip of the left strip of `s` is a slice of `s` with only white
      space cut off, and so keeps every character that is not white space. */
  lemma StripIsSlice(s: string, l: string, r: string, i: nat)
    requires |l| <= |s| && i == |s| - |l| && l == s[i..]
    requires forall k :: 0 <= k < i ==> IsSpace(s[k])
    requires |r| <= |l| && r == l[..|r|]
    requires forall k :: |r| <= k < |l| ==> IsSpace(l[k])
    ensures r == s[i..i + |r|]
    ensures forall k | 0 <= k < i || i + |r| <= k < |s| :: IsSpace(s[k])
    ensures forall c | !IsSpace(c) :: c in r <==> c in s
  {
    forall k | i + |r| <= k < |s| ensures IsSpace(s[k]) {
      assert s[k] == l[k - i];
    }
    forall c | !IsSpace(c) && c in s ensures c in r {
      var k :| 0 <= k < |s| && s[k] == c;
      assert r[k - i] == c;
    }
  }

  /** `str.replace(' ', '')`. */
  function RemoveBlanks(s: string): (r: string)
    ensures |r| <= |s|
    ensures forall i :: 0 <= i < |r| ==> r[i] != ' '
    ensures forall c :: c in r <==> c in s && c != ' '
    ensures multiset(r) == multiset(s)[' ' := 0]
  {
    if s == [] then []
    else
      assert s == [s[0]] + s[1..];
      if s[0] == ' ' then RemoveBlanks(s[1..])
      else [s[0]] + RemoveBlanks(s[1..])
  }

  /** Removing blanks works piece by piece, so every kept character stays in
      its place relative to the others. */
  lemma {:induction false} RemoveBlanksAppend(a: string, b: string)
    ensures RemoveBlanks(a + b) == RemoveBlanks(a) + RemoveBlanks(b)
  {
    if a != [] {
      assert (a + b)[0] == a[0] && (a + b)[1..] == a[1..] + b;
      RemoveBlanksAppend(a[1..], b);
      if a[0] != ' ' {
        assert RemoveBlanks(a + b) == [a[0]] + RemoveBlanks(a[1..] + b);
      }
    } else {
      assert a + b == b;
    }
  }

  /** `s.startswith(p)`. */
  predicate StartsWith(s: string, p: string) {
    |p| <= |s| && s[..|p|] == p
  }

  /** `q in s` for strings: `q` occurs somewhere in `s`. */
  predicate Occurs(q: string, s: string) {
    StartsWith(s, q) || (s != [] && Occurs(q, s[1..]))
  }

  /** Django's `icontains`: `q` occurs in `s`, ignoring ASCII case. */
  predicate ContainsIgnoringCase(s: string, q: string) {
    Occurs(Lower(q), Lower(s))
  }
}
