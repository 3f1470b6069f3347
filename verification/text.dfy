/** String helpers with the meaning the source relies on: SQLite's NOCASE
    collation and Python's `str.lower`, `str.strip` and `in`, all restricted
    to ASCII.
 */
module Text {

  /** Lower-cases an ASCII letter; every other character is left alone. */
  function AsciiLower(c: char): char {
    if 'A' <= c <= 'Z' then (c as int + 32) as char else c
  }

  /** Character-wise lower case. */
  function Lower(s: string): (r: string)
    ensures |r| == |s|
    ensures forall i :: 0 <= i < |s| ==> r[i] == AsciiLower(s[i])
  {
    seq(|s|, i requires 0 <= i < |s| => AsciiLower(s[i]))
  }

  /** Equality under SQLite's NOCASE collation. */
  predicate NoCaseEq(a: string, b: string) {
    Lower(a) == Lower(b)
  }

  /** The characters Python's `str.strip()` removes, restricted to ASCII. */
  predicate IsSpace(c: char) {
    c == ' ' || ('\t' <= c <= '\r') || (28 <= c as int <= 31)
  }

  /** Drops leading whitespace. */
  function TrimLeft(s: string): (r: string)
    ensures |r| <= |s| && r == s[|s| - |r|..]
    ensures forall k :: 0 <= k < |s| - |r| ==> IsSpace(s[k])
    ensures r != [] ==> !IsSpace(r[0])
  {
    if s != [] && IsSpace(s[0]) then TrimLeft(s[1..]) else s
  }

  /** Drops trailing whitespace. */
  function TrimRight(s: string): (r: string)
    ensures |r| <= |s| && r == s[..|r|]
    ensures forall k :: |r| <= k < |s| ==> IsSpace(s[k])
    ensures r != [] ==> !IsSpace(r[|r| - 1])
  {
    if s != [] && IsSpace(s[|s| - 1]) then TrimRight(s[..|s| - 1]) else s
  }

  /** Where the kept part of `s` starts once leading whitespace is dropped. */
  function StripStart(s: string): nat {
    |s| - |TrimLeft(s)|
  }

  /** Python's `s.strip()`: the slice of `s` left once the whitespace at
      both ends is removed. */
  function Strip(s: string): (r: string)
    ensures StripStart(s) + |r| <= |s| && r == s[StripStart(s)..StripStart(s) + |r|]
    ensures forall k :: 0 <= k < StripStart(s) ==> IsSpace(s[k])
    ensures forall k :: StripStart(s) + |r| <= k < |s| ==> IsSpace(s[k])
    ensures r != [] ==> !IsSpace(r[0]) && !IsSpace(r[|r| - 1])
  {
    var l := TrimLeft(s);
    var r := TrimRight(l);
    assert forall k :: StripStart(s) + |r| <= k < |s| ==> s[k] == l[k - StripStart(s)];
    r
  }

  /** A string that already has no whitespace at either end is its own strip. */
  lemma {:induction false} StripTrimmed(s: string)
    requires s != [] ==> !IsSpace(s[0]) && !IsSpace(s[|s| - 1])
    ensures Strip(s) == s
  {
    assert TrimLeft(s) == s;
    assert TrimRight(s) == s;
  }

  /** Stripping twice is stripping once. */
  lemma StripIdempotent(s: string)
    ensures Strip(Strip(s)) == Strip(s)
  {
    StripTrimmed(Strip(s));
  }

  /** `needle` occurs in `hay` starting at position `k`. */
  predicate OccursAt(needle: string, hay: string, k: nat) {
    k + |needle| <= |hay| && hay[k..k + |needle|] == needle
  }

  /** Python's `needle in hay` for strings. */
  predicate IsSubstring(needle: string, hay: string) {
    exists k: nat :: k <= |hay| && OccursAt(needle, hay, k)
  }

  /** Decides `needle in hay` by trying every start position in turn. */
  method Contains(needle: string, hay: string) returns (found: bool)
    ensures found <==> IsSubstring(needle, hay)
  {
    if |needle| > |hay| {
      assert forall k: nat :: !OccursAt(needle, hay, k);
      return false;
    }
    var k := 0;
    while k <= |hay| - |needle|
      invariant 0 <= k <= |hay| - |needle| + 1
      invariant forall j: nat :: j < k ==> !OccursAt(needle, hay, j)
    {
      if hay[k..k + |needle|] == needle {
        assert OccursAt(needle, hay, k);
        return true;
      }
      k := k + 1;
    }
    assert forall j: nat :: !OccursAt(needle, hay, j);
    return false;
  }

  /** Lower-casing is idempotent, so a lower-cased query matches as the raw one does. */
  lemma LowerIdempotent(s: string)
    ensures Lower(Lower(s)) == Lower(s)
  {
    assert forall i :: 0 <= i < |s| ==> Lower(Lower(s))[i] == Lower(s)[i];
  }
}
