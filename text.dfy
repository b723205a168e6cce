/**
 * The two `str` queries the input validator uses: `len`, which counts the bytes of the UTF-8
 * encoding, and `contains` with a string pattern. A `&str` is modelled by its sequence of
 * Unicode scalar values (Dafny's `char`).
 */
module Text {

  /** The number of bytes UTF-8 uses for one scalar value (RFC 3629, section 3). */
  function Utf8Width(c: char): (w: nat)
    ensures 1 <= w <= 4
    ensures w == 1 <==> c as int < 0x80
  {
    if c as int < 0x80 then 1
    else if c as int < 0x800 then 2
    else if c as int < 0x1_0000 then 3
    else 4
  }

  /** `str::len`: the length of the UTF-8 encoding in bytes. */
  function ByteLen(s: string): (n: nat)
    ensures |s| <= n <= 4 * |s|
    ensures n == 0 <==> s == []
    decreases |s|
  {
    if s == [] then 0 else Utf8Width(s[0]) + ByteLen(s[1..])
  }

  predicate IsAscii(s: string) { forall i :: 0 <= i < |s| ==> s[i] as int < 0x80 }

  /** On ASCII text the byte length is the number of characters. */
  lemma {:induction false} AsciiByteLen(s: string)
    requires IsAscii(s)
    ensures ByteLen(s) == |s|
    decreases |s|
  {
    if s != [] {
      assert forall i :: 0 <= i < |s[1..]| ==> s[1..][i] == s[i + 1];
      AsciiByteLen(s[1..]);
    }
  }

  /** The byte length of a concatenation is the sum of the byte lengths. */
  lemma {:induction false} ByteLenAppend(s: string, t: string)
    ensures ByteLen(s + t) == ByteLen(s) + ByteLen(t)
    decreases |s|
  {
    if s != [] {
      assert (s + t)[0] == s[0] && (s + t)[1..] == s[1..] + t;
      ByteLenAppend(s[1..], t);
    } else {
      assert s + t == t;
    }
  }

  /** `pat` occurs in `s` starting at index `i`. */
  predicate OccursAt(s: string, pat: string, i: nat)
  {
    i + |pat| <= |s| && s[i..i + |pat|] == pat
  }

  /** `str::contains`: a left-to-right search for an occurrence of `pat`. */
  predicate Contains(s: string, pat: string)
    decreases |s|
  {
    (|pat| <= |s| && s[..|pat|] == pat) || (s != [] && Contains(s[1..], pat))
  }

  /** The search finds `pat` exactly when it occurs somewhere in `s`. */
  lemma {:induction false} ContainsIffOccurs(s: string, pat: string)
    ensures Contains(s, pat) <==> exists i: nat :: OccursAt(s, pat, i)
    decreases |s|
  {
    if |pat| <= |s| && s[..|pat|] == pat {
      assert OccursAt(s, pat, 0);
    } else if s == [] {
    } else {
      ContainsIffOccurs(s[1..], pat);
      if exists i: nat :: OccursAt(s[1..], pat, i) {
        var i: nat :| OccursAt(s[1..], pat, i);
        assert s[i + 1..i + 1 + |pat|] == s[1..][i..i + |pat|];
        assert OccursAt(s, pat, i + 1);
      }
      if exists i: nat :: OccursAt(s, pat, i) {
        var i: nat :| OccursAt(s, pat, i);
        if i == 0 {
          assert false;
        }
        assert s[1..][i - 1..i - 1 + |pat|] == s[i..i + |pat|];
        assert OccursAt(s[1..], pat, i - 1);
      }
    }
  }
}
