/**
 * The few java.lang.String operations the serial link relies on:
 * indexOf(char), trim() and contains(CharSequence), over seq<char>. A
 * Dafny char is a Unicode scalar value rather than a UTF-16 code unit;
 * the operations here only compare against '\n', U+0020 and ASCII text,
 * where the two agree.
 */
module Strings {

  /** `r` occurs in `s` starting at position `i`. */
  predicate OccursAt(s: string, r: string, i: int)
  {
    0 <= i <= |s| - |r| && s[i..i + |r|] == r
  }

  /** String.contains: `r` occurs in `s` as a contiguous run of characters. */
  predicate Contains(s: string, r: string)
  {
    exists i | 0 <= i <= |s| - |r| :: OccursAt(s, r, i)
  }

  /**
   * Every string contains the empty string and nothing longer than itself,
   * and a one-character string exactly when that character occurs.
   */
  lemma ContainsSingle(s: string, c: char)
    ensures Contains(s, [])
    ensures forall r | |r| > |s| :: !Contains(s, r)
    ensures Contains(s, [c]) <==> c in s
  {
    assert OccursAt(s, [], 0);
    if c in s {
      var i :| 0 <= i < |s| && s[i] == c;
      assert OccursAt(s, [c], i);
    }
    if Contains(s, [c]) {
      var i :| 0 <= i <= |s| - 1 && OccursAt(s, [c], i);
      assert s[i] == s[i..i + 1][0];
    }
  }

  /** The first position of `c` in `s`, or -1, as String.indexOf(c) reports it. */
  function IndexOf<T(==)>(s: seq<T>, c: T): (r: int)
    ensures -1 <= r < |s|
    ensures r == -1 ==> c !in s
    ensures r >= 0 ==> s[r] == c && c !in s[..r]
  {
    if |s| == 0 then -1
    else if s[0] == c then 0
    else
      var k := IndexOf(s[1..], c);
      if k == -1 then -1
      else
        assert s[..k + 1] == [s[0]] + s[1..][..k];
        k + 1
  }

  /** The characters String.trim() removes: every code unit up to U+0020. */
  predicate IsTrimmable(c: char)
  {
    c <= ' '
  }

  function TrimStart(s: string): (r: string)
    ensures |r| <= |s| && r == s[|s| - |r|..]
    ensures r == [] || !IsTrimmable(r[0])
    ensures forall i | 0 <= i < |s| - |r| :: IsTrimmable(s[i])
  {
    if |s| > 0 && IsTrimmable(s[0]) then TrimStart(s[1..]) else s
  }

  function TrimEnd(s: string): (r: string)
    ensures |r| <= |s| && r == s[..|r|]
    ensures r == [] || !IsTrimmable(r[|r| - 1])
    ensures forall i | |r| <= i < |s| :: IsTrimmable(s[i])
  {
    if |s| > 0 && IsTrimmable(s[|s| - 1]) then TrimEnd(s[..|s| - 1]) else s
  }

  /**
   * String.trim(): `s` without its leading and trailing trimmable
   * characters. The result is a piece of `s`, it is empty exactly when
   * every character of `s` is trimmable, and otherwise it starts and ends
   * with a character trim() keeps.
   */
  function Trim(s: string): (r: string)
    ensures Contains(s, r)
    ensures r == [] <==> forall i | 0 <= i < |s| :: IsTrimmable(s[i])
    ensures r != [] ==> !IsTrimmable(r[0]) && !IsTrimmable(r[|r| - 1])
  {
    var t := TrimStart(s);
    var r := TrimEnd(t);
    TrimPiece(s, t, r);
    r
  }

  /**
   * trim() removes characters only at the two ends: its result is `s`
   * with a run of trimmable characters cut from the start and one cut
   * from the end, and nothing else.
   */
  lemma TrimCutsOnlyEnds(s: string)
    ensures exists i, j | 0 <= i <= j <= |s| ::
      && Trim(s) == s[i..j]
      && (forall k | 0 <= k < i :: IsTrimmable(s[k]))
      && (forall k | j <= k < |s| :: IsTrimmable(s[k]))
  {
    var t := TrimStart(s);
    TrimPiece(s, t, TrimEnd(t));
  }

  /**
   * A piece `r` of `t`, itself a suffix of `s`, with only trimmable
   * characters cut off before `t` and after `r`, is `s` cut at both ends.
   */
  lemma TrimPiece(s: string, t: string, r: string)
    requires |t| <= |s| && t == s[|s| - |t|..]
    requires forall k | 0 <= k < |s| - |t| :: IsTrimmable(s[k])
    requires |r| <= |t| && r == t[..|r|]
    requires forall k | |r| <= k < |t| :: IsTrimmable(t[k])
    ensures OccursAt(s, r, |s| - |t|)
    ensures exists i, j | 0 <= i <= j <= |s| ::
      && r == s[i..j]
      && (forall k | 0 <= k < i :: IsTrimmable(s[k]))
      && (forall k | j <= k < |s| :: IsTrimmable(s[k]))
  {
    var i, j := |s| - |t|, |s| - |t| + |r|;
    assert r == s[i..j];
    assert forall k | j <= k < |s| :: IsTrimmable(s[k]) by {
      forall k | j <= k < |s| ensures IsTrimmable(s[k]) {
        assert s[k] == t[k - i];
      }
    }
  }
}
