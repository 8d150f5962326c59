/**
 * The string operations the handlers and filters use: `trim`, lower-casing,
 * `includes` and `replace` with a global one-character pattern.
 */
module Text {

  /** The characters `String.prototype.trim` strips: white space and line terminators. */
  predicate IsSpace(c: char)
  {
    c == ' ' || c == '\t' || c == '\n' || c == '\r' || c == '\U{000B}' || c == '\U{000C}'
    || c == '\U{00A0}' || c == '\U{1680}' || ('\U{2000}' <= c <= '\U{200A}')
    || c == '\U{2028}' || c == '\U{2029}' || c == '\U{202F}' || c == '\U{205F}'
    || c == '\U{3000}' || c == '\U{FEFF}'
  }

  /** `s` without its leading white space. */
  function TrimStart(s: string): (r: string)
    ensures |r| <= |s| && r == s[|s| - |r|..]
    ensures r == [] || !IsSpace(r[0])
    ensures forall i :: 0 <= i < |s| - |r| ==> IsSpace(s[i])
  {
    if s != [] && IsSpace(s[0]) then TrimStart(s[1..]) else s
  }

  /** `s` without its trailing white space. */
  function TrimEnd(s: string): (r: string)
    ensures |r| <= |s| && r == s[..|r|]
    ensures r == [] || !IsSpace(r[|r| - 1])
    ensures forall i :: |r| <= i < |s| ==> IsSpace(s[i])
  {
    if s != [] && IsSpace(s[|s| - 1]) then TrimEnd(s[..|s| - 1]) else s
  }

  /** `s[a..b]` is `s` with only white space cut off before `a` and from `b` on. */
  predicate BlankOutside(s: string, a: int, b: int)
  {
    && 0 <= a <= b <= |s|
    && (forall i :: 0 <= i < a ==> IsSpace(s[i]))
    && (forall i :: b <= i < |s| ==> IsSpace(s[i]))
  }

  /** `r` is `s` with only white space cut off at its two ends. */
  ghost predicate TrimmedFrom(s: string, r: string)
  {
    exists a, b :: BlankOutside(s, a, b) && r == s[a..b]
  }

  /**
   * `s.trim()`: the slice of `s` left when only leading and trailing white
   * space is cut off; it neither starts nor ends with white space, and it is
   * empty exactly when `s` is blank.
   */
  function Trim(s: string): (r: string)
    ensures |r| <= |s|
    ensures r == [] || (!IsSpace(r[0]) && !IsSpace(r[|r| - 1]))
    ensures r == [] <==> forall i :: 0 <= i < |s| ==> IsSpace(s[i])
    ensures TrimmedFrom(s, r)
  {
    var t := TrimStart(s);
    var r := TrimEnd(t);
    assert r != [] ==> r[0] == t[0];
    assert r == [] ==> t == [];
    TrimSlice(s, t, r);
    r
  }

  /** Cutting a blank prefix and then a blank suffix leaves a slice with blanks outside it. */
  lemma TrimSlice(s: string, t: string, r: string)
    requires |t| <= |s| && t == s[|s| - |t|..] && forall i :: 0 <= i < |s| - |t| ==> IsSpace(s[i])
    requires |r| <= |t| && r == t[..|r|] && forall i :: |r| <= i < |t| ==> IsSpace(t[i])
    ensures BlankOutside(s, |s| - |t|, |s| - |t| + |r|) && r == s[|s| - |t|..|s| - |t| + |r|]
  {
    var a := |s| - |t|;
    forall i | a + |r| <= i < |s| ensures IsSpace(s[i]) {
      assert s[i] == t[i - a];
    }
  }

  /** Lower-casing of one character, for the ASCII letters. */
  function LowerChar(c: char): (r: char)
    ensures 'A' <= c <= 'Z' ==> r as int == c as int + 32
    ensures !('A' <= c <= 'Z') ==> r == c
  {
    if 'A' <= c <= 'Z' then (c as int + 32) as char else c
  }

  /** `s.toLowerCase()`, restricted to the ASCII letters. */
  function ToLower(s: string): (r: string)
    ensures |r| == |s|
    ensures forall i :: 0 <= i < |s| ==> r[i] == LowerChar(s[i])
  {
    seq(|s|, i requires 0 <= i < |s| => LowerChar(s[i]))
  }

  /** `t` occurs in `s` starting at index `i`. */
  predicate OccursAt(s: string, t: string, i: int)
  {
    0 <= i <= |s| - |t| && s[i..i + |t|] == t
  }

  /** `s.includes(t)`: `t` occurs in `s` as a contiguous piece. */
  predicate Includes(s: string, t: string)
  {
    exists i | 0 <= i <= |s| :: OccursAt(s, t, i)
  }

  /** Every string includes the empty string, so an empty search term matches everything. */
  lemma IncludesEmpty(s: string)
    ensures Includes(s, [])
  {
    assert OccursAt(s, [], 0);
  }

  /**
   * Finding `t` in `s` survives lower-casing both, so a lower-cased search
   * matches whatever an exact search matches.
   */
  lemma IncludesLowered(s: string, t: string)
    requires Includes(s, t)
    ensures Includes(ToLower(s), ToLower(t))
  {
    var i :| 0 <= i <= |s| && OccursAt(s, t, i);
    assert forall k :: 0 <= k < |t| ==> s[i + k] == t[k];
    assert ToLower(s)[i..i + |t|] == ToLower(t);
    assert OccursAt(ToLower(s), ToLower(t), i);
  }

  /** `s.replace(/c/g, with)`: every occurrence of `c` becomes `with`. */
  function ReplaceAll(s: string, c: char, with: string): (r: string)
    ensures |with| == 1 ==> |r| == |s| && forall i :: 0 <= i < |s| ==> r[i] == (if s[i] == c then with[0] else s[i])
    ensures c !in with ==> c !in r
    ensures forall x :: x in r ==> x in s || x in with
    ensures c !in s ==> r == s
  {
    if s == [] then []
    else (if s[0] == c then with else [s[0]]) + ReplaceAll(s[1..], c, with)
  }

  /** Replacing works piece by piece. */
  lemma {:induction false} ReplaceAllConcat(a: string, b: string, c: char, with: string)
    ensures ReplaceAll(a + b, c, with) == ReplaceAll(a, c, with) + ReplaceAll(b, c, with)
  {
    if a == [] {
      assert a + b == b;
    } else {
      assert (a + b)[0] == a[0] && (a + b)[1..] == a[1..] + b;
      ReplaceAllConcat(a[1..], b, c, with);
    }
  }

  /** Replacing two different characters by strings free of both gives the same result in either order. */
  lemma {:induction false} ReplaceAllCommute(s: string, c: char, x: string, d: char, y: string)
    requires c != d && c !in y && d !in x
    ensures ReplaceAll(ReplaceAll(s, c, x), d, y) == ReplaceAll(ReplaceAll(s, d, y), c, x)
  {
    if s != [] {
      var head := if s[0] == c then x else [s[0]];
      var head' := if s[0] == d then y else [s[0]];
      ReplaceAllConcat(head, ReplaceAll(s[1..], c, x), d, y);
      ReplaceAllConcat(head', ReplaceAll(s[1..], d, y), c, x);
      ReplaceAllCommute(s[1..], c, x, d, y);
    }
  }
}
