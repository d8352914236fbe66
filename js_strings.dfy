/**
 * The few JavaScript string semantics the contact action relies on:
 * truthiness, `String.prototype.trim`, `.length` (UTF-16 code units) and
 * substring containment, which later lemmas use to speak about composed text.
 */
module JsStrings {

  /** A string is truthy in JavaScript exactly when it is not empty. */
  predicate Truthy(s: string) {
    s != ""
  }

  /**
   * The code points `trim` removes: ECMAScript's WhiteSpace (TAB, VT, FF,
   * SPACE, NO-BREAK SPACE, ZERO WIDTH NO-BREAK SPACE and every other Unicode
   * "Zs" space separator) and LineTerminator (LF, CR, LS, PS).
   */
  predicate IsJsWhitespace(c: char) {
    || c == '\t' || c == '\U{000B}' || c == '\U{000C}' || c == ' '
    || c == '\U{00A0}' || c == '\U{FEFF}'
    || c == '\U{1680}' || ('\U{2000}' <= c <= '\U{200A}')
    || c == '\U{202F}' || c == '\U{205F}' || c == '\U{3000}'
    || c == '\n' || c == '\r' || c == '\U{2028}' || c == '\U{2029}'
  }

  predicate AllWhitespace(s: string) {
    forall i :: 0 <= i < |s| ==> IsJsWhitespace(s[i])
  }

  /** Drops the leading whitespace: the result is a suffix that does not start with whitespace. */
  function TrimStart(s: string): (r: string)
    ensures |r| <= |s| && r == s[|s| - |r|..]
    ensures forall i :: 0 <= i < |s| - |r| ==> IsJsWhitespace(s[i])
    ensures r != "" ==> !IsJsWhitespace(r[0])
  {
    if s != "" && IsJsWhitespace(s[0]) then TrimStart(s[1..]) else s
  }

  /** Drops the trailing whitespace: the result is a prefix that does not end with whitespace. */
  function TrimEnd(s: string): (r: string)
    ensures |r| <= |s| && r == s[..|r|]
    ensures forall i :: |r| <= i < |s| ==> IsJsWhitespace(s[i])
    ensures r != "" ==> !IsJsWhitespace(r[|r| - 1])
  {
    if s != "" && IsJsWhitespace(s[|s| - 1]) then TrimEnd(s[..|s| - 1]) else s
  }

  /**
   * `String.prototype.trim`: the piece of `s` left once the whitespace
   * before and after it is dropped; the piece neither starts nor ends with
   * whitespace.
   */
  function Trim(s: string): (r: string)
    ensures exists k :: 0 <= k <= |s| - |r| && OccursAt(s, r, k) && AllWhitespace(s[..k]) && AllWhitespace(s[k + |r|..])
    ensures r != "" ==> !IsJsWhitespace(r[0]) && !IsJsWhitespace(r[|r| - 1])
  {
    var t := TrimStart(s);
    var r := TrimEnd(t);
    var k := |s| - |t|;
    SliceOfSuffix(s, k, |r|);
    assert OccursAt(s, r, k);
    assert AllWhitespace(s[..k]) by {
      forall i | 0 <= i < k ensures IsJsWhitespace(s[..k][i]) {
        assert s[..k][i] == s[i];
      }
    }
    var tail := s[k + |r|..];
    assert AllWhitespace(tail) by {
      forall i | 0 <= i < |tail| ensures IsJsWhitespace(tail[i]) {
        assert tail[i] == t[|r| + i];
      }
    }
    r
  }

  /** A prefix of a suffix is a slice. */
  lemma SliceOfSuffix<T>(s: seq<T>, k: int, n: int)
    requires 0 <= k <= |s| && 0 <= n <= |s| - k
    ensures s[k..][..n] == s[k..k + n]
  {
  }

  /** `s.trim() !== ''` holds exactly when `s` has a character that is not whitespace. */
  lemma TrimBlankIff(s: string)
    ensures Trim(s) == "" <==> AllWhitespace(s)
  {
  }

  /** The UTF-16 code units one character occupies. */
  function CodeUnits(c: char): nat {
    if c as int > 0xFFFF then 2 else 1
  }

  /** JavaScript's `.length`: a count of UTF-16 code units, not of characters. */
  function Utf16Length(s: string): (n: nat)
    ensures |s| <= n <= 2 * |s|
    ensures n == 0 <==> s == ""
    ensures |s| == 1 ==> n == CodeUnits(s[0])
  {
    if s == "" then 0 else CodeUnits(s[0]) + Utf16Length(s[1..])
  }

  /** `.length` adds up over concatenation, so every astral character counts two code units wherever it sits. */
  lemma {:induction false} Utf16LengthConcat(a: string, b: string)
    ensures Utf16Length(a + b) == Utf16Length(a) + Utf16Length(b)
  {
    if a != "" {
      assert (a + b)[0] == a[0];
      assert (a + b)[1..] == a[1..] + b;
      Utf16LengthConcat(a[1..], b);
    } else {
      assert a + b == b;
    }
  }

  /** One astral character, such as an emoji, is two code units toward zod's `min` and `max`. */
  lemma AstralCharCountsTwo(a: string, c: char, b: string)
    requires c as int > 0xFFFF
    ensures Utf16Length(a + [c] + b) == Utf16Length(a) + 2 + Utf16Length(b)
  {
    Utf16LengthConcat(a + [c], b);
    Utf16LengthConcat(a, [c]);
  }

  /** On text in the Basic Multilingual Plane the length is the number of characters. */
  lemma {:induction false} Utf16LengthOfBmp(s: string)
    requires forall i :: 0 <= i < |s| ==> s[i] as int <= 0xFFFF
    ensures Utf16Length(s) == |s|
  {
    if s != "" {
      Utf16LengthOfBmp(s[1..]);
    }
  }

  /** `t` occurs in `s` starting at index `k`. */
  predicate OccursAt(s: string, t: string, k: int) {
    0 <= k && k + |t| <= |s| && s[k..k + |t|] == t
  }

  /** `s.includes(t)`. */
  predicate Contains(s: string, t: string) {
    exists k :: 0 <= k <= |s| && OccursAt(s, t, k)
  }

  lemma ContainsMiddle(a: string, t: string, b: string)
    ensures Contains(a + t + b, t)
  {
    var s := a + t + b;
    assert s[|a|..|a| + |t|] == t;
    assert OccursAt(s, t, |a|);
  }
}
