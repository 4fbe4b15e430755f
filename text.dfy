/** The three string built-ins of JavaScript that the shopping-list pages rely on:
    `toLowerCase` (ASCII letters only), `includes` (substring test) and `trim`
    (strips ECMAScript white space and line terminators from both ends). */
module Text {

  /** ECMAScript WhiteSpace and LineTerminator code points: the set `String.prototype.trim`
      removes (TAB, LF, VT, FF, CR, SPACE, NBSP, the other Zs spaces, LS, PS and BOM). */
  predicate IsWhitespace(c: char) {
    var n := c as int;
    n == 0x09 || n == 0x0A || n == 0x0B || n == 0x0C || n == 0x0D || n == 0x20 ||
    n == 0xA0 || n == 0x1680 || (0x2000 <= n <= 0x200A) || n == 0x2028 || n == 0x2029 ||
    n == 0x202F || n == 0x205F || n == 0x3000 || n == 0xFEFF
  }

  predicate AllWhitespace(s: string) {
    forall i :: 0 <= i < |s| ==> IsWhitespace(s[i])
  }

  predicate IsUpper(c: char) {
    'A' <= c <= 'Z'
  }

  function LowerChar(c: char): char {
    if IsUpper(c) then (c as int + 32) as char else c
  }

  /** `s.toLowerCase()`, restricted to the ASCII letters. */
  function Lower(s: string): (r: string)
    ensures |r| == |s|
    ensures forall i :: 0 <= i < |s| ==> !IsUpper(r[i])
    ensures forall i :: 0 <= i < |s| && !IsUpper(s[i]) ==> r[i] == s[i]
  {
    seq(|s|, i requires 0 <= i < |s| => LowerChar(s[i]))
  }

  /** Each ASCII upper-case letter becomes the lower-case letter 32 code points above it. */
  lemma LowerOfUpper(s: string)
    ensures forall i :: 0 <= i < |s| && IsUpper(s[i]) ==> Lower(s)[i] as int == s[i] as int + 32
  {
  }

  /** Lowercasing twice is lowercasing once, so comparing `Lower(a)` with an
      already lowered key is a case-insensitive comparison. */
  lemma {:induction false} LowerIdempotent(s: string)
    ensures Lower(Lower(s)) == Lower(s)
  {
    var l := Lower(s);
    forall i | 0 <= i < |s|
      ensures Lower(l)[i] == l[i]
    {
    }
  }

  /** `s.includes(t)`: some window of `s` equals `t`; the empty string is included in every string. */
  function Includes(s: string, t: string): bool
    decreases |s|
  {
    if |t| > |s| then false
    else s[..|t|] == t || (s != [] && Includes(s[1..], t))
  }

  /** `t` sits in `s` at offset `i`. */
  predicate WindowAt(s: string, t: string, i: int) {
    0 <= i <= |s| - |t| && s[i..i + |t|] == t
  }

  /** `Includes` is the substring test: it holds exactly when `t` sits in `s` at some offset. */
  lemma {:induction false} IncludesAt(s: string, t: string)
    ensures Includes(s, t) <==> exists i :: WindowAt(s, t, i)
    decreases |s|
  {
    if |t| > |s| {
    } else if s[..|t|] == t {
      assert WindowAt(s, t, 0);
    } else if s == [] {
    } else {
      IncludesAt(s[1..], t);
      if Includes(s, t) {
        var i :| WindowAt(s[1..], t, i);
        var w, v := s[i + 1..i + 1 + |t|], s[1..][i..i + |t|];
        assert forall k :: 0 <= k < |t| ==> w[k] == v[k];
        assert w == v;
        assert WindowAt(s, t, i + 1);
      } else {
        forall i | WindowAt(s, t, i)
          ensures false
        {
          assert i > 0;
          var w, v := s[i..i + |t|], s[1..][i - 1..i - 1 + |t|];
          assert forall k :: 0 <= k < |t| ==> w[k] == v[k];
          assert w == v;
          assert WindowAt(s[1..], t, i - 1);
        }
      }
    }
  }

  /** The end of the white-space run of `s` that starts at `i`. */
  function SkipForward(s: string, i: nat): (n: nat)
    requires i <= |s|
    ensures i <= n <= |s|
    ensures forall k :: i <= k < n ==> IsWhitespace(s[k])
    ensures n == |s| || !IsWhitespace(s[n])
    decreases |s| - i
  {
    if i < |s| && IsWhitespace(s[i]) then SkipForward(s, i + 1) else i
  }

  /** The start of the white-space run of `s` that ends just before `j`. */
  function SkipBackward(s: string, j: nat): (n: nat)
    requires j <= |s|
    ensures n <= j
    ensures forall k :: n <= k < j ==> IsWhitespace(s[k])
    ensures n == 0 || !IsWhitespace(s[n - 1])
  {
    if j > 0 && IsWhitespace(s[j - 1]) then SkipBackward(s, j - 1) else j
  }

  /** `trimStart`: the suffix of `s` after its leading white space; empty exactly when `s` is
      all white space. */
  function TrimStart(s: string): (r: string)
    ensures |r| <= |s| && r == s[|s| - |r|..]
    ensures AllWhitespace(s[..|s| - |r|])
    ensures r == [] || !IsWhitespace(r[0])
    ensures r == [] <==> AllWhitespace(s)
  {
    var n := SkipForward(s, 0);
    assert forall k :: 0 <= k < n ==> s[..n][k] == s[k];
    s[n..]
  }

  /** `trimEnd`: the prefix of `s` before its trailing white space. */
  function TrimEnd(s: string): (r: string)
    ensures |r| <= |s| && r == s[..|r|]
    ensures AllWhitespace(s[|r|..])
    ensures r == [] || !IsWhitespace(r[|r| - 1])
  {
    var n := SkipBackward(s, |s|);
    assert forall k :: 0 <= k < |s| - n ==> s[n..][k] == s[n + k];
    s[..n]
  }

  /** `r` is the slice `s[i..j]`, with only white space before `i` and after `j`. */
  predicate TrimmedAt(s: string, r: string, i: int, j: int) {
    0 <= i <= j <= |s| && r == s[i..j] && AllWhitespace(s[..i]) && AllWhitespace(s[j..])
  }

  /** `s.trim()`: `s` without the white space at either end. It is empty exactly when `s`
      is all white space, which is what `!s.trim()` tests. */
  function Trim(s: string): (r: string)
    ensures r == [] <==> AllWhitespace(s)
    ensures r == [] || (!IsWhitespace(r[0]) && !IsWhitespace(r[|r| - 1]))
  {
    var t := TrimStart(s);
    var r := TrimEnd(t);
    assert r != [] ==> r[0] == t[0];
    r
  }

  /** `trim` removes white space and nothing else: its result is a slice of `s` with only white
      space before and after it. */
  lemma TrimIsSlice(s: string)
    ensures exists i, j :: TrimmedAt(s, Trim(s), i, j)
  {
    var t := TrimStart(s);
    var r := TrimEnd(t);
    var i := |s| - |t|;
    assert s[i..i + |r|] == r && s[i + |r|..] == t[|r|..];
    assert Trim(s) == r;
    assert TrimmedAt(s, Trim(s), i, i + |r|);
  }

  /** Trimming an already trimmed string changes nothing. */
  lemma TrimIdempotent(s: string)
    ensures Trim(Trim(s)) == Trim(s)
  {
    var r := Trim(s);
    if r != [] {
      assert TrimStart(r) == r;
      assert TrimEnd(r) == r;
    }
  }
}
