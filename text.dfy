/** `String.prototype.trim` and the "blank after trimming" test that every
    form uses before it accepts an input. */
module Text {

  /** The code points ECMAScript counts as WhiteSpace or LineTerminator,
      which `trim` removes from both ends. */
  predicate IsWhitespace(c: char)
  {
    var n := c as int;
    n == 0x09 || n == 0x0A || n == 0x0B || n == 0x0C || n == 0x0D || n == 0x20
    || n == 0xA0 || n == 0x1680 || (0x2000 <= n <= 0x200A) || n == 0x2028
    || n == 0x2029 || n == 0x202F || n == 0x205F || n == 0x3000 || n == 0xFEFF
  }

  /** Every character of `s` is whitespace (true of the empty string). */
  predicate AllWhitespace(s: string)
  {
    forall i :: 0 <= i < |s| ==> IsWhitespace(s[i])
  }

  /** From position `i`, steps over whitespace: the result is the first
      position at or after `i` that is not whitespace, or `|s|`. */
  function SkipLeading(s: string, i: nat): (k: nat)
    requires i <= |s|
    ensures i <= k <= |s|
    ensures forall j :: i <= j < k ==> IsWhitespace(s[j])
    ensures k == |s| || !IsWhitespace(s[k])
    decreases |s| - i
  {
    if i < |s| && IsWhitespace(s[i]) then SkipLeading(s, i + 1) else i
  }

  /** From position `j` backwards, steps over whitespace: the result is the
      end of the text before `j` once its trailing whitespace is dropped. */
  function SkipTrailing(s: string, j: nat): (k: nat)
    requires j <= |s|
    ensures k <= j
    ensures forall i :: k <= i < j ==> IsWhitespace(s[i])
    ensures k == 0 || !IsWhitespace(s[k - 1])
  {
    if j > 0 && IsWhitespace(s[j - 1]) then SkipTrailing(s, j - 1) else j
  }

  /** `s.trim()`: the leading and the trailing whitespace are dropped. The
      result is a piece of `s` with no whitespace at its ends, and everything
      dropped around it is whitespace. */
  function Trim(s: string): (r: string)
    ensures |r| <= |s|
    ensures r == [] || (!IsWhitespace(r[0]) && !IsWhitespace(r[|r| - 1]))
    ensures r == [] <==> AllWhitespace(s)
    ensures var a := SkipLeading(s, 0);
      a + |r| <= |s| && r == s[a..a + |r|]
      && AllWhitespace(s[..a]) && AllWhitespace(s[a + |r|..])
  {
    var a := SkipLeading(s, 0);
    if a == |s| then [] else s[a..SkipTrailing(s, |s|)]
  }

  /** `!s.trim()`: the input is empty or only whitespace. */
  predicate IsBlank(s: string)
  {
    Trim(s) == []
  }

  /** Trimming is idempotent. */
  lemma TrimIdempotent(s: string)
    ensures Trim(Trim(s)) == Trim(s)
  {
    var r := Trim(s);
    TrimUnchanged(r);
  }

  /** A string that neither starts nor ends with whitespace is its own trim. */
  lemma TrimUnchanged(s: string)
    requires s == [] || (!IsWhitespace(s[0]) && !IsWhitespace(s[|s| - 1]))
    ensures Trim(s) == s
  {
    if s != [] {
      assert SkipLeading(s, 0) == 0;
      assert SkipTrailing(s, |s|) == |s|;
      assert s[0..|s|] == s;
    }
  }
}
