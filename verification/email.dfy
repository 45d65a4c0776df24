/** The e-mail normalisation the storefront applies before it stores or looks
    up an address: surrounding white space removed, then lower-cased. */
module Email {

  /** The characters Python's `str.isspace` accepts, which is what `strip()`
      with no argument removes. */
  predicate IsSpace(c: char) {
    || '\t' <= c <= '\r'
    || '\U{1C}' <= c <= '\U{1F}'
    || c == ' '
    || c == '\U{85}'
    || c == '\U{A0}'
    || c == '\U{1680}'
    || '\U{2000}' <= c <= '\U{200A}'
    || c == '\U{2028}'
    || c == '\U{2029}'
    || c == '\U{202F}'
    || c == '\U{205F}'
    || c == '\U{3000}'
  }

  /** Neither end of `s` is white space. */
  predicate IsStripped(s: string) {
    |s| > 0 ==> !IsSpace(s[0]) && !IsSpace(s[|s| - 1])
  }

  /** `s` without its leading white space: a suffix of `s` whose dropped
      prefix is all white space and which does not itself start with any. */
  function TrimStart(s: string): (r: string)
    ensures |r| <= |s| && r == s[|s| - |r|..]
    ensures forall k :: 0 <= k < |s| - |r| ==> IsSpace(s[k])
    ensures |r| > 0 ==> !IsSpace(r[0])
    decreases |s|
  {
    if |s| > 0 && IsSpace(s[0]) then TrimStart(s[1..]) else s
  }

  /** `s` without its trailing white space: a prefix of `s` whose dropped
      suffix is all white space and which does not itself end with any. */
  function TrimEnd(s: string): (r: string)
    ensures |r| <= |s| && r == s[..|r|]
    ensures forall k :: |r| <= k < |s| ==> IsSpace(s[k])
    ensures |r| > 0 ==> !IsSpace(r[|r| - 1])
    decreases |s|
  {
    if |s| > 0 && IsSpace(s[|s| - 1]) then TrimEnd(s[..|s| - 1]) else s
  }

  /** Python's `str.strip()`: the longest infix of `s` with white space at
      neither end, everything cut from either side being white space. */
  function Strip(s: string): (r: string)
    ensures IsStripped(r)
    ensures |r| <= |TrimStart(s)| <= |s|
    ensures forall k :: 0 <= k < |r| ==> r[k] == s[|s| - |TrimStart(s)| + k]
    ensures forall k :: 0 <= k < |s| - |TrimStart(s)| ==> IsSpace(s[k])
    ensures forall k :: |s| - |TrimStart(s)| + |r| <= k < |s| ==> IsSpace(s[k])
  {
    var t := TrimStart(s);
    var r := TrimEnd(t);
    assert |r| > 0 ==> r[0] == t[0];
    r
  }

  /** Lower-casing of one character. Only the ASCII capitals are folded. */
  function LowerChar(c: char): (d: char)
    ensures 'A' <= c <= 'Z' ==> d as int == c as int + 32
    ensures !('A' <= c <= 'Z') ==> d == c
  {
    if 'A' <= c <= 'Z' then (c as int + 32) as char else c
  }

  /** Python's `str.lower()` restricted to ASCII capitals. */
  function Lower(s: string): (r: string)
    ensures |r| == |s|
    ensures forall k :: 0 <= k < |s| ==> r[k] == LowerChar(s[k])
  {
    seq(|s|, k requires 0 <= k < |s| => LowerChar(s[k]))
  }

  /** No ASCII capital letter occurs in `s`. */
  predicate IsLowerCase(s: string) {
    forall k :: 0 <= k < |s| ==> !('A' <= s[k] <= 'Z')
  }

  /** The key under which the storefront stores and finds an account:
      `email.strip().lower()`. */
  function Normalise(email: string): (key: string)
    ensures IsStripped(key) && IsLowerCase(key)
    ensures |key| <= |email|
  {
    LowerKeepsStripped(Strip(email));
    Lower(Strip(email))
  }

  /** Lower-casing neither creates nor removes white space, so it keeps a
      stripped string stripped. */
  lemma LowerKeepsStripped(s: string)
    requires IsStripped(s)
    ensures IsStripped(Lower(s))
  {
    if |s| > 0 {
      assert !IsSpace(LowerChar(s[0]));
      assert !IsSpace(LowerChar(s[|s| - 1]));
    }
  }

  /** Stripping a string that has no surrounding white space changes nothing. */
  lemma StripOfStripped(s: string)
    requires IsStripped(s)
    ensures Strip(s) == s
  {
    assert TrimStart(s) == s;
    assert TrimEnd(s) == s;
  }

  /** Lower-casing a string with no capitals changes nothing. */
  lemma LowerOfLowerCase(s: string)
    requires IsLowerCase(s)
    ensures Lower(s) == s
  {
  }

  /** Normalising an already normalised key gives the key back, so the key
      stored at registration is found again when the same address is typed
      with different case or padding. */
  lemma {:induction false} NormaliseIsIdempotent(email: string)
    ensures Normalise(Normalise(email)) == Normalise(email)
  {
    var key := Normalise(email);
    StripOfStripped(key);
    LowerOfLowerCase(key);
  }

  /** Lower-casing commutes with dropping leading white space. */
  lemma {:induction false} TrimStartLower(s: string)
    ensures TrimStart(Lower(s)) == Lower(TrimStart(s))
    decreases |s|
  {
    if |s| > 0 {
      var l := Lower(s);
      LowerCharKeepsSpace(s[0]);
      if IsSpace(s[0]) {
        assert l[1..] == Lower(s[1..]);
        assert TrimStart(l) == TrimStart(l[1..]);
        TrimStartLower(s[1..]);
      } else {
        assert TrimStart(l) == l;
      }
    }
  }

  /** Lower-casing commutes with dropping trailing white space. */
  lemma {:induction false} TrimEndLower(s: string)
    ensures TrimEnd(Lower(s)) == Lower(TrimEnd(s))
    decreases |s|
  {
    if |s| > 0 {
      var l := Lower(s);
      LowerCharKeepsSpace(s[|s| - 1]);
      if IsSpace(s[|s| - 1]) {
        assert l[..|s| - 1] == Lower(s[..|s| - 1]);
        assert TrimEnd(l) == TrimEnd(l[..|s| - 1]);
        TrimEndLower(s[..|s| - 1]);
      } else {
        assert TrimEnd(l) == l;
      }
    }
  }

  /** No white-space character is a capital, and lower-casing makes none. */
  lemma LowerCharKeepsSpace(c: char)
    ensures IsSpace(LowerChar(c)) <==> IsSpace(c)
  {
  }

  /** Lower-casing commutes with stripping. */
  lemma StripLower(s: string)
    ensures Strip(Lower(s)) == Lower(Strip(s))
  {
    TrimStartLower(s);
    TrimEndLower(TrimStart(s));
  }

  /** Lower-casing twice is lower-casing once. */
  lemma LowerIsIdempotent(s: string)
    ensures Lower(Lower(s)) == Lower(s)
  {
    assert IsLowerCase(Lower(s));
    LowerOfLowerCase(Lower(s));
  }

  /** Letter case does not distinguish two addresses: an address and its
      lower-cased spelling have the same key. */
  lemma NormaliseIgnoresCase(email: string)
    ensures Normalise(Lower(email)) == Normalise(email)
  {
    StripLower(email);
    LowerIsIdempotent(Strip(email));
  }

  /** Surrounding white space does not distinguish two addresses: one more
      white-space character at the front leaves the key unchanged. */
  lemma NormaliseIgnoresPadding(c: char, email: string)
    requires IsSpace(c)
    ensures Normalise([c] + email) == Normalise(email)
  {
    assert ([c] + email)[1..] == email;
  }
}
