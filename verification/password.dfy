/** The password strength rule applied before an account is created. The two
    applications of the shop define it identically. */
module Password {

  /** The four bracket expressions the rule searches for. */
  datatype CharClass = Upper | Lower | Digit | Symbol

  /** The punctuation accepted as a symbol. The backslash in the source
      pattern only escapes the double quote, so it is not itself a member. */
  const Symbols: set<char> :=
    {'!', '@', '#', '$', '%', '^', '&', '*', '(', ')', ',', '.', '?', '"', ':', '{', '}', '|', '<', '>'}

  /** The shortest password the rule accepts. */
  const MinLength: nat := 8

  /** Membership in a bracket expression; the letter and digit ranges are the
      ASCII ones, as the patterns are matched without any flag. */
  predicate InClass(c: char, k: CharClass) {
    match k
    case Upper => 'A' <= c <= 'Z'
    case Lower => 'a' <= c <= 'z'
    case Digit => '0' <= c <= '9'
    case Symbol => c in Symbols
  }

  /** Declarative reading: some character of `p` belongs to class `k`. */
  ghost predicate Contains(p: string, k: CharClass) {
    exists i :: 0 <= i < |p| && InClass(p[i], k)
  }

  /** A regular-expression search for one bracket expression: scans `p` left
      to right and succeeds at the first member of the class. */
  function Search(k: CharClass, p: string): (found: bool)
    ensures found <==> Contains(p, k)
    decreases |p|
  {
    if |p| == 0 then false
    else if InClass(p[0], k) then true
    else
      var rest := Search(k, p[1..]);
      assert rest ==> Contains(p, k) by {
        if rest {
          var i :| 0 <= i < |p| - 1 && InClass(p[1..][i], k);
          assert InClass(p[i + 1], k);
        }
      }
      assert Contains(p, k) ==> rest by {
        if Contains(p, k) {
          var i :| 0 <= i < |p| && InClass(p[i], k);
          assert i != 0;
          assert InClass(p[1..][i - 1], k);
        }
      }
      rest
  }

  /** The strength rule: at least eight characters, with an upper-case letter,
      a lower-case letter, a digit and a symbol somewhere in it. */
  function PasswordIsStrong(p: string): (strong: bool)
    ensures strong <==>
      && |p| >= MinLength
      && Contains(p, Upper)
      && Contains(p, Lower)
      && Contains(p, Digit)
      && Contains(p, Symbol)
  {
    && |p| >= MinLength
    && Search(Upper, p)
    && Search(Lower, p)
    && Search(Digit, p)
    && Search(Symbol, p)
  }

  /** The rule only asks for the presence of characters, so a strong password
      stays strong whatever is appended to it. */
  lemma StrongIsKeptByExtension(p: string, q: string)
    requires PasswordIsStrong(p)
    ensures PasswordIsStrong(p + q)
  {
    var s := p + q;
    forall k: CharClass | Contains(p, k)
      ensures Contains(s, k)
    {
      var i :| 0 <= i < |p| && InClass(p[i], k);
      assert s[i] == p[i];
    }
    assert Contains(p, Upper) && Contains(p, Lower) && Contains(p, Digit) && Contains(p, Symbol);
  }

  /** The default administrator password satisfies the rule it would be
      subject to if it were registered through the form. */
  lemma SeedPasswordIsStrong()
    ensures PasswordIsStrong("Admin123!")
  {
    var p := "Admin123!";
    assert InClass(p[0], Upper);
    assert InClass(p[1], Lower);
    assert InClass(p[5], Digit);
    assert InClass(p[8], Symbol);
  }

  /** A password made of every class but seven characters long is refused:
      the length bound is inclusive at eight. */
  lemma SevenCharactersAreWeak()
    ensures !PasswordIsStrong("Ab1!xyz")
    ensures PasswordIsStrong("Ab1!wxyz")
  {
    var p := "Ab1!wxyz";
    assert InClass(p[0], Upper);
    assert InClass(p[1], Lower);
    assert InClass(p[2], Digit);
    assert InClass(p[3], Symbol);
  }
}
