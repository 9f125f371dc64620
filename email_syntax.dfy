/**
 * The email check both handlers run: `/^[^\s@]+@[^\s@]+\.[^\s@]+$/.test(email)`.
 *
 * `MatchesPattern` reads the regular expression directly: three non-empty
 * runs of "atom" characters (neither whitespace nor '@') joined by '@' and
 * by a literal '.'. `Test` decides the same language by a left-to-right
 * scan, and `TestMatchesPattern` proves the two agree on every string.
 */
module EmailSyntax {
  import opened JsValues

  /** The character class `[^\s@]`. */
  predicate IsAtom(c: char) {
    !IsWhitespace(c) && c != '@'
  }

  /** `[^\s@]*` matches the whole of `s`. */
  predicate AllAtoms(s: string) {
    forall i :: 0 <= i < |s| ==> IsAtom(s[i])
  }

  /**
   * `^[^\s@]+@[^\s@]+\.[^\s@]+$` matches `s`: the '@' at `at` and the '.'
   * at `dot` split `s` into three non-empty atom runs.
   */
  ghost predicate MatchesPattern(s: string) {
    exists at, dot :: SplitsAt(s, at, dot)
  }

  /** The '@' at `at` and the '.' at `dot` cut `s` into the three runs of the pattern. */
  predicate SplitsAt(s: string, at: int, dot: int) {
    && 0 < at && at + 1 < dot && dot + 1 < |s|
    && s[at] == '@' && s[dot] == '.'
    && AllAtoms(s[..at]) && AllAtoms(s[at + 1..dot]) && AllAtoms(s[dot + 1..])
  }

  /** Index of the first `c` in `s`, or `|s|` when there is none. */
  function IndexOf(s: string, c: char): (r: nat)
    ensures r <= |s|
    ensures r < |s| ==> s[r] == c
    ensures forall i :: 0 <= i < r ==> s[i] != c
  {
    if s == [] then 0
    else if s[0] == c then 0
    else 1 + IndexOf(s[1..], c)
  }

  /** The domain `d` (everything after the '@') has a '.' with a character on each side. */
  predicate HasInnerDot(d: string) {
    |d| >= 3 && IndexOf(d[1..|d| - 1], '.') < |d| - 2
  }

  /**
   * The executable form of the regular-expression test. An accepted address
   * has at least five characters (`a@b.c`) and no whitespace anywhere.
   */
  predicate Test(s: string): (r: bool)
    ensures r ==> |s| >= 5
    ensures r ==> forall i :: 0 <= i < |s| ==> !IsWhitespace(s[i])
  {
    var at := IndexOf(s, '@');
    && 0 < at < |s|
    && AllAtoms(s[..at])
    && AllAtoms(s[at + 1..])
    && HasInnerDot(s[at + 1..])
  }

  lemma AllAtomsSlice(s: string, i: nat, j: nat)
    requires AllAtoms(s) && i <= j <= |s|
    ensures AllAtoms(s[i..j])
  {
    assert forall k :: 0 <= k < j - i ==> s[i..j][k] == s[i + k];
  }

  lemma IndexOfIsFirst(s: string, c: char, k: nat)
    requires k < |s| && s[k] == c
    requires forall i :: 0 <= i < k ==> s[i] != c
    ensures IndexOf(s, c) == k
  {
  }

  lemma TestImpliesPattern(s: string)
    requires Test(s)
    ensures MatchesPattern(s)
  {
    var at := IndexOf(s, '@');
    var d := s[at + 1..];
    var k := IndexOf(d[1..|d| - 1], '.');
    var dot := at + 2 + k;
    assert d[1 + k] == '.';
    AllAtomsSlice(d, 0, 1 + k);
    AllAtomsSlice(d, 2 + k, |d|);
    assert s[at + 1..dot] == d[0..1 + k];
    assert s[dot + 1..] == d[2 + k..];
    assert SplitsAt(s, at, dot);
  }

  lemma AllAtomsAround(a: string, c: char, b: string)
    requires AllAtoms(a) && IsAtom(c) && AllAtoms(b)
    ensures AllAtoms(a + [c] + b)
  {
    var d := a + [c] + b;
    forall i | 0 <= i < |d| ensures IsAtom(d[i]) {
      if i < |a| {
        assert d[i] == a[i];
      } else if i > |a| {
        assert d[i] == b[i - |a| - 1];
      }
    }
  }

  lemma PatternImpliesTest(s: string)
    requires MatchesPattern(s)
    ensures Test(s)
  {
    var at, dot :| SplitsAt(s, at, dot);
    assert forall i :: 0 <= i < at ==> s[i] == s[..at][i];
    IndexOfIsFirst(s, '@', at);
    var d := s[at + 1..];
    assert d == s[at + 1..dot] + ['.'] + s[dot + 1..];
    AllAtomsAround(s[at + 1..dot], '.', s[dot + 1..]);
    assert d[1..|d| - 1][dot - at - 2] == '.';
  }

  /** The scan and the regular expression accept exactly the same strings. */
  lemma {:induction false} TestMatchesPattern(s: string)
    ensures Test(s) <==> MatchesPattern(s)
  {
    if Test(s) {
      TestImpliesPattern(s);
    }
    if MatchesPattern(s) {
      PatternImpliesTest(s);
    }
  }

  /** An ordinary address is accepted. */
  lemma AcceptsOrdinaryAddress()
    ensures MatchesPattern("ada@example.com")
  {
    var s := "ada@example.com";
    assert s[..3] == "ada" && s[4..11] == "example" && s[12..] == "com";
    assert AllAtoms("ada") && AllAtoms("example") && AllAtoms("com");
    assert SplitsAt(s, 3, 11);
  }

  /** An address without '@' is refused. */
  lemma RefusesMissingAt()
    ensures !MatchesPattern("not-an-email")
  {
    TestMatchesPattern("not-an-email");
  }

  /** A domain without '.' is refused. */
  lemma RefusesMissingDot()
    ensures !MatchesPattern("a@b")
  {
    TestMatchesPattern("a@b");
  }

  /** A space in the local part is refused. */
  lemma RefusesWhitespace()
    ensures !MatchesPattern("a b@c.com")
  {
    TestMatchesPattern("a b@c.com");
  }
}
