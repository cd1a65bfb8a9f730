/** The name pattern `^\p{L}+(?:[ '\-]\p{L}+)*$` (with the `u` flag, so it
    reads code points) as a grammar, and a direct characterisation of the
    strings it accepts. The letter class `\p{L}` is a parameter `isLetter`. */
module NamePattern {

  /** The separator class `[ '\-]`. */
  predicate IsSeparator(c: char) {
    c == ' ' || c == '\'' || c == '-'
  }

  /** What Unicode guarantees and the proofs need: no separator is a letter. */
  predicate SeparatorsAreNotLetters(isLetter: char -> bool) {
    !isLetter(' ') && !isLetter('\'') && !isLetter('-')
  }

  /** `\p{L}+`: one or more letters. */
  predicate LetterRun(isLetter: char -> bool, s: string) {
    |s| > 0 && forall i | 0 <= i < |s| :: isLetter(s[i])
  }

  /** `(?:[ '\-]\p{L}+)*`: zero or more groups of one separator followed by a letter run. */
  predicate SeparatedRuns(isLetter: char -> bool, s: string)
    decreases |s|
  {
    s == [] ||
    (IsSeparator(s[0]) &&
     exists j | 2 <= j <= |s| :: LetterRun(isLetter, s[1..j]) && SeparatedRuns(isLetter, s[j..]))
  }

  /** The whole anchored pattern: a letter run, then separated runs up to the end. */
  predicate MatchesNamePattern(isLetter: char -> bool, s: string)
    ensures MatchesNamePattern(isLetter, s) ==> |s| > 0 && isLetter(s[0])
  {
    exists j | 1 <= j <= |s| :: LetterRun(isLetter, s[..j]) && SeparatedRuns(isLetter, s[j..])
  }

  /** The direct characterisation: non-empty, a letter at both ends, only
      letters and separators, and never two separators side by side. */
  predicate WellFormedName(isLetter: char -> bool, s: string) {
    |s| > 0 && isLetter(s[0]) && isLetter(s[|s| - 1])
    && (forall i | 0 <= i < |s| :: isLetter(s[i]) || IsSeparator(s[i]))
    && (forall i | 0 <= i < |s| - 1 :: !SeparatorPairAt(s, i))
  }

  /** Positions `i` and `i + 1` both hold a separator. */
  predicate SeparatorPairAt(s: string, i: int)
    requires 0 <= i < |s| - 1
  {
    IsSeparator(s[i]) && IsSeparator(s[i + 1])
  }

  /** The index of the first separator, or `|s|` when there is none. */
  function FirstSeparator(s: string): (k: nat)
    ensures k <= |s|
    ensures forall i | 0 <= i < k :: !IsSeparator(s[i])
    ensures k < |s| ==> IsSeparator(s[k])
  {
    if s == [] || IsSeparator(s[0]) then 0 else 1 + FirstSeparator(s[1..])
  }

  lemma LetterRunWellFormed(isLetter: char -> bool, s: string)
    requires SeparatorsAreNotLetters(isLetter)
    requires LetterRun(isLetter, s)
    ensures WellFormedName(isLetter, s)
  {
    forall i | 0 <= i < |s| - 1 ensures !SeparatorPairAt(s, i) {
      assert isLetter(s[i]);
    }
  }

  /** Two well-formed names joined by one separator form a well-formed name. */
  lemma JoinWellFormed(isLetter: char -> bool, a: string, c: char, b: string)
    requires SeparatorsAreNotLetters(isLetter)
    requires WellFormedName(isLetter, a) && IsSeparator(c) && WellFormedName(isLetter, b)
    ensures WellFormedName(isLetter, a + [c] + b)
  {
    var s := a + [c] + b;
    forall i | 0 <= i < |s| ensures isLetter(s[i]) || IsSeparator(s[i]) {
      if i < |a| { assert s[i] == a[i]; }
      else if i > |a| { assert s[i] == b[i - |a| - 1]; }
    }
    forall i | 0 <= i < |s| - 1 ensures !SeparatorPairAt(s, i) {
      if i < |a| - 1 {
        assert s[i] == a[i] && s[i + 1] == a[i + 1] && !SeparatorPairAt(a, i);
      } else if i == |a| - 1 {
        assert s[i] == a[|a| - 1];
      } else if i == |a| {
        assert s[i + 1] == b[0];
      } else {
        assert s[i] == b[i - |a| - 1] && s[i + 1] == b[i - |a|] && !SeparatorPairAt(b, i - |a| - 1);
      }
    }
  }

  /** Everything the grammar derives satisfies the characterisation. */
  lemma {:induction false} DerivedWellFormed(isLetter: char -> bool, r: string, t: string)
    requires SeparatorsAreNotLetters(isLetter)
    requires LetterRun(isLetter, r) && SeparatedRuns(isLetter, t)
    ensures WellFormedName(isLetter, r + t)
    decreases |t|
  {
    LetterRunWellFormed(isLetter, r);
    if t == [] {
      assert r + t == r;
    } else {
      var j :| 2 <= j <= |t| && LetterRun(isLetter, t[1..j]) && SeparatedRuns(isLetter, t[j..]);
      DerivedWellFormed(isLetter, t[1..j], t[j..]);
      SplitAt(t, j);
      ConsSplit(r, t);
      JoinWellFormed(isLetter, r, t[0], t[1..]);
    }
  }

  /** Every well-formed name is derived by the grammar. */
  lemma {:induction false} WellFormedDerived(isLetter: char -> bool, s: string)
    requires SeparatorsAreNotLetters(isLetter)
    requires WellFormedName(isLetter, s)
    ensures MatchesNamePattern(isLetter, s)
    decreases |s|
  {
    var k := FirstSeparator(s);
    assert k > 0 by { assert isLetter(s[0]); }
    assert LetterRun(isLetter, s[..k]) by {
      forall i | 0 <= i < k ensures isLetter(s[..k][i]) { assert !IsSeparator(s[i]); }
    }
    if k == |s| {
      assert s[..k] == s && s[k..] == [];
    } else {
      // the rest after the first separator is a well-formed name again
      var rest := s[k + 1..];
      assert k < |s| - 1 by { assert isLetter(s[|s| - 1]); }
      assert !IsSeparator(s[k + 1]) by { assert !SeparatorPairAt(s, k); }
      assert WellFormedName(isLetter, rest) by {
        assert rest[0] == s[k + 1];
        assert rest[|rest| - 1] == s[|s| - 1];
        forall i | 0 <= i < |rest| ensures isLetter(rest[i]) || IsSeparator(rest[i]) {
          assert rest[i] == s[k + 1 + i];
        }
        forall i | 0 <= i < |rest| - 1 ensures !SeparatorPairAt(rest, i) {
          assert rest[i] == s[k + 1 + i] && rest[i + 1] == s[k + 2 + i] && !SeparatorPairAt(s, k + 1 + i);
        }
      }
      WellFormedDerived(isLetter, rest);
      var j' :| 1 <= j' <= |rest| && LetterRun(isLetter, rest[..j']) && SeparatedRuns(isLetter, rest[j'..]);
      var tail := s[k..];
      assert tail[1..j' + 1] == rest[..j'];
      assert tail[j' + 1..] == rest[j'..];
      assert SeparatedRuns(isLetter, tail);
    }
  }

  /** The grammar and the characterisation accept the same strings. */
  lemma PatternIffWellFormed(isLetter: char -> bool, s: string)
    requires SeparatorsAreNotLetters(isLetter)
    ensures MatchesNamePattern(isLetter, s) <==> WellFormedName(isLetter, s)
  {
    if MatchesNamePattern(isLetter, s) {
      var j :| 1 <= j <= |s| && LetterRun(isLetter, s[..j]) && SeparatedRuns(isLetter, s[j..]);
      DerivedWellFormed(isLetter, s[..j], s[j..]);
      assert s[..j] + s[j..] == s;
    }
    if WellFormedName(isLetter, s) {
      WellFormedDerived(isLetter, s);
    }
  }

  /** Cutting the tail of `t` at `j` and joining the pieces gives the tail back. */
  lemma SplitAt(t: string, j: int)
    requires 1 <= j <= |t|
    ensures t[1..j] + t[j..] == t[1..]
  {
  }

  /** `r + t` with the first character of `t` taken apart. */
  lemma ConsSplit(r: string, t: string)
    requires t != []
    ensures r + t == r + [t[0]] + t[1..]
  {
    assert t == [t[0]] + t[1..];
  }
}
