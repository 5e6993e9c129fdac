/** Email address validation (`Email.Validate` in user/user.go), which
    matches the whole address against
    `^[A-Z0-9a-z._%+-]+@[A-Za-z0-9.-]+\.[A-Za-z]{2,64}$`.  The pattern is
    stated here as the language it denotes, `Shaped`; `Validate` decides it
    by cutting the address at its first `@` and at the last `.` after it.
 */
module Email {

  import opened Outcomes
  import opened Strings

  predicate IsLetter(c: char)
  {
    'A' <= c <= 'Z' || 'a' <= c <= 'z'
  }

  predicate IsDigit(c: char)
  {
    '0' <= c <= '9'
  }

  /** `[A-Z0-9a-z._%+-]`: the characters of the local part. */
  predicate LocalChar(c: char)
  {
    IsLetter(c) || IsDigit(c) || c == '.' || c == '_' || c == '%' || c == '+' || c == '-'
  }

  /** `[A-Za-z0-9.-]`: the characters of the domain. */
  predicate DomainChar(c: char)
  {
    IsLetter(c) || IsDigit(c) || c == '.' || c == '-'
  }

  predicate AllLocal(s: string)
  {
    forall i :: 0 <= i < |s| ==> LocalChar(s[i])
  }

  predicate AllDomain(s: string)
  {
    forall i :: 0 <= i < |s| ==> DomainChar(s[i])
  }

  predicate AllLetters(s: string)
  {
    forall i :: 0 <= i < |s| ==> IsLetter(s[i])
  }

  /** `s` is a match of the pattern with the `@` at `at` and the escaped
      `\.` at `dot`: a non-empty local part, a non-empty domain, and a top
      level of 2 to 64 letters running to the end of `s`. */
  predicate Shaped(s: string, at: int, dot: int)
  {
    && 0 < at && at + 1 < dot && dot < |s|
    && s[at] == '@' && s[dot] == '.'
    && 2 <= |s| - dot - 1 <= 64
    && AllLocal(s[..at]) && AllDomain(s[at + 1..dot]) && AllLetters(s[dot + 1..])
  }

  /** The regular expression matches `s`. */
  ghost predicate MatchesPattern(s: string)
  {
    exists at, dot :: Shaped(s, at, dot)
  }

  /** The three parts of an address each fit their class: one or more
      local characters, one or more domain characters, 2 to 64 letters. */
  predicate PartsAllowed(local: string, domain: string, top: string)
  {
    && |local| > 0 && AllLocal(local)
    && |domain| > 0 && AllDomain(domain)
    && 2 <= |top| <= 64 && AllLetters(top)
  }

  /** `Email.Validate`: the local part ends at the first `@`; the top level
      starts after the last `.`. */
  function Validate(s: string): (r: bool)
    ensures r ==> '@' in s && '.' in s && |s| >= 6
  {
    match SplitFirst(s, '@')
    case None => false
    case Some((local, rest)) =>
      match SplitLast(rest, '.')
      case None => false
      case Some((domain, top)) => PartsAllowed(local, domain, top)
  }

  /** Cutting the address finds the one way the pattern can match it. */
  lemma ValidateMatchesPattern(s: string)
    ensures Validate(s) <==> MatchesPattern(s)
  {
    if Validate(s) {
      var (local, rest) := SplitFirst(s, '@').value;
      var (domain, top) := SplitLast(rest, '.').value;
      ValidWitness(s, local, rest, domain, top);
    }
    if MatchesPattern(s) {
      var at, dot :| Shaped(s, at, dot);
      PatternCuts(s, at, dot);
    }
  }

  /** Where a valid address matches the pattern. */
  lemma ValidShaped(s: string) returns (at: int, dot: int)
    requires Validate(s)
    ensures Shaped(s, at, dot)
  {
    ValidateMatchesPattern(s);
    at, dot :| Shaped(s, at, dot);
  }

  /** A successful cut is a match of the pattern. */
  lemma ValidWitness(s: string, local: string, rest: string, domain: string, top: string)
    requires s == local + ['@'] + rest && rest == domain + ['.'] + top
    requires PartsAllowed(local, domain, top)
    ensures Shaped(s, |local|, |local| + 1 + |domain|)
  {
    var at, dot := |local|, |local| + 1 + |domain|;
    assert s[..at] == local;
    assert s[at + 1..dot] == domain;
    assert s[dot + 1..] == top;
  }

  lemma NoAtInLocal(x: string)
    requires AllLocal(x)
    ensures '@' !in x
  {
  }

  lemma NoAtInDomain(x: string)
    requires AllDomain(x)
    ensures '@' !in x
  {
  }

  lemma NoDotOrAtInLetters(x: string)
    requires AllLetters(x)
    ensures '.' !in x && '@' !in x
  {
  }

  /** Cutting at a `c` with none before it is cutting at the first. */
  lemma CutFirst(s: string, c: char, k: int)
    requires 0 <= k < |s| && s[k] == c && c !in s[..k]
    ensures SplitFirst(s, c) == Some((s[..k], s[k + 1..]))
  {
    assert s == s[..k] + [c] + s[k + 1..];
    SplitFirstAt(s[..k], c, s[k + 1..]);
  }

  /** Cutting at a `c` with none after it is cutting at the last. */
  lemma CutLast(s: string, c: char, k: int)
    requires 0 <= k < |s| && s[k] == c && c !in s[k + 1..]
    ensures SplitLast(s, c) == Some((s[..k], s[k + 1..]))
    ensures LastIndex(s, c) == Some(k)
  {
    assert s == s[..k] + [c] + s[k + 1..];
    SplitLastAt(s[..k], c, s[k + 1..]);
    LastIndexAt(s[..k], c, s[k + 1..]);
  }

  /** The pieces of a suffix are slices of the whole. */
  lemma SliceOfSuffix(s: string, a: int, k: int)
    requires 0 <= a && 0 <= k && a + k < |s|
    ensures s[a..][..k] == s[a..a + k] && s[a..][k + 1..] == s[a + k + 1..] && s[a..][k] == s[a + k]
  {
  }

  /** The same cut, made in a suffix of `s`. */
  lemma CutLastOfSuffix(s: string, c: char, a: int, k: int)
    requires 0 <= a <= k < |s| && s[k] == c && c !in s[k + 1..]
    ensures SplitLast(s[a..], c) == Some((s[a..k], s[k + 1..]))
  {
    SliceOfSuffix(s, a, k - a);
    CutLast(s[a..], c, k - a);
  }

  /** A match of the pattern is cut where it matched: its `@` is the first
      one, and no letter of the top level is a `.`. */
  lemma PatternCuts(s: string, at: int, dot: int)
    requires Shaped(s, at, dot)
    ensures SplitFirst(s, '@') == Some((s[..at], s[at + 1..]))
    ensures SplitLast(s[at + 1..], '.') == Some((s[at + 1..dot], s[dot + 1..]))
    ensures LastIndex(s, '.') == Some(dot)
    ensures Validate(s)
  {
    NoAtInLocal(s[..at]);
    CutFirst(s, '@', at);
    NoDotOrAtInLetters(s[dot + 1..]);
    CutLastOfSuffix(s, '.', at + 1, dot);
    CutLast(s, '.', dot);
  }

  /** Every character of a match is an `@` or a character of the local
      part's class, which holds the two others. */
  lemma ShapedChars(s: string, at: int, dot: int)
    requires Shaped(s, at, dot)
    ensures forall i :: 0 <= i < |s| ==> s[i] == '@' || LocalChar(s[i])
  {
    forall i | 0 <= i < |s| ensures s[i] == '@' || LocalChar(s[i]) {
      if i < at {
        assert s[i] == s[..at][i];
      } else if at < i < dot {
        assert s[i] == s[at + 1..dot][i - at - 1];
        assert DomainChar(s[i]);
      } else if dot < i {
        assert s[i] == s[dot + 1..][i - dot - 1];
        assert IsLetter(s[i]);
      }
    }
  }

  /** `c` occurs once in `a + [c] + (d + [x] + t)` when it is in none of
      the other parts. */
  lemma OccursOnce(c: char, a: string, d: string, x: char, t: string)
    requires c !in a && c !in d && c != x && c !in t
    ensures multiset(a + [c] + (d + [x] + t))[c] == 1
  {
    assert multiset(a + [c] + (d + [x] + t)) == multiset(a) + multiset{c} + (multiset(d) + multiset{x} + multiset(t));
  }

  /** A match of the pattern has one `@`. */
  lemma ShapedOneAt(s: string, at: int, dot: int)
    requires Shaped(s, at, dot)
    ensures multiset(s)['@'] == 1
  {
    NoAtInLocal(s[..at]);
    NoAtInDomain(s[at + 1..dot]);
    NoDotOrAtInLetters(s[dot + 1..]);
    assert s == s[..at] + ['@'] + (s[at + 1..dot] + ['.'] + s[dot + 1..]);
    OccursOnce('@', s[..at], s[at + 1..dot], '.', s[dot + 1..]);
  }

  /** The top level of a match is what follows its last `.`. */
  lemma ShapedTop(s: string, at: int, dot: int)
    requires Shaped(s, at, dot)
    ensures LastIndex(s, '.') == Some(dot)
    ensures 2 <= |s| - LastIndex(s, '.').value - 1 <= 64 && AllLetters(s[LastIndex(s, '.').value + 1..])
  {
    NoDotOrAtInLetters(s[dot + 1..]);
    CutLast(s, '.', dot);
  }

  /** A valid address has exactly one `@`, its top level (after the last
      `.`) has 2 to 64 letters, and every other character is one the
      pattern allows. */
  lemma ValidAddressShape(s: string)
    requires Validate(s)
    ensures multiset(s)['@'] == 1
    ensures LastIndex(s, '.').Some?
    ensures 2 <= |s| - LastIndex(s, '.').value - 1 <= 64 && AllLetters(s[LastIndex(s, '.').value + 1..])
    ensures forall i :: 0 <= i < |s| ==> s[i] == '@' || LocalChar(s[i])
  {
    var at, dot := ValidShaped(s);
    ShapedChars(s, at, dot);
    ShapedOneAt(s, at, dot);
    ShapedTop(s, at, dot);
  }

  /** What the pattern refuses: an address without an `@` or with two, one
      with a character outside the pattern's classes (a trailing newline
      among them, as Go's `$` only matches at the very end), one without a
      `.`, and one whose part after the last `.` is shorter than 2 or longer
      than 64 characters or holds a non-letter. */
  lemma InvalidAddresses(s: string)
    ensures multiset(s)['@'] != 1 ==> !Validate(s)
    ensures (exists i :: 0 <= i < |s| && s[i] != '@' && !LocalChar(s[i])) ==> !Validate(s)
    ensures '.' !in s ==> !Validate(s)
    ensures (LastIndex(s, '.').Some? && !(2 <= |s| - LastIndex(s, '.').value - 1 <= 64)) ==> !Validate(s)
    ensures (LastIndex(s, '.').Some? && !AllLetters(s[LastIndex(s, '.').value + 1..])) ==> !Validate(s)
  {
    if Validate(s) {
      ValidAddressShape(s);
    }
  }
}
