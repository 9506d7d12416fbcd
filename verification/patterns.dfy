/**
  The regular-expression literals of the validation rules, written as `RegExp`
  patterns, each paired with a declarative predicate over the string and a
  lemma that the pattern's `test` accepts exactly the strings the predicate
  describes.
 */
module Patterns {
  import opened Chars
  import opened RegExp

  /** [a-zA-Z0-9] */
  const AlnumItems: seq<ClassItem> := [Range('a', 'z'), Range('A', 'Z'), Range('0', '9')]

  /** [a-zA-Z0-9...] with the characters of `extra` appended as literals. */
  function AlnumAnd(extra: string): seq<ClassItem> {
    AlnumItems + Singles(extra)
  }

  lemma AlnumAndClass(extra: string, c: char)
    ensures ClassMatches(AlnumAnd(extra), false, c) <==> IsAlnum(c) || c in extra
  {
    var items := AlnumAnd(extra);
    if IsLower(c) {
      assert ItemMatches(items[0], false, c);
    } else if IsUpper(c) {
      assert ItemMatches(items[1], false, c);
    } else if IsDigit(c) {
      assert ItemMatches(items[2], false, c);
    } else if c in extra {
      var k :| 0 <= k < |extra| && extra[k] == c;
      assert ItemMatches(items[3 + k], false, c);
    }
    if ClassMatches(items, false, c) {
      var k :| 0 <= k < |items| && ItemMatches(items[k], false, c);
      if k >= 3 {
        assert items[k] == Single(extra[k - 3]);
      }
    }
  }

  predicate AllAlnum(s: string) {
    forall i :: 0 <= i < |s| ==> IsAlnum(s[i])
  }

  /** /^[a-zA-Z0-9]*$/ (validation.ts line 12) */
  const UsernamePattern: Pattern := Pattern(Anchored(Repeat(Class(AlnumItems), 0, Unbounded)), false)

  /** The username pattern accepts exactly the all-alphanumeric strings, the empty one included. */
  lemma UsernamePatternTest(s: string)
    ensures Test(UsernamePattern, s) <==> AllAlnum(s)
  {
    AnchoredTest(Repeat(Class(AlnumItems), 0, Unbounded), false, s);
    RepeatClass(AlnumItems, false, s, 0, Unbounded, 0, |s|);
    assert AlnumAnd("") == AlnumItems;
    forall c: char
      ensures ClassMatches(AlnumItems, false, c) <==> IsAlnum(c)
    {
      AlnumAndClass("", c);
    }
  }

  // ---------------------------------------------------------------------------
  // Password composition

  /** The members of [!@#$%^&*()\-_=+{};:,<.>] in source order (`\-` is a literal hyphen). */
  const PasswordSpecials: string := "!@#$%^&*()-_=+{};:,<.>"

  /** The special characters a password needs one of. */
  predicate IsPasswordSpecial(c: char) {
    c in {'!', '@', '#', '$', '%', '^', '&', '*', '(', ')', '-', '_',
          '=', '+', '{', '}', ';', ':', ',', '<', '.', '>'}
  }

  /** (?=.*[...]) */
  function Somewhere(items: seq<ClassItem>): Regex {
    Lookahead(Cat(Repeat(AnyChar, 0, Unbounded), Class(items)))
  }

  /** (?=.*[a-z]), (?=.*[A-Z]), (?=.*\d) and (?=.*[!@#$%^&*()\-_=+{};:,<.>]) */
  const LowerAhead: Regex := Somewhere([Range('a', 'z')])
  const UpperAhead: Regex := Somewhere([Range('A', 'Z')])
  const DigitAhead: Regex := Somewhere([DigitEscape])
  const SpecialAhead: Regex := Somewhere(Singles(PasswordSpecials))

  /** /^(?=.*[a-z])(?=.*[A-Z])(?=.*\d)(?=.*[!@#$%^&*()\-_=+{};:,<.>])/ (validation.ts line 26) */
  const PasswordPattern: Pattern :=
    Pattern(Cat(Begin, Cat(LowerAhead, Cat(UpperAhead, Cat(DigitAhead, SpecialAhead)))), false)

  /** The characters before the first line terminator, which is all `.` can reach from the start. */
  function FirstLine(s: string): (line: string)
    ensures |line| <= |s| && line == s[..|line|]
    ensures forall k :: 0 <= k < |line| ==> !IsLineTerminator(line[k])
    ensures |line| < |s| ==> IsLineTerminator(s[|line|])
  {
    if s == [] || IsLineTerminator(s[0]) then [] else [s[0]] + FirstLine(s[1..])
  }

  predicate ContainsSome(t: string, cls: char -> bool) {
    exists k :: 0 <= k < |t| && cls(t[k])
  }

  /** Each of the four required character classes occurs before the first line terminator. */
  predicate HasPasswordClasses(s: string) {
    var line := FirstLine(s);
    && ContainsSome(line, IsLower)
    && ContainsSome(line, IsUpper)
    && ContainsSome(line, IsDigit)
    && ContainsSome(line, IsPasswordSpecial)
  }

  lemma AnyCharSteps(s: string)
    ensures StepsBy(AnyChar, false, s, (m: nat) => m < |s| && !IsLineTerminator(s[m]))
  {
  }

  /** A position with no line terminator at or before it lies inside the first line. */
  lemma InFirstLine(s: string, m: nat)
    requires m < |s|
    requires forall n :: 0 <= n <= m ==> !IsLineTerminator(s[n])
    ensures m < |FirstLine(s)|
  {
  }

  /** `(?=.*[...])` at the start of the string succeeds exactly when a member of the
      class occurs before the first line terminator. */
  lemma SomewhereHolds(items: seq<ClassItem>, cls: char -> bool, s: string)
    requires forall c :: ClassMatches(items, false, c) <==> cls(c)
    requires forall c :: cls(c) ==> !IsLineTerminator(c)
    ensures LookaheadHolds(Cat(Repeat(AnyChar, 0, Unbounded), Class(items)), false, s, 0)
            <==> ContainsSome(FirstLine(s), cls)
  {
    var dots := Repeat(AnyChar, 0, Unbounded);
    var ok := (m: nat) => m < |s| && !IsLineTerminator(s[m]);
    var line := FirstLine(s);
    AnyCharSteps(s);
    if LookaheadHolds(Cat(dots, Class(items)), false, s, 0) {
      assert LookaheadHolds(Cat(dots, Class(items)), false, s, 0);
      var k :| 0 <= k <= |s| && Matches(Cat(dots, Class(items)), false, s, 0, k);
      assert Matches(Cat(dots, Class(items)), false, s, 0, k);
      var m :| 0 <= m <= k && Matches(dots, false, s, 0, m) && Matches(Class(items), false, s, m, k);
      assert Matches(Class(items), false, s, m, k);
      RepeatSteps(AnyChar, false, s, ok, 0, Unbounded, 0, m);
      assert cls(s[m]);
      forall n | 0 <= n <= m ensures !IsLineTerminator(s[n]) {
        if n < m {
          assert ok(n);
        }
      }
      InFirstLine(s, m);
      assert line[m] == s[m];
    }
    if ContainsSome(line, cls) {
      var m :| 0 <= m < |line| && cls(line[m]);
      assert AllOk(ok, 0, m) by {
        forall n | 0 <= n < m ensures ok(n) {
          assert s[n] == line[n];
        }
      }
      RepeatSteps(AnyChar, false, s, ok, 0, Unbounded, 0, m);
      assert Matches(Class(items), false, s, m, m + 1) by {
        assert s[m] == line[m];
      }
      assert Matches(Cat(dots, Class(items)), false, s, 0, m + 1);
    }
  }

  lemma OneItemClass(item: ClassItem, c: char)
    ensures ClassMatches([item], false, c) <==> ItemContains(item, c)
  {
    assert [item][0] == item;
  }

  /** The four lookaheads consume nothing; together they match the empty span at
      the start exactly when each of them holds there. */
  lemma LookaheadChain(s: string, j: nat)
    requires j <= |s|
    ensures Matches(Cat(LowerAhead, Cat(UpperAhead, Cat(DigitAhead, SpecialAhead))), false, s, 0, j) <==>
              && j == 0
              && LookaheadHolds(LowerAhead.body, false, s, 0)
              && LookaheadHolds(UpperAhead.body, false, s, 0)
              && LookaheadHolds(DigitAhead.body, false, s, 0)
              && LookaheadHolds(SpecialAhead.body, false, s, 0)
  {
    LookaheadThen(LowerAhead.body, Cat(UpperAhead, Cat(DigitAhead, SpecialAhead)), false, s, 0, j);
    LookaheadThen(UpperAhead.body, Cat(DigitAhead, SpecialAhead), false, s, 0, j);
    LookaheadThen(DigitAhead.body, SpecialAhead, false, s, 0, j);
  }

  /** Each lookahead holds exactly when its class occurs in the first line. */
  lemma PasswordLookaheads(s: string)
    ensures LookaheadHolds(LowerAhead.body, false, s, 0) <==> ContainsSome(FirstLine(s), IsLower)
    ensures LookaheadHolds(UpperAhead.body, false, s, 0) <==> ContainsSome(FirstLine(s), IsUpper)
    ensures LookaheadHolds(DigitAhead.body, false, s, 0) <==> ContainsSome(FirstLine(s), IsDigit)
    ensures LookaheadHolds(SpecialAhead.body, false, s, 0) <==> ContainsSome(FirstLine(s), IsPasswordSpecial)
  {
    forall c: char ensures ClassMatches([Range('a', 'z')], false, c) <==> IsLower(c) {
      OneItemClass(Range('a', 'z'), c);
    }
    forall c: char ensures ClassMatches([Range('A', 'Z')], false, c) <==> IsUpper(c) {
      OneItemClass(Range('A', 'Z'), c);
    }
    forall c: char ensures ClassMatches([DigitEscape], false, c) <==> IsDigit(c) {
      OneItemClass(DigitEscape, c);
    }
    SomewhereHolds([Range('a', 'z')], IsLower, s);
    SomewhereHolds([Range('A', 'Z')], IsUpper, s);
    SomewhereHolds([DigitEscape], IsDigit, s);
    SomewhereHolds(Singles(PasswordSpecials), IsPasswordSpecial, s);
  }

  /** The password pattern accepts exactly the strings whose first line holds a lower-case
      letter, an upper-case letter, a digit and a special character, in any order. */
  lemma PasswordPatternTest(s: string)
    ensures Test(PasswordPattern, s) <==> HasPasswordClasses(s)
  {
    var chain := Cat(LowerAhead, Cat(UpperAhead, Cat(DigitAhead, SpecialAhead)));
    BeginTest(chain, false, s);
    PasswordLookaheads(s);
    forall j | 0 <= j <= |s|
      ensures Matches(chain, false, s, 0, j) <==> j == 0 && HasPasswordClasses(s)
    {
      LookaheadChain(s, j);
    }
    if HasPasswordClasses(s) {
      assert Matches(chain, false, s, 0, 0);
    }
  }

  // ---------------------------------------------------------------------------
  // Colour codes

  /** [A-Fa-f0-9] */
  const HexItems: seq<ClassItem> := [Range('A', 'F'), Range('a', 'f'), Range('0', '9')]

  /** [A-Fa-f0-9]{n} */
  function HexRun(n: nat): Regex {
    Repeat(Class(HexItems), n, Finite(n))
  }

  /** /^#([A-Fa-f0-9]{8}|[A-Fa-f0-9]{6}|[A-Fa-f0-9]{3})$/ (validation.ts line 50) */
  const ColorPattern: Pattern :=
    Pattern(Anchored(Cat(Lit('#'), Alt(HexRun(8), Alt(HexRun(6), HexRun(3))))), false)

  /** `#rgb`, `#rrggbb` or `#rrggbbaa` in either letter case. */
  predicate IsColorCode(s: string) {
    && (|s| == 4 || |s| == 7 || |s| == 9)
    && s[0] == '#'
    && forall i :: 1 <= i < |s| ==> IsHexDigit(s[i])
  }

  lemma HexClass(c: char)
    ensures ClassMatches(HexItems, false, c) <==> IsHexDigit(c)
  {
    if 'A' <= c <= 'F' {
      assert ItemMatches(HexItems[0], false, c);
    } else if 'a' <= c <= 'f' {
      assert ItemMatches(HexItems[1], false, c);
    } else if IsDigit(c) {
      assert ItemMatches(HexItems[2], false, c);
    }
  }

  lemma HexRunMatches(n: nat, s: string, i: nat, j: nat)
    requires i <= j <= |s|
    ensures Matches(HexRun(n), false, s, i, j) <==>
              j - i == n && forall m :: i <= m < j ==> IsHexDigit(s[m])
  {
    RepeatClass(HexItems, false, s, n, Finite(n), i, j);
    forall c: char ensures ClassMatches(HexItems, false, c) <==> IsHexDigit(c) {
      HexClass(c);
    }
  }

  /** A literal `#` followed by `r` matches the whole string exactly when the string
      starts with `#` and `r` matches the rest. */
  lemma HashThen(r: Regex, s: string)
    ensures Matches(Cat(Lit('#'), r), false, s, 0, |s|) <==>
              1 <= |s| && s[0] == '#' && Matches(r, false, s, 1, |s|)
  {
    if Matches(Cat(Lit('#'), r), false, s, 0, |s|) {
      assert Matches(Cat(Lit('#'), r), false, s, 0, |s|);
      var k :| 0 <= k <= |s| && Matches(Lit('#'), false, s, 0, k) && Matches(r, false, s, k, |s|);
      assert Matches(Lit('#'), false, s, 0, k);
      assert k == 1 && Matches(r, false, s, 1, |s|);
    }
    if 1 <= |s| && s[0] == '#' && Matches(r, false, s, 1, |s|) {
      assert Matches(Lit('#'), false, s, 0, 1);
    }
  }

  /** The alternation of the three digit runs after `#`. */
  lemma HexDigitsAlt(s: string)
    requires 1 <= |s|
    ensures Matches(Alt(HexRun(8), Alt(HexRun(6), HexRun(3))), false, s, 1, |s|) <==>
              (|s| == 9 || |s| == 7 || |s| == 4) && forall m :: 1 <= m < |s| ==> IsHexDigit(s[m])
  {
    HexRunMatches(8, s, 1, |s|);
    HexRunMatches(6, s, 1, |s|);
    HexRunMatches(3, s, 1, |s|);
  }

  /** The colour pattern accepts exactly the three hex notations. */
  lemma ColorPatternTest(s: string)
    ensures Test(ColorPattern, s) <==> IsColorCode(s)
  {
    var digits := Alt(HexRun(8), Alt(HexRun(6), HexRun(3)));
    AnchoredTest(Cat(Lit('#'), digits), false, s);
    HashThen(digits, s);
    if 1 <= |s| {
      HexDigitsAlt(s);
    }
  }

  // ---------------------------------------------------------------------------
  // Non-blank text

  /** /\S/ (validation.ts line 92), used unanchored. */
  const NonSpacePattern: Pattern := Pattern(Class([NonSpaceEscape]), false)

  predicate HasNonSpace(s: string) {
    exists i :: 0 <= i < |s| && !IsWhitespace(s[i])
  }

  /** An unanchored `\S` finds a match exactly when some character is not white space. */
  lemma NonSpacePatternTest(s: string)
    ensures Test(NonSpacePattern, s) <==> HasNonSpace(s)
  {
    if Test(NonSpacePattern, s) {
      var i, j :| 0 <= i <= j <= |s| && Matches(Class([NonSpaceEscape]), false, s, i, j);
      assert Matches(Class([NonSpaceEscape]), false, s, i, j);
      assert !IsWhitespace(s[i]);
    }
    if HasNonSpace(s) {
      var i :| 0 <= i < |s| && !IsWhitespace(s[i]);
      assert ItemMatches([NonSpaceEscape][0], false, s[i]);
      assert Matches(Class([NonSpaceEscape]), false, s, i, i + 1);
    }
  }

  // ---------------------------------------------------------------------------
  // GitHub user names

  /** [a-z\d], read under the `i` flag. */
  const GitHubItems: seq<ClassItem> := [Range('a', 'z'), DigitEscape]

  /** (?:[a-z\d]|-(?=[a-z\d])) */
  const GitHubStep: Regex := Alt(Class(GitHubItems), Cat(Lit('-'), Lookahead(Class(GitHubItems))))

  /** /^[a-z\d](?:[a-z\d]|-(?=[a-z\d])){0,38}$/i (validation.ts line 98) */
  const GitHubPattern: Pattern :=
    Pattern(Anchored(Cat(Class(GitHubItems), Repeat(GitHubStep, 0, Finite(38)))), true)

  /** 1 to 39 ASCII letters, digits and hyphens; starts with a letter or digit, and
      every hyphen is directly followed by a letter or digit. */
  predicate IsGitHubName(s: string) {
    && 1 <= |s| <= 39
    && IsAlnum(s[0])
    && (forall i :: 0 <= i < |s| ==> IsAlnum(s[i]) || s[i] == '-')
    && (forall i :: 0 <= i < |s| && s[i] == '-' ==> i + 1 < |s| && IsAlnum(s[i + 1]))
  }

  /** Under the `i` flag, [a-z\d] matches exactly the ASCII letters of both cases and the digits. */
  lemma GitHubClass(c: char)
    ensures ClassMatches(GitHubItems, true, c) <==> IsAlnum(c)
  {
    if IsLower(c) || IsUpper(c) {
      assert ItemMatches(GitHubItems[0], true, c);
    } else if IsDigit(c) {
      assert ItemMatches(GitHubItems[1], true, c);
    }
  }

  /** Under the `i` flag, a literal hyphen matches only a hyphen. */
  lemma HyphenLit(c: char)
    ensures ItemMatches(Single('-'), true, c) <==> c == '-'
  {
  }

  /** The ok-condition of one GitHub step at position `m`. */
  predicate GitHubStepOk(s: string, m: nat) {
    m < |s| && (IsAlnum(s[m]) || (s[m] == '-' && m + 1 < |s| && IsAlnum(s[m + 1])))
  }

  /** The hyphen branch `-(?=[a-z\d])` consumes a hyphen that a letter or digit follows. */
  lemma HyphenBranch(s: string, i: nat, j: nat)
    requires i <= j <= |s|
    ensures Matches(Cat(Lit('-'), Lookahead(Class(GitHubItems))), true, s, i, j) <==>
              j == i + 1 && s[i] == '-' && j < |s| && IsAlnum(s[j])
  {
    var hyphen := Cat(Lit('-'), Lookahead(Class(GitHubItems)));
    if Matches(hyphen, true, s, i, j) {
      assert Matches(hyphen, true, s, i, j);
      var k :| i <= k <= j && Matches(Lit('-'), true, s, i, k) && Matches(Lookahead(Class(GitHubItems)), true, s, k, j);
      assert Matches(Lit('-'), true, s, i, k);
      HyphenLit(s[i]);
      assert Matches(Lookahead(Class(GitHubItems)), true, s, k, j);
      var e :| k <= e <= |s| && Matches(Class(GitHubItems), true, s, k, e);
      assert Matches(Class(GitHubItems), true, s, k, e);
      GitHubClass(s[k]);
    }
    if j == i + 1 && s[i] == '-' && j < |s| && IsAlnum(s[j]) {
      GitHubClass(s[j]);
      assert Matches(Class(GitHubItems), true, s, j, j + 1);
      assert Matches(Lookahead(Class(GitHubItems)), true, s, j, j);
      assert Matches(Lit('-'), true, s, i, j);
    }
  }

  /** Each iteration of the GitHub group consumes one character: a letter or digit, or
      a hyphen that a letter or digit follows. */
  lemma GitHubStepSteps(s: string)
    ensures StepsBy(GitHubStep, true, s, (m: nat) => GitHubStepOk(s, m))
  {
    forall i: nat, j: nat | i <= j <= |s|
      ensures Matches(GitHubStep, true, s, i, j) <==> j == i + 1 && GitHubStepOk(s, i)
    {
      if i < |s| {
        GitHubClass(s[i]);
      }
      HyphenBranch(s, i, j);
    }
  }

  /** The GitHub pattern accepts exactly the names `IsGitHubName` describes. */
  lemma GitHubPatternTest(s: string)
    ensures Test(GitHubPattern, s) <==> IsGitHubName(s)
  {
    var steps := Repeat(GitHubStep, 0, Finite(38));
    var ok := (m: nat) => GitHubStepOk(s, m);
    AnchoredTest(Cat(Class(GitHubItems), steps), true, s);
    GitHubStepSteps(s);
    if 1 <= |s| {
      GitHubClass(s[0]);
      RepeatSteps(GitHubStep, true, s, ok, 0, Finite(38), 1, |s|);
    }
    if Matches(Cat(Class(GitHubItems), steps), true, s, 0, |s|) {
      assert Matches(Cat(Class(GitHubItems), steps), true, s, 0, |s|);
      var k :| 0 <= k <= |s| && Matches(Class(GitHubItems), true, s, 0, k) && Matches(steps, true, s, k, |s|);
      assert Matches(Class(GitHubItems), true, s, 0, k);
      assert k == 1;
      forall i | 0 <= i < |s| ensures IsAlnum(s[i]) || s[i] == '-' {
        if i > 0 { assert ok(i); }
      }
      forall i | 0 <= i < |s| && s[i] == '-' ensures i + 1 < |s| && IsAlnum(s[i + 1]) {
        assert ok(i);
      }
    }
    if IsGitHubName(s) {
      assert AllOk(ok, 1, |s|);
      assert Matches(Class(GitHubItems), true, s, 0, 1);
      assert Matches(Cat(Class(GitHubItems), steps), true, s, 0, |s|);
    }
  }
}
