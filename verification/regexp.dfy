/**
  The fragment of ECMAScript regular expressions (section 22.2 of ECMA-262) that the
  validation patterns use, with a relational matching semantics:
  `Matches(r, ic, s, i, j)` holds when `r` can match `s[i..j]` under the
  ignore-case flag `ic`.

  The patterns have no back-references and are only ever used through
  `RegExp.prototype.test`; the colour pattern's one capturing group is never
  read, so it is modelled as a plain group. Whether `test` succeeds then depends
  only on which end positions each sub-pattern can reach; backtracking order and
  greediness do not change it.
 */
module RegExp {
  import opened Chars

  /** One entry of a bracketed character class, or a class escape. */
  datatype ClassItem =
    | Single(c: char)          // a literal character, escaped or not
    | Range(lo: char, hi: char) // lo-hi
    | DigitEscape              // \d
    | NonSpaceEscape           // \S

  datatype Bound = Finite(n: nat) | Unbounded

  datatype Regex =
    | Begin                                   // ^ (no `m` flag)
    | Finish                                  // $ (no `m` flag)
    | AnyChar                                 // . (no `s` flag)
    | Lit(c: char)                            // a literal character
    | Class(items: seq<ClassItem>)            // [...] or a lone class escape
    | Cat(first: Regex, second: Regex)        // juxtaposition
    | Alt(left: Regex, right: Regex)          // left|right
    | Repeat(body: Regex, min: nat, max: Bound) // body{min,max}, *, +
    | Lookahead(body: Regex)                  // (?=body)

  /** A regular-expression literal: its body and whether it carries the `i` flag. */
  datatype Pattern = Pattern(re: Regex, ignoreCase: bool)

  /** ^r$ */
  function Anchored(r: Regex): Regex {
    Cat(Begin, Cat(r, Finish))
  }

  /** A class listing each character of `cs` on its own: without the ignore-case
      flag it matches exactly the characters of `cs`. */
  function Singles(cs: string): (items: seq<ClassItem>)
    ensures forall c :: ClassMatches(items, false, c) <==> c in cs
  {
    var items := seq(|cs|, k requires 0 <= k < |cs| => Single(cs[k]));
    assert forall c :: ClassMatches(items, false, c) <==> c in cs by {
      forall c ensures ClassMatches(items, false, c) <==> c in cs {
        if c in cs {
          var k :| 0 <= k < |cs| && cs[k] == c;
          assert ItemMatches(items[k], false, c);
        }
      }
    }
    items
  }

  predicate ItemContains(item: ClassItem, c: char) {
    match item
    case Single(x) => c == x
    case Range(lo, hi) => lo <= c <= hi
    case DigitEscape => IsDigit(c)
    case NonSpaceEscape => !IsWhitespace(c)
  }

  /** Class membership under the ignore-case flag (see `OtherCase`). */
  predicate ItemMatches(item: ClassItem, ic: bool, c: char) {
    ItemContains(item, c) || (ic && ItemContains(item, OtherCase(c)))
  }

  predicate ClassMatches(items: seq<ClassItem>, ic: bool, c: char) {
    exists k :: 0 <= k < |items| && ItemMatches(items[k], ic, c)
  }

  /** The largest iteration count worth trying for `{min,max}` over a span of
      `span` characters. Past `min`, an iteration that consumes nothing is
      rejected by the RepeatMatcher, so an unbounded repetition performs at most
      `span` further iterations. */
  function MaxIterations(min: nat, max: Bound, span: nat): nat {
    match max
    case Finite(n) => n
    case Unbounded => min + span
  }

  /** `r` can match exactly `s[i..j]`. */
  predicate Matches(r: Regex, ic: bool, s: string, i: nat, j: nat)
    requires i <= j <= |s|
    decreases r, 0
  {
    match r
    case Begin => i == j == 0
    case Finish => i == j == |s|
    case AnyChar => j == i + 1 && !IsLineTerminator(s[i])
    case Lit(c) => j == i + 1 && ItemMatches(Single(c), ic, s[i])
    case Class(items) => j == i + 1 && ClassMatches(items, ic, s[i])
    case Cat(a, b) =>
      exists k :: i <= k <= j && Matches(a, ic, s, i, k) && Matches(b, ic, s, k, j)
    case Alt(a, b) => Matches(a, ic, s, i, j) || Matches(b, ic, s, i, j)
    case Repeat(b, lo, hi) =>
      exists n :: lo <= n <= MaxIterations(lo, hi, j - i) && Iterates(b, ic, s, i, j, n)
    case Lookahead(b) =>
      i == j && exists k :: i <= k <= |s| && Matches(b, ic, s, i, k)
  }

  /** `n` consecutive matches of `r` cover exactly `s[i..j]`. */
  predicate Iterates(r: Regex, ic: bool, s: string, i: nat, j: nat, n: nat)
    requires i <= j <= |s|
    decreases r, n + 1
  {
    if n == 0 then i == j
    else exists k :: i <= k <= j && Iterates(r, ic, s, i, k, n - 1) && Matches(r, ic, s, k, j)
  }

  /** `p.test(s)` with `lastIndex` 0: the match is attempted at every start position. */
  predicate Test(p: Pattern, s: string) {
    exists i, j :: 0 <= i <= j <= |s| && Matches(p.re, p.ignoreCase, s, i, j)
  }

  /** `r` consumes exactly one character, the one at position `m`, precisely when `ok(m)`. */
  ghost predicate StepsBy(r: Regex, ic: bool, s: string, ok: nat -> bool) {
    forall i, j :: 0 <= i <= j <= |s| ==> (Matches(r, ic, s, i, j) <==> j == i + 1 && ok(i))
  }

  predicate AllOk(ok: nat -> bool, i: nat, j: nat) {
    forall m :: i <= m < j ==> ok(m)
  }

  /** A test of `^r$` succeeds exactly when `r` matches the whole string. */
  lemma AnchoredTest(r: Regex, ic: bool, s: string)
    ensures Test(Pattern(Anchored(r), ic), s) <==> Matches(r, ic, s, 0, |s|)
  {
    if Matches(r, ic, s, 0, |s|) {
      assert Matches(Finish, ic, s, |s|, |s|);
      assert Matches(Cat(r, Finish), ic, s, 0, |s|);
      assert Matches(Begin, ic, s, 0, 0);
      assert Matches(Anchored(r), ic, s, 0, |s|);
    }
    if Test(Pattern(Anchored(r), ic), s) {
      var i, j :| 0 <= i <= j <= |s| && Matches(Anchored(r), ic, s, i, j);
      assert Matches(Cat(Begin, Cat(r, Finish)), ic, s, i, j);
      var k :| i <= k <= j && Matches(Begin, ic, s, i, k) && Matches(Cat(r, Finish), ic, s, k, j);
      assert Matches(Cat(r, Finish), ic, s, k, j);
      var m :| k <= m <= j && Matches(r, ic, s, k, m) && Matches(Finish, ic, s, m, j);
      assert Matches(Begin, ic, s, i, k) && Matches(Finish, ic, s, m, j);
      assert i == k == 0 && m == j == |s|;
    }
  }

  /** A test of `^r` succeeds exactly when `r` matches some prefix of the string. */
  lemma BeginTest(r: Regex, ic: bool, s: string)
    ensures Test(Pattern(Cat(Begin, r), ic), s) <==> exists j :: 0 <= j <= |s| && Matches(r, ic, s, 0, j)
  {
    if j :| 0 <= j <= |s| && Matches(r, ic, s, 0, j) {
      assert Matches(Begin, ic, s, 0, 0);
      assert Matches(Cat(Begin, r), ic, s, 0, j);
    }
    if Test(Pattern(Cat(Begin, r), ic), s) {
      var i, j :| 0 <= i <= j <= |s| && Matches(Cat(Begin, r), ic, s, i, j);
      assert Matches(Cat(Begin, r), ic, s, i, j);
      var k :| i <= k <= j && Matches(Begin, ic, s, i, k) && Matches(r, ic, s, k, j);
      assert Matches(Begin, ic, s, i, k);
      assert k == 0 && Matches(r, ic, s, 0, j);
    }
  }

  /** A class matches one character, the one it contains. */
  lemma ClassSteps(items: seq<ClassItem>, ic: bool, s: string)
    ensures StepsBy(Class(items), ic, s, (m: nat) => m < |s| && ClassMatches(items, ic, s[m]))
  {
  }

  /** `n` iterations of a one-character step cover `n` characters, each accepted by the step. */
  lemma {:induction false} IteratesSteps(r: Regex, ic: bool, s: string, ok: nat -> bool, i: nat, j: nat, n: nat)
    requires StepsBy(r, ic, s, ok)
    requires i <= j <= |s|
    ensures Iterates(r, ic, s, i, j, n) <==> j == i + n && AllOk(ok, i, j)
    decreases n
  {
    if n > 0 {
      if Iterates(r, ic, s, i, j, n) {
        assert Iterates(r, ic, s, i, j, n);
        var k :| i <= k <= j && Iterates(r, ic, s, i, k, n - 1) && Matches(r, ic, s, k, j);
        assert Matches(r, ic, s, k, j);
        IteratesSteps(r, ic, s, ok, i, k, n - 1);
      }
      if j == i + n && AllOk(ok, i, j) {
        IteratesSteps(r, ic, s, ok, i, j - 1, n - 1);
        assert Matches(r, ic, s, j - 1, j);
      }
    }
  }

  /** `r{min,max}` over a one-character step: the span has an allowed length and
      every character in it is accepted by the step. */
  lemma RepeatSteps(r: Regex, ic: bool, s: string, ok: nat -> bool, min: nat, max: Bound, i: nat, j: nat)
    requires StepsBy(r, ic, s, ok)
    requires i <= j <= |s|
    ensures Matches(Repeat(r, min, max), ic, s, i, j) <==>
              min <= j - i && (max.Finite? ==> j - i <= max.n) && AllOk(ok, i, j)
  {
    if Matches(Repeat(r, min, max), ic, s, i, j) {
      assert Matches(Repeat(r, min, max), ic, s, i, j);
      var n :| min <= n <= MaxIterations(min, max, j - i) && Iterates(r, ic, s, i, j, n);
      IteratesSteps(r, ic, s, ok, i, j, n);
    }
    if min <= j - i && (max.Finite? ==> j - i <= max.n) && AllOk(ok, i, j) {
      IteratesSteps(r, ic, s, ok, i, j, j - i);
    }
  }

  /** `[...]{min,max}` matches a span of allowed length made of class members. */
  lemma RepeatClass(items: seq<ClassItem>, ic: bool, s: string, min: nat, max: Bound, i: nat, j: nat)
    requires i <= j <= |s|
    ensures Matches(Repeat(Class(items), min, max), ic, s, i, j) <==>
              min <= j - i && (max.Finite? ==> j - i <= max.n) &&
              forall m :: i <= m < j ==> ClassMatches(items, ic, s[m])
  {
    var ok := (m: nat) => m < |s| && ClassMatches(items, ic, s[m]);
    ClassSteps(items, ic, s);
    RepeatSteps(Class(items), ic, s, ok, min, max, i, j);
    if forall m :: i <= m < j ==> ClassMatches(items, ic, s[m]) {
      forall m | i <= m < j ensures ok(m) {
        assert ClassMatches(items, ic, s[m]);
      }
    }
    if AllOk(ok, i, j) {
      forall m | i <= m < j ensures ClassMatches(items, ic, s[m]) {
        assert ok(m);
      }
    }
  }

  /** `(?=r)` succeeds at position `i`. */
  predicate LookaheadHolds(r: Regex, ic: bool, s: string, i: nat)
    requires i <= |s|
  {
    exists k :: i <= k <= |s| && Matches(r, ic, s, i, k)
  }

  /** A lookahead followed by more pattern consumes nothing itself: the rest must
      match from the same position. */
  lemma LookaheadThen(a: Regex, rest: Regex, ic: bool, s: string, i: nat, j: nat)
    requires i <= j <= |s|
    ensures Matches(Cat(Lookahead(a), rest), ic, s, i, j) <==>
              LookaheadHolds(a, ic, s, i) && Matches(rest, ic, s, i, j)
  {
    if Matches(Cat(Lookahead(a), rest), ic, s, i, j) {
      assert Matches(Cat(Lookahead(a), rest), ic, s, i, j);
      var k :| i <= k <= j && Matches(Lookahead(a), ic, s, i, k) && Matches(rest, ic, s, k, j);
      assert Matches(Lookahead(a), ic, s, i, k);
    }
    if LookaheadHolds(a, ic, s, i) && Matches(rest, ic, s, i, j) {
      assert Matches(Lookahead(a), ic, s, i, i);
    }
  }
}
