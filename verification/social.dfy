/**
  The per-platform user-name rules of social links: the pattern table keyed by
  platform, the refinement that consults it, and the rules restated per platform.
 */
module Social {
  import opened Chars
  import opened RegExp
  import opened Patterns

  /** The platforms the pattern table names. The enumeration itself, with its numeric
      tags, is defined outside this model. */
  datatype SpecialLink =
    | GitHub | Instagram | Twitter | YouTube | Twitch | TikTok
    | Patreon | Snapchat | LinkedIn | Facebook | Spotify

  /** /^[a-zA-Z0-9...]+$/ with the characters of `extra` added to the class. */
  function OneOrMore(extra: string): Pattern {
    Pattern(Anchored(Repeat(Class(AlnumAnd(extra)), 1, Unbounded)), false)
  }

  /** /^[a-zA-Z0-9_]{4,25}$/ */
  const TwitchPattern: Pattern := Pattern(Anchored(Repeat(Class(AlnumAnd("_")), 4, Finite(25))), false)

  /** `usernameValidators` (validation.ts lines 97-109). */
  const UsernameValidators: map<SpecialLink, Pattern> := map[
    GitHub := GitHubPattern,
    Instagram := OneOrMore("._"),
    Twitter := OneOrMore("_"),
    YouTube := OneOrMore("_-"),
    Twitch := TwitchPattern,
    TikTok := OneOrMore("._"),
    Patreon := OneOrMore("_-"),
    Snapchat := OneOrMore("._-"),
    LinkedIn := OneOrMore("-"),
    Facebook := OneOrMore("."),
    Spotify := OneOrMore("")
  ]

  /** The refinement of `special`: test the user name with the platform's pattern when
      the table holds one, and accept it otherwise. */
  predicate UsernameFits(table: map<SpecialLink, Pattern>, kind: SpecialLink, username: string) {
    if kind in table then Test(table[kind], username) else true
  }

  /** The punctuation each platform allows in a user name beside ASCII letters and digits. */
  function Punctuation(p: SpecialLink): set<char> {
    match p
    case GitHub => {'-'}
    case Instagram => {'.', '_'}
    case Twitter => {'_'}
    case YouTube => {'_', '-'}
    case Twitch => {'_'}
    case TikTok => {'.', '_'}
    case Patreon => {'_', '-'}
    case Snapchat => {'.', '_', '-'}
    case LinkedIn => {'-'}
    case Facebook => {'.'}
    case Spotify => {}
  }

  predicate AllowedChars(p: SpecialLink, s: string) {
    forall i :: 0 <= i < |s| ==> IsAlnum(s[i]) || s[i] in Punctuation(p)
  }

  /** A valid user name on platform `p`: the GitHub rules; 4 to 25 allowed characters on
      Twitch; at least one allowed character everywhere else. */
  predicate IsHandle(p: SpecialLink, s: string) {
    match p
    case GitHub => IsGitHubName(s)
    case Twitch => 4 <= |s| <= 25 && AllowedChars(p, s)
    case _ => 1 <= |s| && AllowedChars(p, s)
  }

  /** A bounded run of class members, the shape of every table entry except GitHub's. */
  lemma RunTest(extra: string, min: nat, max: Bound, s: string)
    ensures Test(Pattern(Anchored(Repeat(Class(AlnumAnd(extra)), min, max)), false), s) <==>
              min <= |s| && (max.Finite? ==> |s| <= max.n) &&
              forall i :: 0 <= i < |s| ==> IsAlnum(s[i]) || s[i] in extra
  {
    AnchoredTest(Repeat(Class(AlnumAnd(extra)), min, max), false, s);
    RepeatClass(AlnumAnd(extra), false, s, min, max, 0, |s|);
    forall c: char ensures ClassMatches(AlnumAnd(extra), false, c) <==> IsAlnum(c) || c in extra {
      AlnumAndClass(extra, c);
    }
  }

  /** The punctuation written into each pattern's class is the platform's allowed punctuation. */
  lemma RunPunctuation(p: SpecialLink, extra: string, s: string)
    requires forall c :: c in extra <==> c in Punctuation(p)
    ensures (forall i :: 0 <= i < |s| ==> IsAlnum(s[i]) || s[i] in extra) <==> AllowedChars(p, s)
  {
  }

  /** The table's pattern for each platform accepts exactly that platform's user names. */
  lemma PlatformPatternTest(p: SpecialLink, s: string)
    ensures UsernameFits(UsernameValidators, p, s) <==> IsHandle(p, s)
  {
    match p
    case GitHub =>
      GitHubPatternTest(s);
    case Twitch =>
      RunTest("_", 4, Finite(25), s);
      RunPunctuation(p, "_", s);
    case Instagram =>
      RunTest("._", 1, Unbounded, s);
      RunPunctuation(p, "._", s);
    case Twitter =>
      RunTest("_", 1, Unbounded, s);
      RunPunctuation(p, "_", s);
    case YouTube =>
      RunTest("_-", 1, Unbounded, s);
      RunPunctuation(p, "_-", s);
    case TikTok =>
      RunTest("._", 1, Unbounded, s);
      RunPunctuation(p, "._", s);
    case Patreon =>
      RunTest("_-", 1, Unbounded, s);
      RunPunctuation(p, "_-", s);
    case Snapchat =>
      RunTest("._-", 1, Unbounded, s);
      RunPunctuation(p, "._-", s);
    case LinkedIn =>
      RunTest("-", 1, Unbounded, s);
      RunPunctuation(p, "-", s);
    case Facebook =>
      RunTest(".", 1, Unbounded, s);
      RunPunctuation(p, ".", s);
    case Spotify =>
      RunTest("", 1, Unbounded, s);
      RunPunctuation(p, "", s);
  }

  /** Every platform has an entry, so the permissive default is reached only with a
      table that lacks one; with such a table every user name passes. */
  lemma TableDefault(table: map<SpecialLink, Pattern>, kind: SpecialLink, username: string)
    ensures kind in UsernameValidators
    ensures kind !in table ==> UsernameFits(table, kind, username)
    ensures kind in table ==> (UsernameFits(table, kind, username) <==> Test(table[kind], username))
  {
  }

  /** No platform accepts an empty user name. */
  lemma EmptyHandleRejected(p: SpecialLink)
    ensures !UsernameFits(UsernameValidators, p, "")
  {
    PlatformPatternTest(p, "");
  }

  /** An accepted GitHub name neither ends in a hyphen nor contains two hyphens in a row. */
  lemma GitHubHyphens(s: string)
    requires UsernameFits(UsernameValidators, GitHub, s)
    ensures 1 <= |s| <= 39 && s[|s| - 1] != '-'
    ensures forall i :: 0 <= i < |s| - 1 ==> !(s[i] == '-' && s[i + 1] == '-')
  {
    PlatformPatternTest(GitHub, s);
  }

  /** Twitch names need 4 to 25 characters. */
  lemma TwitchExamples()
    ensures !UsernameFits(UsernameValidators, Twitch, "abc")
    ensures UsernameFits(UsernameValidators, Twitch, "abcd")
    ensures !UsernameFits(UsernameValidators, Twitch, seq(26, _ => 'a'))
  {
    PlatformPatternTest(Twitch, "abc");
    PlatformPatternTest(Twitch, "abcd");
    PlatformPatternTest(Twitch, seq(26, _ => 'a'));
  }

  /** Spotify takes letters and digits only; Snapchat also takes '.', '_' and '-'. */
  lemma PunctuationExamples(s: string)
    ensures UsernameFits(UsernameValidators, Spotify, s) <==> 1 <= |s| && forall i :: 0 <= i < |s| ==> IsAlnum(s[i])
    ensures UsernameFits(UsernameValidators, Snapchat, "a.b_c-d")
    ensures !UsernameFits(UsernameValidators, Spotify, "a.b")
  {
    PlatformPatternTest(Spotify, s);
    PlatformPatternTest(Snapchat, "a.b_c-d");
    PlatformPatternTest(Spotify, "a.b");
    assert "a.b"[1] == '.';
  }
}
