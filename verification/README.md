# Link-in-bio profile validation rules, in Dafny

This project models the input-validation rules of a "link-in-bio" profile application. Those rules are the zod schemas in `src/lib/validation.ts`:

- the string rules for user name, password, e-mail, biography, colour, URL and title;
- the per-platform table of social user-name patterns, and the `special` refinement that consults it;
- the object rules `theme`, `link` and `meta`.

With the schema-builder plumbing removed, every rule decides whether a character sequence, or an object of them, is acceptable. The model states each rule two ways and proves that they agree:

- **As written.** Every regular-expression literal is transcribed into a small AST (`RegExp.Regex`), and ECMAScript `RegExp.prototype.test` is given a matching semantics over it. The AST covers the constructs the literals use: `^`, `$`, `.`, classes, `\d`, `\S`, alternation, `{m,n}`/`*`/`+`, lookahead and the `i` flag.
- **As meant.** A plain predicate over the string: length bounds plus `forall`/`exists` over indices.

Files and modules:

- `chars.dfy` (`Chars`): the character classes. They are ASCII letters and digits, hex digits, the ECMAScript line terminators, and the white space of `\s` (section 12.2 and 12.3 of ECMA-262). `OtherCase` is the ASCII case partner behind the `i` flag.
- `regexp.dfy` (`RegExp`): the regex AST and `Matches(r, ic, s, i, j)`, which holds when "r can match s[i..j]". `Test` is the `test` call: a match attempted at every start position. Also here are general lemmas about anchors, lookahead and the repetition of one-character steps. The patterns have no back-references and are only used through `test`. The colour pattern's one capturing group is never read, so it is modelled as a plain group, and `test` depends only on the reachable end positions. Backtracking order and greediness do not matter.
- `patterns.dfy` (`Patterns`): the source's literals (user name, password, colour, `\S`, GitHub). Each comes with its declarative predicate and an equivalence lemma.
- `schema.dfy` (`Schema`): string schemas as lists of checks (`.min`, `.max`, `.regex`, the two `.refine`s, `.email`, `.url`). It has acceptance, the list of failed checks, and `Parse`, which also covers a missing value and a non-string value.
- `validation.dfy` (`Validation`): the string schemas (exported or module-private) and the string fields of `meta`, with their characterisations.
- `social.dfy` (`Social`): the `usernameValidators` table, the refinement with its explicit "no entry means accept" default, and the per-platform rules.
- `objects.dfy` (`Objects`): `theme`, `special`, `link` and `meta`. Each reports the set of fields whose rule fails.

Where the code and its own error messages suggest different rules, the model follows the code:

- **Password.** Each lookahead in `/^(?=.*[a-z])…/` is anchored at the start, and `.` does not match a line terminator. So each required class must occur before the first LF, CR, U+2028 or U+2029, not merely anywhere in the string as the message at src/lib/validation.ts:28 reads (`Validation.PasswordAfterLineBreak`).
- **User name.** The enforced minimum is `.min(1)`, although that check's message (src/lib/validation.ts:10) says "at least 3 characters". The model uses 1.

## Model

| member | source | states |
|---|---|---|
| `Patterns.UsernamePatternTest` | src/lib/validation.ts:12 | `/^[a-zA-Z0-9]*$/` accepts exactly the strings whose every character is an ASCII letter or digit, the empty string included |
| `Validation.UsernameRule` | src/lib/validation.ts:5-17 | a user name is accepted iff it has 1 to 15 characters, all ASCII alphanumeric, and is not "admin" |
| `Validation.EmptyUsername` | src/lib/validation.ts:10-12 | the user-name pattern alone accepts "", and the schema rejects it with `.min(1)` as its only failing check |
| `Patterns.FirstLine` | src/lib/validation.ts:26 | the result is the prefix before the first line terminator: a prefix with no terminator, followed by a terminator or the end |
| `Patterns.SomewhereHolds` | src/lib/validation.ts:26 | for a class C without line terminators, a lookahead `(?=.*[C])` at the start holds iff a member of C occurs before the first line terminator |
| `Patterns.LookaheadChain` | src/lib/validation.ts:26 | the four lookaheads consume nothing and match together iff each one holds at the start |
| `Patterns.PasswordLookaheads` | src/lib/validation.ts:26 | each of the four lookaheads holds iff its class (lower case, upper case, digit, the 22 specials) occurs in the first line |
| `Patterns.PasswordPatternTest` | src/lib/validation.ts:26 | the password pattern accepts iff the first line holds a lower-case letter, an upper-case letter, a digit and a special character, in any order and not necessarily adjacent |
| `Validation.PasswordRule` | src/lib/validation.ts:19-29 | a password is accepted iff it has 8 to 30 characters and its first line holds all four classes |
| `Validation.PasswordFirstLineOnly` | src/lib/validation.ts:24-26 | two passwords of equal length with the same first line are both accepted or both rejected |
| `Validation.PasswordUpperAfterBreak` | src/lib/validation.ts:26 | a password whose upper-case letters all follow a line terminator is rejected |
| `Validation.PasswordAfterLineBreak` | src/lib/validation.ts:26 | "abcdefgh\nA1!" is rejected although it holds all four classes |
| `Validation.BioRule` | src/lib/validation.ts:38-43 | a biography (and, by the same rule at line 135, a metadata description) is accepted iff it has at most 160 characters, so "" is accepted |
| `Patterns.HexRunMatches` | src/lib/validation.ts:50 | `[A-Fa-f0-9]{n}` matches a span iff it has exactly n characters, all hex digits |
| `Patterns.HexDigitsAlt` | src/lib/validation.ts:50 | the alternation `(…{8}\|…{6}\|…{3})` after `#` matches the rest iff it is 3, 6 or 8 hex digits |
| `Patterns.HashThen` | src/lib/validation.ts:50 | `#` followed by a pattern matches the whole string iff it starts with `#` and the pattern matches the rest |
| `Patterns.ColorPatternTest` | src/lib/validation.ts:50 | the colour pattern accepts exactly `#` followed by 3, 6 or 8 hex digits in either case |
| `Validation.ColorRule` | src/lib/validation.ts:45-50 | a colour is accepted iff it is such a code; every accepted colour has length 4, 7 or 9 |
| `Validation.ColorExamples` | src/lib/validation.ts:50 | "#12", "#1234", "#1234567" and "red" are rejected; "#fff" and "#A0b1C2" are accepted |
| `Patterns.NonSpacePatternTest` | src/lib/validation.ts:92 | the unanchored `/\S/` finds a match iff some character is not white space |
| `Validation.TitleRule` | src/lib/validation.ts:88-95 | a link title is accepted iff it has 1 to 60 characters and some character is not white space |
| `Validation.BlankTitleRejected` | src/lib/validation.ts:92 | a title made only of white space is rejected whatever its length |
| `Validation.MetaTitleRule` | src/lib/validation.ts:134 | the metadata title is accepted iff it has at most 60 characters; it accepts "" and "   ", which the link title rejects, and every accepted link title |
| `Patterns.GitHubClass` | src/lib/validation.ts:98 | under the `i` flag, `[a-z\d]` matches exactly the ASCII letters of both cases and the digits |
| `Patterns.HyphenBranch` | src/lib/validation.ts:98 | the branch `-(?=[a-z\d])` consumes one hyphen iff a letter or digit follows it |
| `Patterns.GitHubStepSteps` | src/lib/validation.ts:98 | each iteration of the group consumes one character: a letter or digit, or a hyphen that a letter or digit follows |
| `Patterns.GitHubPatternTest` | src/lib/validation.ts:98 | the GitHub pattern accepts iff the name has 1 to 39 letters, digits and hyphens, starts with a letter or digit, and every hyphen is followed by a letter or digit |
| `Social.GitHubHyphens` | src/lib/validation.ts:98 | an accepted GitHub name has 1 to 39 characters, does not end in a hyphen and never contains two hyphens in a row |
| `Social.RunTest` | src/lib/validation.ts:99-108 | `/^[a-zA-Z0-9…]{min,max}$/` accepts iff the length is within the bounds and every character is alphanumeric or one of the listed extras |
| `Social.PlatformPatternTest` | src/lib/validation.ts:97-109 | for every platform, the table's pattern accepts exactly that platform's user names (GitHub's rules; 4 to 25 word characters on Twitch; one or more allowed characters elsewhere) |
| `Social.TableDefault` | src/lib/validation.ts:116-121 | every platform has a table entry; for a tag with no entry every user name passes, otherwise the entry's test decides |
| `Social.EmptyHandleRejected` | src/lib/validation.ts:97-109 | no platform accepts an empty user name |
| `Social.TwitchExamples` | src/lib/validation.ts:102 | on Twitch "abc" is rejected, "abcd" accepted, and 26 letters rejected |
| `Social.PunctuationExamples` | src/lib/validation.ts:105-108 | Spotify accepts exactly non-empty alphanumeric names and rejects "a.b"; Snapchat accepts "a.b_c-d" |
| `Schema.Failures` | src/lib/validation.ts:10-15 | the failed checks of a string schema: every entry is a check of the schema that fails, every failing check is listed, and there is one entry per failing position |
| `Schema.Parse` | src/lib/validation.ts:5-17 | a missing value gives the required issue and a non-string the type issue; a string is accepted unchanged iff every check holds, and otherwise carries only check failures, each naming a check of the schema that fails: one per failing check position, covering every failing check |
| `Objects.ThemeFailures` | src/lib/validation.ts:52-77 | the theme's failing fields are exactly the enumeration fields without a declared tag and the colour fields that are not colour codes; none fail iff the theme is valid |
| `Objects.RecolorFailure` | src/lib/validation.ts:52-77 | replacing one colour of an accepted theme by a non-colour makes exactly that field fail |
| `Objects.ThemeExample` | src/lib/validation.ts:52-77 | a theme with colours "#fff", "#000000", "#00000000", "#123" and declared tags is accepted; with button colour "red" only `button.color` fails |
| `Objects.SpecialFailures` | src/lib/validation.ts:111-125 | the `special` object fails, at its own path, iff the user name is not a valid handle on its platform |
| `Objects.LinkFailures` | src/lib/validation.ts:127-131 | a link is accepted iff its URL is well formed, its title passes the title rule, and its image, when present, is a well-formed URL; each of `url`, `title` and `image` is reported exactly when its own rule fails |
| `Objects.MetaFailures` | src/lib/validation.ts:133-138 | metadata is accepted iff the title has at most 60 characters, the description at most 160, the colour is a colour code, and the image, when present, is a well-formed URL; each of the four fields is reported exactly when its own rule fails |
| `Objects.EmptyTitles` | src/lib/validation.ts:134 | metadata with an empty title is accepted while a link with an empty title fails at its title only |

Re-parsing an accepted value gives the same outcome (`Schema.ParseIdempotent`). No string rule transforms its input.

## Left out

- `.email()` and `.url()` rely on the validation library's e-mail grammar and on the platform's `URL` parser; neither is part of this model. They are the oracles `isEmail` and `isUrl` of `Schema.Formats`, and every statement holds for any choice of them.
- The enumerations `BackgroundType`, `ButtonStyle`, `Font` and `SpecialLink` come from a type-definitions module that is not part of this model. The first three are abstract tag sets (`Objects.Enums`). `SpecialLink` is the closed set of the eleven platforms that the table names; a `Record` over the enumeration must name every member.
- The object schemas take a well-typed shape: an object field that is missing or of the wrong type is not modelled. Neither is the type check of the enumeration fields. Because the shape is always valid, the `special` refinement always runs. (In the source it runs only after the shape checks pass.) In particular, a `special` input whose `type` is not a `SpecialLink` value cannot be expressed: `Objects.SpecialInput` holds a `SpecialLink`. In the source such an input fails at `type`, and the refinement at src/lib/validation.ts:116-121 never runs.
- The library's issue reporting is not modelled: which checks still run after an earlier failure, and the order and message text of the issues. `Schema.Failures` lists every failing check. The object rules report the set of failing fields, each with the path its issue belongs to; every rule states, field by field, when that field is in the set.
- Lengths count characters (Unicode scalar values). JavaScript's `.length` and its non-unicode regular expressions count UTF-16 code units, so the model is exact for strings of Basic Multilingual Plane characters. A JavaScript string may also hold a lone surrogate, which a Dafny `string` of scalar values cannot; such strings are outside the model.
- The object rules `theme`, `special`, `link` and `meta` are `z.object` schemas, which by default return an accepted object with its unknown keys removed. The model's records carry exactly the schema's fields, so that removal is outside the model.
- `Chars.IsSpaceChar` lists the space separators (Unicode category Zs) of current Unicode versions. A future Unicode version may add to that category.
- `Chars.OtherCase` models the `i` flag's case folding for ASCII letters only. That folding is exact for classes whose members are all ASCII, which is every class here (section 22.2.2.7.3 of ECMA-262).
