/**
  The validation rules for single strings, exported or module-private: user name,
  password, e-mail address, biography, colour, URL and title, and the inline string
  fields of the page metadata. The object schemas built from them are in `Objects`.
 */
module Validation {
  import opened Chars
  import opened RegExp
  import opened Patterns
  import opened Schema

  // ---------------------------------------------------------------------------
  // String schemas

  /** `username`: 1 to 15 characters (the message speaks of 3, the bound is 1),
      alphanumeric, and not "admin". */
  const Username: seq<Check> := [MinLength(1), MaxLength(15), Regex(UsernamePattern), NotEqual("admin")]

  /** `password`: 8 to 30 characters with the four character classes. */
  const Password: seq<Check> := [MinLength(8), MaxLength(30), Regex(PasswordPattern)]

  /** `email` */
  const Email: seq<Check> := [EmailFormat]

  /** `bio` */
  const Bio: seq<Check> := [MaxLength(160)]

  /** `colorSchema` */
  const ColorSchema: seq<Check> := [Regex(ColorPattern)]

  /** `url`, and the optional `image` fields (`z.string().url()`). */
  const Url: seq<Check> := [UrlFormat]

  /** `title` of a link: 1 to 60 characters, not all white space. */
  const Title: seq<Check> := [MinLength(1), MaxLength(60), Regex(NonSpacePattern)]

  /** `title` of the page metadata: a bare length cap. */
  const MetaTitle: seq<Check> := [MaxLength(60)]

  /** `description` of the page metadata. */
  const Description: seq<Check> := [MaxLength(160)]

  /** A user name is accepted exactly when it has 1 to 15 characters, all ASCII letters
      or digits, and is not "admin". */
  lemma UsernameRule(fmt: Formats, s: string)
    ensures Accepts(Username, fmt, s) <==> 1 <= |s| <= 15 && AllAlnum(s) && s != "admin"
  {
    UsernamePatternTest(s);
    assert Accepts(Username, fmt, s) <==>
      Holds(Username[0], fmt, s) && Holds(Username[1], fmt, s) && Holds(Username[2], fmt, s) && Holds(Username[3], fmt, s);
  }

  /** The pattern alone accepts the empty string; the length bound is what rejects it,
      and it is the only check that fails. */
  lemma EmptyUsername(fmt: Formats)
    ensures Test(UsernamePattern, "")
    ensures !Accepts(Username, fmt, "")
    ensures Failures(Username, fmt, "") == [MinLength(1)]
  {
    UsernamePatternTest("");
    assert !Holds(Username[0], fmt, "");
    assert Username[1..] == [MaxLength(15), Regex(UsernamePattern), NotEqual("admin")];
    assert Username[1..][1..] == [Regex(UsernamePattern), NotEqual("admin")];
    assert Username[1..][1..][1..] == [NotEqual("admin")];
    assert Username[1..][1..][1..][1..] == [];
    assert Failures(Username[1..][1..][1..], fmt, "") == [];
    assert Failures(Username[1..][1..], fmt, "") == [];
    assert Failures(Username[1..], fmt, "") == [];
  }

  /** A password is accepted exactly when it has 8 to 30 characters and its first line
      holds a lower-case letter, an upper-case letter, a digit and a special character. */
  lemma PasswordRule(fmt: Formats, s: string)
    ensures Accepts(Password, fmt, s) <==> 8 <= |s| <= 30 && HasPasswordClasses(s)
  {
    PasswordPatternTest(s);
    assert Accepts(Password, fmt, s) <==>
      Holds(Password[0], fmt, s) && Holds(Password[1], fmt, s) && Holds(Password[2], fmt, s);
  }

  /** Only the length and the text before the first line terminator decide a password. */
  lemma PasswordFirstLineOnly(fmt: Formats, s: string, t: string)
    requires |s| == |t| && FirstLine(s) == FirstLine(t)
    ensures Accepts(Password, fmt, s) <==> Accepts(Password, fmt, t)
  {
    PasswordRule(fmt, s);
    PasswordRule(fmt, t);
  }

  /** An upper-case letter that only occurs after a line terminator does not count. */
  lemma PasswordUpperAfterBreak(fmt: Formats, s: string, b: nat)
    requires b < |s| && IsLineTerminator(s[b])
    requires forall i :: 0 <= i < b ==> !IsUpper(s[i])
    ensures !Accepts(Password, fmt, s)
  {
    var line := FirstLine(s);
    PasswordRule(fmt, s);
    assert |line| <= b;
    forall k | 0 <= k < |line| ensures !IsUpper(line[k]) {
      assert line[k] == s[k];
    }
  }

  /** This string holds all four classes, but its upper-case letter, digit and special
      character come after a newline, so it is rejected. */
  lemma PasswordAfterLineBreak(fmt: Formats)
    ensures !Accepts(Password, fmt, "abcdefgh\nA1!")
  {
    PasswordUpperAfterBreak(fmt, "abcdefgh\nA1!", 8);
  }

  /** A biography is accepted exactly when it has at most 160 characters. */
  lemma BioRule(fmt: Formats, s: string)
    ensures Accepts(Bio, fmt, s) <==> |s| <= 160
    ensures Accepts(Description, fmt, s) <==> |s| <= 160
  {
    assert Holds(Bio[0], fmt, s) <==> |s| <= 160;
    assert Holds(Description[0], fmt, s) <==> |s| <= 160;
  }

  /** A colour is accepted exactly when it is `#` followed by 3, 6 or 8 hex digits. */
  lemma ColorRule(fmt: Formats, s: string)
    ensures Accepts(ColorSchema, fmt, s) <==> IsColorCode(s)
    ensures Accepts(ColorSchema, fmt, s) ==> |s| == 4 || |s| == 7 || |s| == 9
  {
    ColorPatternTest(s);
    assert Accepts(ColorSchema, fmt, s) <==> Holds(ColorSchema[0], fmt, s);
  }

  lemma ColorExamples(fmt: Formats)
    ensures !Accepts(ColorSchema, fmt, "#12")
    ensures !Accepts(ColorSchema, fmt, "#1234")
    ensures !Accepts(ColorSchema, fmt, "#1234567")
    ensures !Accepts(ColorSchema, fmt, "red")
    ensures Accepts(ColorSchema, fmt, "#fff") && Accepts(ColorSchema, fmt, "#A0b1C2")
  {
    ColorRule(fmt, "#12");
    ColorRule(fmt, "#1234");
    ColorRule(fmt, "#1234567");
    ColorRule(fmt, "red");
    ColorRule(fmt, "#fff");
    ColorRule(fmt, "#A0b1C2");
  }

  /** A link title is accepted exactly when it has 1 to 60 characters, one of them
      not white space. */
  lemma TitleRule(fmt: Formats, s: string)
    ensures Accepts(Title, fmt, s) <==> 1 <= |s| <= 60 && HasNonSpace(s)
  {
    NonSpacePatternTest(s);
    assert Accepts(Title, fmt, s) <==>
      Holds(Title[0], fmt, s) && Holds(Title[1], fmt, s) && Holds(Title[2], fmt, s);
  }

  /** A title made only of white space is rejected, whatever its length. */
  lemma BlankTitleRejected(fmt: Formats, s: string)
    requires forall i :: 0 <= i < |s| ==> IsWhitespace(s[i])
    ensures !Accepts(Title, fmt, s)
  {
    TitleRule(fmt, s);
  }

  /** The metadata title only caps the length: it accepts "" and "   ", which the link
      title rejects, and every accepted link title. */
  lemma MetaTitleRule(fmt: Formats, s: string)
    ensures Accepts(MetaTitle, fmt, s) <==> |s| <= 60
    ensures Accepts(Title, fmt, s) ==> Accepts(MetaTitle, fmt, s)
    ensures Accepts(MetaTitle, fmt, "") && !Accepts(Title, fmt, "")
    ensures Accepts(MetaTitle, fmt, "   ") && !Accepts(Title, fmt, "   ")
  {
    assert Holds(MetaTitle[0], fmt, s) <==> |s| <= 60;
    TitleRule(fmt, s);
    assert Holds(MetaTitle[0], fmt, "");
    assert !Holds(Title[0], fmt, "");
    assert Holds(MetaTitle[0], fmt, "   ");
    BlankTitleRejected(fmt, "   ");
  }
}
