/**
  The object schemas: `theme`, `special`, `link` and `meta`. Each reports the set of
  its fields whose rule fails; an object is accepted when that set is empty. Every
  field maps to the path the issue is reported at.
 */
module Objects {
  import opened Patterns
  import opened Schema
  import opened Social
  import opened Validation

  /** `{field}` when the field's rule fails. */
  function Flag<F>(ok: bool, field: F): set<F> {
    if ok then {} else {field}
  }

  // ---------------------------------------------------------------------------
  // theme

  /** The tags of the enumerations `BackgroundType`, `ButtonStyle` and `Font`; their
      definitions are outside this model. */
  datatype Enums = Enums(backgroundTypes: set<int>, buttonStyles: set<int>, fonts: set<int>)

  datatype Background = Background(kind: int, color: string)
  datatype Button = Button(style: int, color: string, fontColor: string)
  datatype Theme = Theme(background: Background, button: Button, font: int, fontColor: string)

  /** Every enumeration field holds a declared tag and every colour is a hex colour code. */
  predicate ThemeValid(enums: Enums, t: Theme) {
    && t.background.kind in enums.backgroundTypes
    && IsColorCode(t.background.color)
    && t.button.style in enums.buttonStyles
    && IsColorCode(t.button.color)
    && IsColorCode(t.button.fontColor)
    && t.font in enums.fonts
    && IsColorCode(t.fontColor)
  }

  datatype ThemeField =
    | BackgroundType | BackgroundColor | ButtonStyle | ButtonColor | ButtonFontColor | Font | FontColor
  {
    function Path(): seq<string> {
      match this
      case BackgroundType => ["background", "type"]
      case BackgroundColor => ["background", "color"]
      case ButtonStyle => ["button", "style"]
      case ButtonColor => ["button", "color"]
      case ButtonFontColor => ["button", "fontColor"]
      case Font => ["font"]
      case FontColor => ["fontColor"]
    }
  }

  /** The rule of one theme field: enumeration membership or `colorSchema`. */
  predicate ThemeFieldOk(enums: Enums, fmt: Formats, t: Theme, f: ThemeField) {
    match f
    case BackgroundType => t.background.kind in enums.backgroundTypes
    case BackgroundColor => Accepts(ColorSchema, fmt, t.background.color)
    case ButtonStyle => t.button.style in enums.buttonStyles
    case ButtonColor => Accepts(ColorSchema, fmt, t.button.color)
    case ButtonFontColor => Accepts(ColorSchema, fmt, t.button.fontColor)
    case Font => t.font in enums.fonts
    case FontColor => Accepts(ColorSchema, fmt, t.fontColor)
  }

  /** The theme's fields whose rule fails. */
  function ThemeFailures(enums: Enums, fmt: Formats, t: Theme): (r: set<ThemeField>)
    ensures r == {} <==> ThemeValid(enums, t)
    ensures BackgroundType in r <==> t.background.kind !in enums.backgroundTypes
    ensures BackgroundColor in r <==> !IsColorCode(t.background.color)
    ensures ButtonStyle in r <==> t.button.style !in enums.buttonStyles
    ensures ButtonColor in r <==> !IsColorCode(t.button.color)
    ensures ButtonFontColor in r <==> !IsColorCode(t.button.fontColor)
    ensures Font in r <==> t.font !in enums.fonts
    ensures FontColor in r <==> !IsColorCode(t.fontColor)
  {
    ColorRule(fmt, t.background.color);
    ColorRule(fmt, t.button.color);
    ColorRule(fmt, t.button.fontColor);
    ColorRule(fmt, t.fontColor);
    var r := set f: ThemeField | !ThemeFieldOk(enums, fmt, t, f);
    assert r == {} ==> ThemeValid(enums, t) by {
      if r == {} {
        forall f: ThemeField ensures ThemeFieldOk(enums, fmt, t, f) {
          assert f !in r;
        }
        assert ThemeFieldOk(enums, fmt, t, BackgroundType) && ThemeFieldOk(enums, fmt, t, BackgroundColor);
        assert ThemeFieldOk(enums, fmt, t, ButtonStyle) && ThemeFieldOk(enums, fmt, t, ButtonColor);
        assert ThemeFieldOk(enums, fmt, t, ButtonFontColor) && ThemeFieldOk(enums, fmt, t, Font);
        assert ThemeFieldOk(enums, fmt, t, FontColor);
      }
    }
    r
  }

  predicate IsColorField(f: ThemeField) {
    f == BackgroundColor || f == ButtonColor || f == ButtonFontColor || f == FontColor
  }

  /** The theme with one colour field replaced. */
  function Recolor(t: Theme, f: ThemeField, c: string): Theme
    requires IsColorField(f)
  {
    match f
    case BackgroundColor => t.(background := t.background.(color := c))
    case ButtonColor => t.(button := t.button.(color := c))
    case ButtonFontColor => t.(button := t.button.(fontColor := c))
    case FontColor => t.(fontColor := c)
  }

  /** Replacing one colour of an accepted theme by a string that is not a colour code
      makes that field, and no other, fail. */
  lemma RecolorFailure(enums: Enums, fmt: Formats, t: Theme, f: ThemeField, c: string)
    requires ThemeFailures(enums, fmt, t) == {}
    requires IsColorField(f) && !IsColorCode(c)
    ensures ThemeFailures(enums, fmt, Recolor(t, f, c)) == {f}
  {
    var r := ThemeFailures(enums, fmt, Recolor(t, f, c));
    forall g ensures g in r <==> g == f {
    }
  }

  /** A theme using each of the three hex notations is accepted; turning its button
      colour into "red" fails exactly at `button.color`. */
  lemma ThemeExample(enums: Enums, fmt: Formats, bg: int, style: int, font: int)
    requires bg in enums.backgroundTypes && style in enums.buttonStyles && font in enums.fonts
    ensures var t := Theme(Background(bg, "#fff"), Button(style, "#000000", "#00000000"), font, "#123");
            && ThemeFailures(enums, fmt, t) == {}
            && ThemeFailures(enums, fmt, Recolor(t, ButtonColor, "red")) == {ButtonColor}
  {
    var t := Theme(Background(bg, "#fff"), Button(style, "#000000", "#00000000"), font, "#123");
    assert IsColorCode("#fff") && IsColorCode("#000000") && IsColorCode("#00000000") && IsColorCode("#123");
    assert !IsColorCode("red");
    RecolorFailure(enums, fmt, t, ButtonColor, "red");
  }

  // ---------------------------------------------------------------------------
  // special

  datatype SpecialInput = SpecialInput(kind: SpecialLink, username: string)

  /** Where an issue of `special` is reported: the refinement's issue belongs to the
      object itself, at the empty path. */
  datatype SpecialField = SpecialObject {
    function Path(): seq<string> { [] }
  }

  /** The refinement of `special` fails exactly when the name is not a valid handle on
      its platform. */
  function SpecialFailures(sp: SpecialInput): (r: set<SpecialField>)
    ensures r == {} <==> IsHandle(sp.kind, sp.username)
  {
    PlatformPatternTest(sp.kind, sp.username);
    Flag(UsernameFits(UsernameValidators, sp.kind, sp.username), SpecialObject)
  }

  // ---------------------------------------------------------------------------
  // link

  datatype Link = Link(url: string, title: string, image: Option<string>)

  /** A present optional field must meet its rule; an absent one is fine. */
  predicate OptionalAccepts(checks: seq<Check>, fmt: Formats, field: Option<string>) {
    match field
    case None => true
    case Some(s) => Accepts(checks, fmt, s)
  }

  datatype LinkField = LinkUrl | LinkTitle | LinkImage {
    function Path(): seq<string> {
      match this
      case LinkUrl => ["url"]
      case LinkTitle => ["title"]
      case LinkImage => ["image"]
    }
  }

  /** The link's fields whose rule fails. */
  function LinkFailures(fmt: Formats, l: Link): (r: set<LinkField>)
    ensures r == {} <==>
              && fmt.isUrl(l.url)
              && 1 <= |l.title| <= 60 && HasNonSpace(l.title)
              && (l.image.Some? ==> fmt.isUrl(l.image.value))
    ensures LinkUrl in r <==> !fmt.isUrl(l.url)
    ensures LinkTitle in r <==> !(1 <= |l.title| <= 60 && HasNonSpace(l.title))
    ensures LinkImage in r <==> l.image.Some? && !fmt.isUrl(l.image.value)
  {
    TitleRule(fmt, l.title);
    assert Accepts(Url, fmt, l.url) <==> Holds(Url[0], fmt, l.url);
    assert l.image.Some? ==> (Accepts(Url, fmt, l.image.value) <==> Holds(Url[0], fmt, l.image.value));
    Flag(Accepts(Url, fmt, l.url), LinkUrl)
    + Flag(Accepts(Title, fmt, l.title), LinkTitle)
    + Flag(OptionalAccepts(Url, fmt, l.image), LinkImage)
  }

  // ---------------------------------------------------------------------------
  // meta

  datatype Meta = Meta(title: string, description: string, color: string, image: Option<string>)

  datatype MetaField = MetaTitleField | MetaDescription | MetaColor | MetaImage {
    function Path(): seq<string> {
      match this
      case MetaTitleField => ["title"]
      case MetaDescription => ["description"]
      case MetaColor => ["color"]
      case MetaImage => ["image"]
    }
  }

  /** The metadata fields whose rule fails. */
  function MetaFailures(fmt: Formats, m: Meta): (r: set<MetaField>)
    ensures r == {} <==>
              && |m.title| <= 60
              && |m.description| <= 160
              && IsColorCode(m.color)
              && (m.image.Some? ==> fmt.isUrl(m.image.value))
    ensures MetaTitleField in r <==> |m.title| > 60
    ensures MetaDescription in r <==> |m.description| > 160
    ensures MetaColor in r <==> !IsColorCode(m.color)
    ensures MetaImage in r <==> m.image.Some? && !fmt.isUrl(m.image.value)
  {
    MetaTitleRule(fmt, m.title);
    BioRule(fmt, m.description);
    ColorRule(fmt, m.color);
    assert m.image.Some? ==> (Accepts(Url, fmt, m.image.value) <==> Holds(Url[0], fmt, m.image.value));
    Flag(Accepts(MetaTitle, fmt, m.title), MetaTitleField)
    + Flag(Accepts(Description, fmt, m.description), MetaDescription)
    + Flag(Accepts(ColorSchema, fmt, m.color), MetaColor)
    + Flag(OptionalAccepts(Url, fmt, m.image), MetaImage)
  }

  /** The metadata accepts an empty title, which a link does not. */
  lemma EmptyTitles(fmt: Formats, url: string, color: string)
    requires fmt.isUrl(url) && IsColorCode(color)
    ensures MetaFailures(fmt, Meta("", "", color, None)) == {}
    ensures LinkFailures(fmt, Link(url, "", None)) == {LinkTitle}
  {
  }
}
