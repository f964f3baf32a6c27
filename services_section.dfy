/** `ServicesSection` (components/services-section.tsx:44-127): the colour resolution of
    the section from the optional theme, the heading texts with their defaults, and one
    card per service item, coloured rose, moss and slate in turn. Which icon names the
    icon library knows is a parameter; the click counter the card calls is not part of
    this model. */
module ServicesSection {
  import opened Wrappers
  import Text
  import IconName
  import ThemeColors

  /** The theme fields the section reads; each may be missing. */
  datatype Theme = Theme(
    background: Option<string>,
    text: Option<string>,
    accent: Option<string>,
    titleColor: Option<string>,
    subtitleColor: Option<string>)

  datatype ServiceItem = ServiceItem(title: string, description: string, icon: string, color: string)

  /** The `content` prop; each field may be missing. */
  datatype Content = Content(title: Option<string>, subtitle: Option<string>, items: Option<seq<ServiceItem>>)

  /** A colour resolved to either a class or an inline style, never both. */
  datatype Paint = Paint(className: string, style: Option<string>)

  /** `isHex`: present and starting with `#`. */
  predicate IsHex(v: Option<string>) {
    v.Some? && Text.StartsWith(v.value, "#")
  }

  /** `bgClass` and `bgStyle`: a hex background becomes an inline style with no class;
      a known name gives `bg-<name>`; a missing, empty or unknown name gives
      `bg-transparent`. */
  function Background(theme: Option<Theme>): (p: Paint)
    ensures IsHex(FieldOf(theme, 0)) ==> p == Paint("", FieldOf(theme, 0))
    ensures FieldOf(theme, 0).Some? && FieldOf(theme, 0).value in ThemeColors.BgColorMap ==>
      p == Paint("bg-" + FieldOf(theme, 0).value, None)
    ensures !IsHex(FieldOf(theme, 0)) && (FieldOf(theme, 0).None? || FieldOf(theme, 0).value !in ThemeColors.BgColorMap) ==>
      p == Paint("bg-transparent", None)
  {
    var bg := FieldOf(theme, 0);
    KnownNotHex(ThemeColors.Or(bg, ""));
    if IsHex(bg) then Paint("", bg)
    else Paint(ThemeColors.ClassOr(ThemeColors.BgColorMap, ThemeColors.Or(bg, ""), "bg-transparent"), None)
  }

  /** A colour name of the background table is never taken for a hex value, and its
      class is `bg-<name>`; the empty name is not in the table. */
  lemma KnownNotHex(name: string)
    ensures name in ThemeColors.BgColorMap ==> !Text.StartsWith(name, "#")
    ensures name in ThemeColors.BgColorMap ==> ThemeColors.BgColorMap[name] == "bg-" + name
    ensures "" !in ThemeColors.BgColorMap
  {
    ThemeColors.TablesArePrefixed(name);
    if name in ThemeColors.BgColorMap {
      assert name[0] != '#' by {
        assert name in {"rose", "sand", "ink", "moss", "slate", "white", "transparent"};
      }
      NotHex(name);
    }
  }

  /** `theme?.<field>`: background, text, accent, titleColor, subtitleColor. */
  function FieldOf(theme: Option<Theme>, field: nat): Option<string> {
    if theme.None? then None
    else if field == 0 then theme.value.background
    else if field == 1 then theme.value.text
    else if field == 2 then theme.value.accent
    else if field == 3 then theme.value.titleColor
    else theme.value.subtitleColor
  }

  /** A text colour: a hex value becomes an inline style with no class, a name is
      looked up with `fallback` for unknown names. */
  function TextPaint(color: string, fallback: string): Paint {
    if Text.StartsWith(color, "#") then Paint("", Some(color))
    else Paint(ThemeColors.ClassOr(ThemeColors.TextColorMap, color, fallback), None)
  }

  /** `titleColor`: the title colour, else the text colour, else `ink`. */
  function TitleColor(theme: Option<Theme>): string {
    ThemeColors.Or(FieldOf(theme, 3), ThemeColors.Or(FieldOf(theme, 1), "ink"))
  }

  /** `subtitleColor`: the subtitle colour, else the accent, else `rose`. */
  function SubtitleColor(theme: Option<Theme>): string {
    ThemeColors.Or(FieldOf(theme, 4), ThemeColors.Or(FieldOf(theme, 2), "rose"))
  }

  function TitlePaint(theme: Option<Theme>): Paint {
    TextPaint(TitleColor(theme), "text-ink")
  }

  function SubtitlePaint(theme: Option<Theme>): Paint {
    TextPaint(SubtitleColor(theme), "text-rose")
  }

  /** A hex value gives a style and no class; a known name gives its class; anything
      else gives the fallback class. */
  lemma TextPaintCases(color: string, fallback: string)
    ensures Text.StartsWith(color, "#") ==> TextPaint(color, fallback) == Paint("", Some(color))
    ensures !Text.StartsWith(color, "#") && color in ThemeColors.TextColorMap ==>
      TextPaint(color, fallback) == Paint("text-" + color, None)
    ensures !Text.StartsWith(color, "#") && color !in ThemeColors.TextColorMap ==>
      TextPaint(color, fallback) == Paint(fallback, None)
  {
    ThemeColors.TablesArePrefixed(color);
  }

  /** Without a theme the title is `text-ink` and the subtitle `text-rose`, and the
      background is `bg-transparent`. */
  lemma NoThemeDefaults()
    ensures TitlePaint(None) == Paint("text-ink", None)
    ensures SubtitlePaint(None) == Paint("text-rose", None)
    ensures Background(None) == Paint("bg-transparent", None)
  {
    NotHex("ink");
    NotHex("rose");
    assert "" !in ThemeColors.BgColorMap;
  }

  lemma NotHex(color: string)
    requires color != [] && color[0] != '#'
    ensures !Text.StartsWith(color, "#")
  {
    assert color[..1][0] == color[0];
  }

  /** The title falls back to the text colour only when no title colour is set, and the
      subtitle to the accent only when no subtitle colour is set. */
  lemma ColorChains(theme: Theme)
    ensures theme.titleColor.Some? && theme.titleColor.value != "" ==> TitleColor(Some(theme)) == theme.titleColor.value
    ensures (theme.titleColor.None? || theme.titleColor.value == "") ==>
      TitleColor(Some(theme)) == ThemeColors.Or(theme.text, "ink")
    ensures theme.subtitleColor.Some? && theme.subtitleColor.value != "" ==> SubtitleColor(Some(theme)) == theme.subtitleColor.value
    ensures (theme.subtitleColor.None? || theme.subtitleColor.value == "") ==>
      SubtitleColor(Some(theme)) == ThemeColors.Or(theme.accent, "rose")
  {
  }

  /** The heading texts: `content?.subtitle || "O que eu faço"` and
      `content?.title || "Meus Serviços"`. */
  function Subtitle(content: Option<Content>): string {
    ThemeColors.Or(if content.None? then None else content.value.subtitle, "O que eu fa\U{E7}o")
  }

  function Title(content: Option<Content>): string {
    ThemeColors.Or(if content.None? then None else content.value.title, "Meus Servi\U{E7}os")
  }

  /** A heading shows the content's own text unless it is missing or empty. */
  lemma HeadingFallbacks(content: Option<Content>)
    ensures content.Some? && content.value.title.Some? && content.value.title.value != "" ==>
      Title(content) == content.value.title.value
    ensures content.None? || content.value.title.None? || content.value.title.value == "" ==>
      Title(content) == "Meus Servi\U{E7}os"
    ensures content.Some? && content.value.subtitle.Some? && content.value.subtitle.value != "" ==>
      Subtitle(content) == content.value.subtitle.value
    ensures content.None? || content.value.subtitle.None? || content.value.subtitle.value == "" ==>
      Subtitle(content) == "O que eu fa\U{E7}o"
  {
  }

  /** `colorCycle`: card `index` is coloured by `colorCycle[index % 3]`. */
  const ColorCycle: seq<string> := ["rose", "moss", "slate"]

  /** `colorMap`: the icon class and the box class of each colour, separated by a space. */
  const ColorMap: map<string, string> := map[
    "rose" := "text-rose bg-rose/10",
    "moss" := "text-moss bg-moss/10",
    "slate" := "text-slate bg-slate/10"]

  function CardColors(index: nat): string {
    var name := ColorCycle[index % 3];
    assert name in ColorMap;
    ColorMap[name]
  }

  /** A rendered card. */
  datatype Card = Card(icon: string, iconClass: string, boxClass: string, title: string, description: string)

  /** The icon component for a service: the formatted name when the library has it,
      `Palette` otherwise. */
  function IconFor(icon: string, known: set<string>): string {
    var name := IconName.FormatIconName(icon);
    if name in known then name else "Palette"
  }

  /** One card; the two classes are the words of `colors`. */
  function CardFor(item: ServiceItem, index: nat, known: set<string>): Card {
    var words := Text.Split(CardColors(index), ' ');
    Card(IconFor(item.icon, known), words[0], if |words| > 1 then words[1] else "", item.title, item.description)
  }

  /** `services.map(...)`, where `services` is `content?.items || []`. */
  function Cards(content: Option<Content>, known: set<string>): (cards: seq<Card>)
    ensures content.None? || content.value.items.None? ==> cards == []
    ensures content.Some? && content.value.items.Some? ==> |cards| == |content.value.items.value|
  {
    var items := if content.None? || content.value.items.None? then [] else content.value.items.value;
    seq(|items|, i requires 0 <= i < |items| => CardFor(items[i], i, known))
  }

  /** The words of a colour pair: `text-<c>` then `bg-<c>/10`. */
  lemma ColorWords(text: string, bg: string)
    requires ' ' !in text && ' ' !in bg
    ensures Text.Split(text + " " + bg, ' ') == [text, bg]
  {
    Text.SplitJoin([text, bg], ' ');
    assert Text.Join([text, bg], [' ']) == text + " " + bg by {
      assert [text, bg][1..] == [bg];
    }
  }

  /** The two words of each `colorMap` entry. */
  lemma MapWords(name: string)
    requires name in ColorMap
    ensures Text.Split(ColorMap[name], ' ') == ["text-" + name, "bg-" + name + "/10"]
  {
    EntryParts(name);
    ColorWords("text-" + name, "bg-" + name + "/10");
  }

  lemma EntryParts(name: string)
    requires name in ColorMap
    ensures ' ' !in "text-" + name && ' ' !in "bg-" + name + "/10"
    ensures ColorMap[name] == ("text-" + name) + " " + ("bg-" + name + "/10")
  {
    assert ' ' !in name by {
      assert name == "rose" || name == "moss" || name == "slate";
    }
    assert ' ' !in "text-" && ' ' !in "bg-" && ' ' !in "/10";
    EntryPair(name);
  }

  lemma EntryPair(name: string)
    requires name in ColorMap
    ensures ColorMap[name] == ("text-" + name) + " " + ("bg-" + name + "/10")
  {
    EntryLiterals();
  }

  lemma EntryLiterals()
    ensures ColorMap["rose"] == ("text-" + "rose") + " " + ("bg-" + "rose" + "/10")
    ensures ColorMap["moss"] == ("text-" + "moss") + " " + ("bg-" + "moss" + "/10")
    ensures ColorMap["slate"] == ("text-" + "slate") + " " + ("bg-" + "slate" + "/10")
  {
  }

  /** Card `i` takes the `i % 3`-th colour of rose, moss, slate, for its icon and for
      the tinted box around it; the pattern repeats every three cards. */
  lemma CardColorCycle(item: ServiceItem, index: nat, known: set<string>)
    ensures var c := ColorCycle[index % 3]; var card := CardFor(item, index, known);
      && card.iconClass == "text-" + c
      && card.boxClass == "bg-" + c + "/10"
      && card.title == item.title && card.description == item.description
    ensures CardFor(item, index + 3, known) == CardFor(item, index, known)
  {
    assert (index + 3) % 3 == index % 3;
    MapWords(ColorCycle[index % 3]);
  }

  /** Each item gives one card, in order, with the item's title and description and the
      icon its name formats to when the library knows it. */
  lemma CardsFollowItems(content: Content, known: set<string>)
    requires content.items.Some?
    ensures var items := content.items.value; var cards := Cards(Some(content), known);
      forall i :: 0 <= i < |items| ==>
        && cards[i].title == items[i].title && cards[i].description == items[i].description
        && (IconName.FormatIconName(items[i].icon) in known ==> cards[i].icon == IconName.FormatIconName(items[i].icon))
        && (IconName.FormatIconName(items[i].icon) !in known ==> cards[i].icon == "Palette")
  {
    var items := content.items.value;
    var cards := Cards(Some(content), known);
    forall i | 0 <= i < |items|
      ensures cards[i] == CardFor(items[i], i, known)
    {
    }
  }
}
