/** `Footer` (components/footer.tsx:39-88): the colour classes read from the optional
    theme and one social link per entry of the content, or two default links when the
    content has none. Which icon names the icon library knows is a parameter. */
module Footer {
  import opened Wrappers
  import ThemeColors

  datatype Theme = Theme(background: Option<string>, text: Option<string>, accent: Option<string>)

  datatype Link = Link(platform: string, url: string, color: string)

  /** The `content` prop; its `links` may be missing. */
  datatype Content = Content(links: Option<seq<Link>>)

  /** The three classes computed at the top of the component. */
  datatype Classes = Classes(background: string, text: string, accent: string)

  /** `theme?.background`, `theme?.text`, `theme?.accent`. */
  function FieldOf(theme: Option<Theme>, field: nat): Option<string> {
    if theme.None? then None
    else if field == 0 then theme.value.background
    else if field == 1 then theme.value.text
    else theme.value.accent
  }

  /** `bgClass`, `textClass` and `accentTextClass`. */
  function FooterClasses(theme: Option<Theme>): Classes {
    Classes(
      ThemeColors.ClassOr(ThemeColors.BgColorMap, ThemeColors.Or(FieldOf(theme, 0), ""), "bg-card"),
      ThemeColors.ClassOr(ThemeColors.TextColorMap, ThemeColors.Or(FieldOf(theme, 1), ""), "text-muted-foreground"),
      ThemeColors.ClassOr(ThemeColors.TextColorMap, ThemeColors.Or(FieldOf(theme, 2), ""), "text-rose"))
  }

  /** Without a theme, or with names the tables do not know, the classes are
      `bg-card`, `text-muted-foreground` and `text-rose`; a known name gives its own class. */
  lemma ClassFallbacks(theme: Option<Theme>)
    ensures theme.None? ==> FooterClasses(theme) == Classes("bg-card", "text-muted-foreground", "text-rose")
    ensures theme.Some? && theme.value.background.Some? && theme.value.background.value in ThemeColors.BgColorMap ==>
      FooterClasses(theme).background == "bg-" + theme.value.background.value
    ensures theme.Some? && (theme.value.background.None? || theme.value.background.value !in ThemeColors.BgColorMap) ==>
      FooterClasses(theme).background == "bg-card"
    ensures theme.Some? && theme.value.text.Some? && theme.value.text.value in ThemeColors.TextColorMap ==>
      FooterClasses(theme).text == "text-" + theme.value.text.value
    ensures theme.Some? && (theme.value.text.None? || theme.value.text.value !in ThemeColors.TextColorMap) ==>
      FooterClasses(theme).text == "text-muted-foreground"
    ensures theme.Some? && theme.value.accent.Some? && theme.value.accent.value in ThemeColors.TextColorMap ==>
      FooterClasses(theme).accent == "text-" + theme.value.accent.value
    ensures theme.Some? && (theme.value.accent.None? || theme.value.accent.value !in ThemeColors.TextColorMap) ==>
      FooterClasses(theme).accent == "text-rose"
  {
    assert "" !in ThemeColors.BgColorMap && "" !in ThemeColors.TextColorMap;
    if theme.Some? && theme.value.background.Some? {
      ThemeColors.TablesArePrefixed(theme.value.background.value);
    }
    if theme.Some? && theme.value.text.Some? {
      ThemeColors.TablesArePrefixed(theme.value.text.value);
    }
    if theme.Some? && theme.value.accent.Some? {
      ThemeColors.TablesArePrefixed(theme.value.accent.value);
    }
  }

  /** The links shown when the content gives none. */
  const DefaultLinks: seq<Link> := [
    Link("Instagram", "https://instagram.com/linagaldin", "rose"),
    Link("Linkedin", "https://linkedin.com/in/anacarolinaniceto", "rose")]

  /** `content?.links || defaults`: an empty list is kept, it is not falsy. */
  function LinksOf(content: Option<Content>): seq<Link> {
    if content.Some? && content.value.links.Some? then content.value.links.value else DefaultLinks
  }

  /** `platformName`: `LinkedIn` is looked up as `Linkedin`. */
  function PlatformName(platform: string): string {
    if platform == "LinkedIn" then "Linkedin" else platform
  }

  /** `Icon`: the renamed platform, else the platform as written, else `Globe`. */
  function IconFor(platform: string, known: set<string>): (icon: string)
    ensures icon in known || icon == "Globe"
  {
    var name := PlatformName(platform);
    if name in known then name else if platform in known then platform else "Globe"
  }

  /** One rendered `<a>`. */
  datatype Anchor = Anchor(href: string, target: Option<string>, rel: Option<string>, ariaLabel: string, icon: string)

  function AnchorFor(link: Link, known: set<string>): Anchor {
    var mail := link.platform == "Mail";
    Anchor(link.url,
           if mail then None else Some("_blank"),
           if mail then None else Some("noopener noreferrer"),
           link.platform,
           IconFor(link.platform, known))
  }

  /** `links.map(...)`. */
  function Anchors(content: Option<Content>, known: set<string>): (anchors: seq<Anchor>)
    ensures |anchors| == |LinksOf(content)|
  {
    var links := LinksOf(content);
    seq(|links|, i requires 0 <= i < |links| => AnchorFor(links[i], known))
  }

  /** Every link becomes an anchor to its own URL, labelled with its platform; only a
      `Mail` link stays in the same tab, every other one opens a new tab without an
      opener. */
  lemma AnchorsFollowLinks(content: Option<Content>, known: set<string>)
    ensures var links := LinksOf(content); var anchors := Anchors(content, known);
      forall i :: 0 <= i < |links| ==>
        && anchors[i].href == links[i].url
        && anchors[i].ariaLabel == links[i].platform
        && (anchors[i].target.None? <==> links[i].platform == "Mail")
        && (anchors[i].rel.None? <==> links[i].platform == "Mail")
        && (links[i].platform != "Mail" ==>
              anchors[i].target == Some("_blank") && anchors[i].rel == Some("noopener noreferrer"))
  {
    var links := LinksOf(content);
    var anchors := Anchors(content, known);
    forall i | 0 <= i < |links|
      ensures anchors[i] == AnchorFor(links[i], known)
    {
    }
  }

  /** Without content, or with content that has no links, the footer shows the
      Instagram and LinkedIn defaults, both opening in a new tab; an empty list shows
      no links. */
  lemma DefaultsWhenMissing(content: Option<Content>, known: set<string>)
    ensures content.None? || content.value.links.None? ==>
      var anchors := Anchors(content, known);
      && |anchors| == 2
      && anchors[0].href == "https://instagram.com/linagaldin"
      && anchors[1].href == "https://linkedin.com/in/anacarolinaniceto"
      && anchors[0].target == Some("_blank") && anchors[1].target == Some("_blank")
    ensures content.Some? && content.value.links == Some([]) ==> Anchors(content, known) == []
  {
    if content.None? || content.value.links.None? {
      var anchors := Anchors(content, known);
      assert anchors[0] == AnchorFor(DefaultLinks[0], known);
      assert anchors[1] == AnchorFor(DefaultLinks[1], known);
    }
  }

  /** A `LinkedIn` entry gets the `Linkedin` icon when the library has it and its own
      spelling only as the second choice; any other platform is looked up as written. */
  lemma LinkedInSpelling(platform: string, known: set<string>)
    ensures platform == "LinkedIn" && "Linkedin" in known ==> IconFor(platform, known) == "Linkedin"
    ensures platform == "LinkedIn" && "Linkedin" !in known && "LinkedIn" in known ==>
      IconFor(platform, known) == "LinkedIn"
    ensures platform != "LinkedIn" ==>
      IconFor(platform, known) == (if platform in known then platform else "Globe")
  {
  }
}
