/** `ThemeStyles` (components/theme-styles.tsx:12-30): the site theme's colours as CSS
    custom properties in a `:root` block. The colour record is given as the list of
    its entries in `Object.entries` order; rendering the `<style>` element is left out,
    and the model returns the text it would contain. */
module ThemeStyles {
  import opened Wrappers
  import Text

  /** The `theme` prop: only `colors` is read. */
  datatype Theme = Theme(colors: Option<seq<(string, string)>>)

  /** One custom property: `--color-<key>: <value>;`. */
  function Declaration(entry: (string, string)): string {
    "--color-" + entry.0 + ": " + entry.1 + ";"
  }

  /** The `map` over the entries. */
  function Declarations(entries: seq<(string, string)>): (ds: seq<string>)
    ensures |ds| == |entries|
    ensures forall i :: 0 <= i < |entries| ==> ds[i] == Declaration(entries[i])
  {
    seq(|entries|, i requires 0 <= i < |entries| => Declaration(entries[i]))
  }

  /** `cssVariables`: the declarations joined by line feeds. */
  function CssVariables(entries: seq<(string, string)>): string {
    Text.Join(Declarations(entries), "\n")
  }

  const RootOpen: string := "\n        :root {\n          "
  const RootClose: string := "\n        }\n      "

  /** The component: nothing without a theme or without colours, otherwise the text of
      the style element. */
  function ThemeStyles(theme: Option<Theme>): (css: Option<string>)
    ensures css.None? <==> theme.None? || theme.value.colors.None?
  {
    if theme.None? || theme.value.colors.None? then None
    else Some(RootOpen + CssVariables(theme.value.colors.value) + RootClose)
  }

  /** An empty colour record still gives a `:root` block, with nothing inside. */
  lemma EmptyColors()
    ensures CssVariables([]) == ""
    ensures ThemeStyles(Some(Theme(Some([])))) == Some(RootOpen + RootClose)
  {
    assert RootOpen + [] == RootOpen;
  }

  /** A declaration holds the key and the value verbatim, at fixed places. */
  lemma DeclarationParts(entry: (string, string))
    ensures var d := Declaration(entry); var k := |entry.0|;
      && |d| == 8 + k + 2 + |entry.1| + 1
      && d[..8] == "--color-"
      && d[8..8 + k] == entry.0
      && d[8 + k..10 + k] == ": "
      && d[10 + k..|d| - 1] == entry.1
      && d[|d| - 1] == ';'
  {
    var (key, value) := entry;
    var d := Declaration(entry);
    assert d == "--color-" + (key + (": " + (value + ";")));
  }

  /** With keys and values free of line feeds, the text has one line per colour, in
      entry order: splitting it at line feeds gives the declarations back. */
  lemma OneLinePerColor(entries: seq<(string, string)>)
    requires |entries| >= 1
    requires forall i :: 0 <= i < |entries| ==> '\n' !in entries[i].0 && '\n' !in entries[i].1
    ensures Text.Split(CssVariables(entries), '\n') == Declarations(entries)
  {
    var ds := Declarations(entries);
    forall i | 0 <= i < |ds| ensures '\n' !in ds[i] {
      NoLineFeed(entries[i]);
    }
    Text.SplitJoin(ds, '\n');
  }

  lemma NoLineFeed(entry: (string, string))
    requires '\n' !in entry.0 && '\n' !in entry.1
    ensures '\n' !in Declaration(entry)
  {
    var d := Declaration(entry);
    DeclarationParts(entry);
    forall i | 0 <= i < |d| ensures d[i] != '\n' {
      var k := |entry.0|;
      if i < 8 {
        assert d[i] == d[..8][i];
      } else if i < 8 + k {
        assert d[i] == d[8..8 + k][i - 8];
      } else if i < 10 + k {
        assert d[i] == d[8 + k..10 + k][i - 8 - k];
      } else if i < |d| - 1 {
        assert d[i] == d[10 + k..|d| - 1][i - 10 - k];
      }
    }
  }

  /** The declarations sit between the fixed opening and closing of the `:root` block. */
  lemma WrappedInRoot(theme: Theme)
    requires theme.colors.Some?
    ensures var css := ThemeStyles(Some(theme)).value; var v := CssVariables(theme.colors.value);
      && |css| == |RootOpen| + |v| + |RootClose|
      && css[..|RootOpen|] == RootOpen
      && css[|RootOpen|..|RootOpen| + |v|] == v
      && css[|RootOpen| + |v|..] == RootClose
  {
    var v := CssVariables(theme.colors.value);
    var css := RootOpen + v + RootClose;
    assert css == RootOpen + (v + RootClose);
  }
}
