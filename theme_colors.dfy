/** The colour lookup shared by the services section and the footer: the same two
    tables are declared in components/services-section.tsx:25-42 and
    components/footer.tsx:20-37, and both read optional theme fields through `||`. */
module ThemeColors {
  import opened Wrappers

  /** `v || fallback` for an optional string: a missing value and `""` are falsy. */
  function Or(v: Option<string>, fallback: string): string {
    if v.Some? && v.value != "" then v.value else fallback
  }

  /** `bgColorMap`. */
  const BgColorMap: map<string, string> := map[
    "rose" := "bg-rose",
    "sand" := "bg-sand",
    "ink" := "bg-ink",
    "moss" := "bg-moss",
    "slate" := "bg-slate",
    "white" := "bg-white",
    "transparent" := "bg-transparent"]

  /** `textColorMap`. */
  const TextColorMap: map<string, string> := map[
    "rose" := "text-rose",
    "sand" := "text-sand",
    "ink" := "text-ink",
    "moss" := "text-moss",
    "slate" := "text-slate",
    "white" := "text-white"]

  /** `table[key] || fallback`: the table's class for a known name, the fallback for
      any other. */
  function ClassOr(table: map<string, string>, key: string, fallback: string): string {
    if key in table && table[key] != "" then table[key] else fallback
  }

  /** Every table entry is the name with a `bg-` or `text-` prefix, so a known name's
      class is never the fallback's business. */
  lemma TablesArePrefixed(name: string)
    ensures name in BgColorMap ==> BgColorMap[name] == "bg-" + name
    ensures name in TextColorMap ==> TextColorMap[name] == "text-" + name
    ensures name in TextColorMap ==> name in BgColorMap
  {
  }

  /** An unknown name, including the empty string a missing field turns into, falls
      back. */
  lemma UnknownFallsBack(table: map<string, string>, key: string, fallback: string)
    requires key !in table
    ensures ClassOr(table, key, fallback) == fallback
  {
  }
}
