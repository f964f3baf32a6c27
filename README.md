# portfolioana — a Dafny model of its data logic

portfolioana is the website and admin panel of a digital-marketing consultant, built with
Next.js on Supabase. This project models the parts of it that compute something:

- the visit and click counters kept in a JSON file, and the image upload's file name
  (`app/actions/analytics.ts`);
- the content calendar's post list (`app/actions/calendar.ts`);
- the HTML reply to a briefing (`lib/email-templates.ts`);
- the icon-name normaliser (`lib/utils.ts`);
- the `.env.local` readers and the table updates of the three maintenance scripts
  (`scripts/`);
- and the pure logic of several components. These are the analytics panel, the
  sidebar's active item and collapse state, the theme's CSS variables, the colour
  fallbacks and cards of the services section, the footer links, and the contact form
  with the server action it calls.

Each source file becomes one module. Code that changes state becomes a class or a
method, and the method is proved against a specification function:

- the analytics file, with `incrementPageView` and `incrementClick`;
- the `analytics` table of the scripts;
- the sidebar, with its `collapsed` flag;
- the analytics panel, with its period filter;
- and the loops of `getPosts` and of the `.env.local` readers.

Pure code becomes functions, and lemmas state what the source promises.

A few helpers are shared:

- `Wrappers`: `Option`.
- `Text`: JavaScript's whitespace set, `trim`, one-character `split`, `join`,
  `startsWith` and ASCII case mapping.
- `Sorting`: a stable sort by an integer key. `Array.prototype.sort` is stable, so
  this is the result the source gets.
- `ThemeColors`: the two colour tables that the services section and the footer both
  declare, and the `||` fallback.

The code stores less than the admin pages expect, and computes more than it shows:

- The analytics store is a flat record of five counters plus `recentActivity`. It has no
  per-month history and no service, project or region click maps. The admin pages call
  `getAnalytics(year, month)` and `resetAnalyticsData`, which `app/actions/analytics.ts`
  does not define, so neither is modelled.
- In the services section and the footer, the background, title, subtitle, text and
  accent classes are computed from the theme but never applied to the markup. The
  markup uses fixed classes instead (components/services-section.tsx:71-77,
  components/footer.tsx:49). The model computes them as the code does.

## Model

Definitions that only compute have no row of their own. Each is specified by the rows
that name it:

- `Analytics.ReadStore` and `Analytics.Apply` (app/actions/analytics.ts:11-57) by
  `MissingFileReadsAsZero`, `IncrementOnMissingFile`, `ReplayGrows`, `ReplayConsistent`
  and the two increment methods.
- `Calendar.MonthWindow` and `Calendar.UtcTime` (app/actions/calendar.ts:22-27) by the
  five window lemmas. `Calendar.EventPost` and `Calendar.TaskPost`
  (app/actions/calendar.ts:73-81, 108-116) by `GeneratedPostFields`.
- `EmailTemplates.Render` (lib/email-templates.ts:12-86) by `SplicedVerbatim` and
  `FixedText`.
- `EnvFile.Fold`, `EnvFile.ReadEnv` and `EnvFile.Configured` (scripts/test-db.js:9-24)
  by the two parse methods, `LastDefinitionWins`, `UndefinedKeyAbsent` and the three
  script methods.
- `MaintenanceScripts.SeedIfMainAbsent`, `SeedIfEmpty` and `ResetMain` by the three
  table methods and the lemmas after them.
- `ThemeStyles.CssVariables` (components/theme-styles.tsx:17-19) by `OneLinePerColor`
  and `WrappedInRoot`.
- `AdminSidebar.IsActive` (components/admin-sidebar.tsx:83-85) by the four sidebar
  lemmas.
- `AdvancedAnalytics.Prepare` (components/advanced-analytics.tsx:42-47) by
  `PreparedScale`.
- `ServicesSection.TitleColor`, `SubtitleColor`, `Title`, `Subtitle`, `IconFor` and
  `CardFor` (components/services-section.tsx:51-112) by `ColorChains`,
  `TextPaintCases`, `NoThemeDefaults`, `HeadingFallbacks`, `CardColorCycle` and
  `CardsFollowItems`.
- `Footer.FooterClasses`, `LinksOf`, `PlatformName` and `AnchorFor`
  (components/footer.tsx:40-73) by `ClassFallbacks`, `DefaultsWhenMissing`,
  `LinkedInSpelling` and `AnchorsFollowLinks`.
- `ContactForm.FieldErrors`, `FormDataOf`, `OnSubmit` and `HandleSubmit`
  (components/contact-form.tsx:23-79) by `FieldRules`, `FormDataCarries`,
  `SubmitOutcome` and `SubmitEndToEnd`.

| member | source | states |
|---|---|---|
| Analytics.AnalyticsFile.GetAnalytics | app/actions/analytics.ts:42-57 | returns the stored record, or five zero counters and no recent activity when the file is missing or corrupt |
| Analytics.AnalyticsFile.IncrementPageView | app/actions/analytics.ts:11-20 | the new file content is one more page view and, when the random draw exceeds 0.8, one more unique visitor; a failed write leaves the file as it was; consistency of the counters is preserved |
| Analytics.AnalyticsFile.IncrementClick | app/actions/analytics.ts:22-40 | the new file content raises the counter named by the click kind; a failed write changes nothing; consistency is preserved |
| Analytics.MissingFileReadsAsZero | app/actions/analytics.ts:46-55 | a missing file reads as five zeros and an empty `recentActivity` |
| Analytics.ClickRaisesOneCounter | app/actions/analytics.ts:25-35 | `cta`, `project` and `contact` each raise exactly their own counter by one; every other field is unchanged |
| Analytics.PageViewRaisesViews | app/actions/analytics.ts:14-15 | page views grow by one, unique visitors by zero or one, and nothing else changes |
| Analytics.ReplayGrows | app/actions/analytics.ts:11-40 | no sequence of increments lowers a counter or changes `recentActivity` |
| Analytics.ReplayConsistent | app/actions/analytics.ts:11-40 | counters stay non-negative and unique visitors never exceed page views under any sequence of increments |
| Analytics.IncrementOnMissingFile | app/actions/analytics.ts:13-16 | against a missing file, a successful increment stores the defaults plus that one increment |
| Analytics.Decimal | app/actions/analytics.ts:70 | the timestamp is printed as a non-empty string of decimal digits |
| Analytics.DecimalRoundTrip | app/actions/analytics.ts:70 | the printed timestamp reads back to the same number |
| Analytics.DashSpaces | app/actions/analytics.ts:70 | replacing whitespace runs with `-` leaves no whitespace, never lengthens the name, and keeps a name without whitespace unchanged |
| Analytics.DashSpacesOfRun | app/actions/analytics.ts:70 | a name made only of whitespace becomes a single `-` |
| Analytics.DashSpacesSplice | app/actions/analytics.ts:70 | each maximal whitespace run becomes exactly one `-` between the replaced text before and after it |
| Analytics.DashSpacesIdempotent | app/actions/analytics.ts:70 | a second replacement changes nothing |
| Analytics.UploadImage | app/actions/analytics.ts:61-86 | the upload succeeds exactly when the form holds a file and the write succeeds, with url `/uploads/<timestamp>-<name>`; every failure answers "Failed to upload image" |
| Analytics.UploadFileNameParts | app/actions/analytics.ts:70-79 | the stored name has no whitespace; the timestamp and the cleaned name can be cut back out of it at the first `-` after the digits |
| Calendar.MonthWindowEndsBeforeNextMonth | app/actions/calendar.ts:22-27 | the manual posts' window starts at day 1 00:00:00 UTC of the month and ends one second before the next month starts |
| Calendar.JanuaryWindow | app/actions/calendar.ts:24-25 | January 2026 is filtered to 2026-01-01T00:00:00Z through 2026-01-31T23:59:59Z |
| Calendar.LeapFebruaryWindow | app/actions/calendar.ts:24-25 | February 2024 ends on the 29th |
| Calendar.DecemberWindow | app/actions/calendar.ts:24-25 | December's end bound carries into January of the next year |
| Calendar.TwoDigitYearWindow | app/actions/calendar.ts:24-25 | `Date.UTC` reads year 26 as 1926 |
| Calendar.ManualPosts | app/actions/calendar.ts:20-44 | no manual posts when the query fails; otherwise the rows whose date is inside the window, each as often as the query returned it; without a window, all rows in the query's order |
| Calendar.GetPosts | app/actions/calendar.ts:16-125 | fails exactly where `toISOString` throws on a window bound; otherwise returns the manual and generated posts stably sorted by date, all with parseable dates |
| Calendar.CollectProjectPosts | app/actions/calendar.ts:47-120 | the `projects.forEach` loop yields the posts of each project in order, events before tasks |
| Calendar.CollectEventPosts | app/actions/calendar.ts:50-83 | the events loop yields one post per event with a present, parseable date that passes the month filter |
| Calendar.CollectTaskPosts | app/actions/calendar.ts:86-118 | the tasks loop yields one post per task with an end date, not covered by an event title, whose date parses and passes the filter |
| Calendar.GeneratedPostOrigin | app/actions/calendar.ts:47-120 | a post is generated exactly when it is the post of an accepted event or an accepted task of some project |
| Calendar.EventPostsMembers | app/actions/calendar.ts:50-83 | a post comes from a project's events exactly when some event of it is accepted and gives that post |
| Calendar.TaskPostsMembers | app/actions/calendar.ts:86-118 | a post comes from a project's tasks exactly when some task of it is accepted and gives that post |
| Calendar.ProjectPostsLast | app/actions/calendar.ts:47-120 | the posts of a list of projects are those of all but the last plus those the last project generates |
| Calendar.GeneratedPostFields | app/actions/calendar.ts:73-81 | every generated post has a parseable date that passes the filter, the project title as client, the item's title as caption and `now` as creation time; event posts are "agendado" with the event's type, or "task" when it has none; task posts are of type "task" and "publicado" exactly when done; a missing id becomes `projectId-title` |
| Calendar.GetPostsOrder | app/actions/calendar.ts:122-124 | the result is sorted by time value, is a permutation of the input, and keeps the relative order of posts with equal time |
| Sorting.SortBy | app/actions/calendar.ts:122-124 | the stable sort returns a permutation of its input ordered by the key |
| Sorting.SortByStable | app/actions/calendar.ts:122-124 | the elements with any one key value keep their input order |
| IconName.FormatIconName | lib/utils.ts:8-19 | empty gives empty; any casing of "linkedin" gives "Linkedin"; the result is never longer than the input |
| IconName.NoSeparatorUnchanged | lib/utils.ts:17 | a name without `-`, `_` or space passes the first replacement unchanged |
| IconName.WordBoundary | lib/utils.ts:17 | a run of separators followed by an ordinary character becomes that character upper-cased |
| IconName.SeparatorOnlyBeforeLineEnd | lib/utils.ts:17 | after the replacement, a separator survives only as the last character or before a line terminator |
| IconName.JoinWordsAppend | lib/utils.ts:17 | the replacement works word by word: a prefix ending in an ordinary character is rewritten on its own |
| IconName.TwoWords | lib/utils.ts:16-18 | two words joined by one separator become one PascalCase word |
| IconName.KebabExample | lib/utils.ts:15 | "shopping-bag" gives "ShoppingBag" |
| IconName.SingleWord | lib/utils.ts:18 | a single word is only capitalised |
| IconName.SingleWordExample | lib/utils.ts:15 | "palette" gives "Palette" |
| IconName.LinkedInExample | lib/utils.ts:12 | "LinkedIn" gives "Linkedin" |
| IconName.JoinWordsOfRun | lib/utils.ts:17 | a run of separators alone collapses to its last separator |
| IconName.TrailingSeparators | lib/utils.ts:16-18 | a word followed by a run of separators keeps one separator at its end |
| IconName.TrailingSeparator | lib/utils.ts:17 | "bag-" gives "Bag-" |
| IconName.TrailingRun | lib/utils.ts:17 | "bag--" gives "Bag-" |
| EmailTemplates.FormatMessage | lib/email-templates.ts:10 | the formatted message contains no line feed |
| EmailTemplates.FormatMessageAppend | lib/email-templates.ts:10 | the replacement distributes over concatenation |
| EmailTemplates.FormatMessageLength | lib/email-templates.ts:10 | each line feed adds three characters |
| EmailTemplates.FormatMessageKeepsPlain | lib/email-templates.ts:10 | a message without line feeds is kept as it is |
| EmailTemplates.FormatMessageJoinsLines | lib/email-templates.ts:10 | the formatted message equals the lines of the message joined by `<br>` |
| EmailTemplates.CrLfKeepsCr | lib/email-templates.ts:10 | a CRLF line end keeps its carriage return: `\r\n` becomes `\r<br>` |
| EmailTemplates.SplicedVerbatim | lib/email-templates.ts:12-86 | the reply is the fixed head, the name, the fixed middle, the formatted message and the fixed tail, each recoverable at its offset |
| EmailTemplates.FixedText | lib/email-templates.ts:12-86 | two replies share the text before the name and after the message |
| EnvFile.ParseEnvJs | scripts/test-db.js:8-16 | the loop builds the object that folds the `.js` line rule over the lines of the file |
| EnvFile.ReadLineJs | scripts/test-db.js:10-15 | one line with an `=` assigns the trimmed key to the trimmed rest joined back with `=` |
| EnvFile.ParseEnvTs | scripts/test-db.ts:9-13 | the loop builds the object that folds the `.ts` line rule over the lines of the file |
| EnvFile.ReadLineTs | scripts/test-db.ts:11-12 | one line assigns the trimmed first piece to the trimmed second piece when both are non-empty |
| Text.TrimIsSlice | scripts/test-db.js:12-13 | `trim` returns a slice of its input with no whitespace at either end, and only whitespace is cut off |
| EnvFile.JsEntryMeaning | scripts/reset-analytics.js:9-16 | under the `.js` rule a line defines something exactly when it has an `=`; key and value are the trimmed text before and after the first `=` |
| EnvFile.TsEntryMeaning | scripts/test-db.ts:11-12 | under the `.ts` rule the value stops at the second `=` and the line counts only when both untrimmed parts are non-empty |
| EnvFile.NoEqualsIgnored | scripts/test-db.ts:11-12 | a line without `=` is ignored by both rules |
| EnvFile.RulesAgreeOnSimpleLines | scripts/test-db.js:10-14 | on a line with exactly one `=` and text on both sides, both rules give the same entry |
| EnvFile.JsIgnoresCarriageReturn | scripts/test-db.js:12-13 | under the `.js` rule a trailing `\r` makes no difference |
| EnvFile.LastDefinitionWins | scripts/test-db.js:9-16 | a key keeps the value of the last line that defines it |
| EnvFile.UndefinedKeyAbsent | scripts/test-db.js:14 | a key no line defines is absent, and `__proto__` is never stored |
| EnvFile.EmptyValue | scripts/test-db.ts:12 | `KEY=` stores "" under the `.js` rule and is skipped under the `.ts` rule |
| EnvFile.BlankValue | scripts/test-db.ts:12 | `KEY= ` stores "" under the `.ts` rule |
| EnvFile.TsCarriageReturnValue | scripts/test-db.ts:12 | under the `.ts` rule `KEY=\r` stores "" while `KEY=` is skipped |
| EnvFile.EmptyKey | scripts/test-db.js:12-14 | `=v` stores under the empty key under the `.js` rule and is skipped under the `.ts` rule |
| EnvFile.SecondEqualsSign | scripts/test-db.js:13 | with a second `=`, the `.js` rule keeps the whole value and the `.ts` rule only the part before it |
| MaintenanceScripts.AnalyticsTable.SeedMainIfAbsent | scripts/test-db.js:34-48 | the table after the query for `main` and the insert of the zero record when nothing came back |
| MaintenanceScripts.AnalyticsTable.SeedIfTableEmpty | scripts/test-db.ts:31-39 | the table after the query for all rows and the insert when none came back |
| MaintenanceScripts.AnalyticsTable.ResetMainRow | scripts/reset-analytics.js:41-44 | the update writes the reset record into `main` only |
| MaintenanceScripts.TestDbJs | scripts/test-db.js:18-49 | exits with a missing-variables outcome exactly when the URL or the service key is missing or empty; otherwise the table is seeded by the `.js` rule |
| MaintenanceScripts.TestDbTs | scripts/test-db.ts:15-40 | the same guard, then the table is seeded by the `.ts` rule |
| MaintenanceScripts.ResetAnalytics | scripts/reset-analytics.js:18-51 | the same guard, then `main` is reset |
| MaintenanceScripts.SeedKeepsExistingRows | scripts/test-db.js:37-40 | seeding never overwrites an existing `main` row nor touches another row, and after a successful run `main` exists |
| MaintenanceScripts.SeedIdempotent | scripts/test-db.js:37-48 | seeding twice is seeding once |
| MaintenanceScripts.SeedIfEmptyOnlyEmpty | scripts/test-db.ts:34-37 | the `.ts` script seeds only an empty table, which then holds just `main` |
| MaintenanceScripts.SeedRulesDiffer | scripts/test-db.ts:31-37 | on a table with rows but no `main`, the `.js` script inserts `main` and the `.ts` script does not |
| MaintenanceScripts.ResetOnlyMain | scripts/reset-analytics.js:41-44 | the reset writes the zero record into an existing `main` and touches no other row |
| MaintenanceScripts.SeedAndResetRecords | scripts/reset-analytics.js:30-39 | both records have five zero counters; only the reset record carries the three empty click maps |
| ThemeStyles.ThemeStyles | components/theme-styles.tsx:12-30 | no style without a theme or without colours |
| ThemeStyles.Declarations | components/theme-styles.tsx:17-18 | one `--color-<key>: <value>;` per colour, in entry order |
| ThemeStyles.EmptyColors | components/theme-styles.tsx:13-27 | an empty colour record still gives an empty `:root` block |
| ThemeStyles.DeclarationParts | components/theme-styles.tsx:18 | a declaration holds key and value verbatim at fixed offsets |
| ThemeStyles.NoLineFeed | components/theme-styles.tsx:18 | a declaration of line-feed-free key and value has no line feed |
| ThemeStyles.OneLinePerColor | components/theme-styles.tsx:17-19 | with line-feed-free keys and values, splitting the variables at line feeds gives back the declarations |
| ThemeStyles.WrappedInRoot | components/theme-styles.tsx:23-27 | the variables sit between the fixed opening and closing of the `:root` block |
| AdminSidebar.DashboardExactOnly | components/admin-sidebar.tsx:83-85 | the dashboard item is active on `/admin` and nowhere else |
| AdminSidebar.PrefixNotSegmentAware | components/admin-sidebar.tsx:85 | any other item is active on every path that starts with its href, even without a following `/` |
| AdminSidebar.ProjectsPrefixExample | components/admin-sidebar.tsx:85 | `/admin/projetosX` highlights the projects item |
| AdminSidebar.AtMostOneActive | components/admin-sidebar.tsx:18-44 | with the five fixed items, no path highlights two of them |
| AdminSidebar.ActiveSection | components/admin-sidebar.tsx:83-85 | an item other than the dashboard is active only on paths longer than `/admin/` whose next character is its own |
| AdminSidebar.Sidebar.Toggle | components/admin-sidebar.tsx:65 | the toggle flips `collapsed` |
| AdminSidebar.Sidebar.WidthClass | components/admin-sidebar.tsx:54 | the width class is `w-[68px]` exactly when collapsed and `w-64` exactly when expanded |
| AdvancedAnalytics.ChartData | components/advanced-analytics.tsx:32-45 | a missing map gives no entries; otherwise a permutation of its entries with non-increasing values |
| AdvancedAnalytics.ChartDataStable | components/advanced-analytics.tsx:35 | entries with equal values keep their map order |
| AdvancedAnalytics.MaxIncidence | components/advanced-analytics.tsx:47 | 0 without regions; otherwise a region value that no region exceeds |
| AdvancedAnalytics.MaxIsFirst | components/advanced-analytics.tsx:47 | on values sorted downwards, the largest is the first |
| AdvancedAnalytics.PreparedScale | components/advanced-analytics.tsx:42-47 | the bar scale is the first sorted region value, the largest value of the region map |
| AdvancedAnalytics.Panel.SetTimeFilter | components/advanced-analytics.tsx:30 | a filter button sets the period |
| ThemeColors.TablesArePrefixed | components/footer.tsx:20-37 | each table entry is its name with a `bg-` or `text-` prefix |
| ServicesSection.Background | components/services-section.tsx:45-48 | a hex background gives an inline style and an empty class; a known name gives `bg-<name>`; a missing, empty or unknown name gives `bg-transparent` |
| ServicesSection.KnownNotHex | components/services-section.tsx:24-32 | no background table name starts with `#`, each maps to `bg-<name>`, and the empty name is not in the table |
| ServicesSection.TextPaintCases | components/services-section.tsx:55-61 | a hex colour gives a style and no class; a known name its `text-` class; anything else the fallback |
| ServicesSection.NoThemeDefaults | components/services-section.tsx:51-61 | without a theme the title is `text-ink`, the subtitle `text-rose`, the background `bg-transparent` |
| ServicesSection.ColorChains | components/services-section.tsx:51-59 | the title colour falls back to the text colour and then `ink`; the subtitle colour to the accent and then `rose` |
| ServicesSection.HeadingFallbacks | components/services-section.tsx:75-78 | the headings show the content's text unless it is missing or empty, else "O que eu faço" and "Meus Serviços" |
| ServicesSection.Cards | components/services-section.tsx:68-83 | missing content or items give no cards; otherwise one card per item |
| ServicesSection.CardColorCycle | components/services-section.tsx:88-112 | card `i` is coloured by rose, moss, slate in turn by `i mod 3`, with icon class `text-<c>` and box class `bg-<c>/10`; the pattern repeats every three cards |
| ServicesSection.CardsFollowItems | components/services-section.tsx:83-118 | each card keeps its item's title and description, with the icon its name formats to, or `Palette` when the library lacks it |
| Footer.ClassFallbacks | components/footer.tsx:40-42 | for each of background, text and accent, a known name gives its `bg-`/`text-` class and a missing, empty or unknown name falls back to `bg-card`, `text-muted-foreground` or `text-rose` |
| Footer.IconFor | components/footer.tsx:65 | the icon is a known icon or `Globe` |
| Footer.Anchors | components/footer.tsx:62-78 | one anchor per link |
| Footer.AnchorsFollowLinks | components/footer.tsx:62-78 | each anchor points to its link's URL, is labelled with its platform, and only `Mail` links have no target and no rel; others get `_blank` and `noopener noreferrer` |
| Footer.DefaultsWhenMissing | components/footer.tsx:43-46 | missing links give Instagram then Linkedin, both in a new tab; an empty list stays empty |
| Footer.LinkedInSpelling | components/footer.tsx:63-65 | `LinkedIn` is looked up as `Linkedin` first and as written second; other platforms as written |
| ContactForm.Utf16Length | components/contact-form.tsx:24-32 | the length the schema compares lies between the number of characters and twice that |
| ContactForm.FieldRules | components/contact-form.tsx:23-33 | the name fails iff it is shorter than 2, the e-mail iff the e-mail rule rejects it, the message iff shorter than 10, each with its own message; the values are accepted iff all three pass |
| ContactForm.DefaultsRejected | components/contact-form.tsx:40-44 | the empty defaults fail the name and message rules |
| ContactForm.Get | app/actions/contact.ts:10-12 | `formData.get` finds nothing exactly when no entry has the key, and otherwise the value of the first entry with that key |
| ContactForm.FormDataCarries | components/contact-form.tsx:50-53 | the form data carries name, e-mail and message as entered, under those keys only |
| ContactForm.SendMessage | app/actions/contact.ts:14-34 | the action succeeds exactly when all three fields are present and non-empty and the insert succeeds; every failure carries an error; the counter update cannot fail it |
| ContactForm.AcceptedPassesServerCheck | app/actions/contact.ts:14-16 | values the schema accepts always pass the server's non-empty check; only the insert can fail |
| ContactForm.SubmitOutcome | components/contact-form.tsx:47-65 | `isSubmitting` is true during the send and false once the action answers; success clears the form with a success toast; failure keeps the values and shows the server's error or "Erro ao enviar mensagem."; when the action throws, `isSubmitting` stays true, the values stay and no toast appears |
| ContactForm.SubmitEndToEnd | components/contact-form.tsx:79 | rejected values are never sent; for accepted values the form is cleared exactly when the action answers and the insert succeeds, stays busy exactly when the action throws, and "Todos os campos são obrigatórios." never appears |

## Left out

- Supabase and the file system. Every database query, insert and update, `revalidatePath`, `fs.readFile`/`fs.writeFile`, and the console logging are inputs or outcomes. A query result is an optional value and a write is a success flag.
- `JSON.parse`/`JSON.stringify`: the analytics file's content is an optional record. A corrupt file is the same as a missing one.
- `Math.random() > 0.8` is a boolean parameter. `Date.now()` and `new Date().toISOString()` are parameters too.
- `new Date(s)` for stored date strings is a parser parameter. It gives the time value and the UTC and local year and month. Only `Date.UTC` for the month window is computed.
- Calendar.GetPosts: requires every stored post's date to parse. With an unparseable date the source's comparator returns `NaN`, and the order `sort` then produces is not modelled.
- Calendar.GetPosts: an absent event or task title is the empty string. The source differs in three ways. `undefined?.includes` and `includes(undefined)` behave differently from the empty string. The generated id becomes `<projectId>-undefined` rather than `<projectId>-`. The caption is `undefined` rather than "".
- Calendar.GetPosts: one `now` serves every generated post. The source calls `new Date().toISOString()` once per post, so their creation times can differ by milliseconds.
- Calendar.ManualPosts: the database's `gte`/`lte` on the `date` column is modelled as a comparison of the time values that `parse` gives.
- Analytics.UploadImage: the file bytes are carried but not written. `Date.now()` is a natural-number parameter.
- ASCII-only case mapping: `toUpperCase`/`toLowerCase` are modelled for ASCII letters. Other characters are left as they are.
- `Object.entries` order is an input: a record is given as its list of entries.
- Prototype members of the colour tables are not modelled. The source would look up names such as `constructor` on the prototype.
- AdvancedAnalytics.ChartData: values are integers. `NaN` and fractional click counts are not modelled, and neither are the floating-point bar widths and opacities.
- Rendering is not modelled. This covers React, JSX, lucide icon lookup (a set of known icon names), recharts, animation delays, `cn`, and the contact form's title and subtitle fallbacks.
- The click counter that a services card calls on click is not defined in `app/actions/analytics.ts`. It is not part of this model.
- ContactForm.FieldRules: zod's e-mail check is a predicate parameter. `AcceptedPassesServerCheck` assumes only that it rejects the empty string.
- Concurrency: two requests that increment the analytics file at the same time can lose an update. The model runs increments one after the other.
- Sending the reply e-mail (app/actions/send-email.ts) is not part of this model.
