# Calendar date index — a Dafny model

The calendar plugin shows the notes of an Obsidian vault on a month calendar.
At its centre is `CALENDAR_DAYS_STATE`, a map from ISO day strings
(`YYYY-MM-DD`) to the calendar items of that day. The plugin builds the map
from a registry of calendar configurations. Each configuration selects one
extraction strategy:

- the file name;
- a front-matter key;
- a regular-expression pattern matched line by line, optionally limited to a
  whitelist of paths;
- the dated headings of one note.

The plugin rebuilds the map from scratch at start-up and after a registry
change. It keeps the map up to date per file on the vault's metadata-changed,
rename, delete and create events, and after each change it dispatches a
refresh event to the view.

The project models:

- the item and configuration types (`types.dfy`);
- the string helpers the strategies rely on: `trim`, `split`, the 255-character
  display cut and the decimal rendering of `${Date.now()}` (`text.dfy`);
- the date index and its add, remove and reconcile operations (`date_index.dfy`);
- the extraction strategies, as specification functions plus the imperative
  scans proved against them (`strategies.dfy`);
- the plugin: the rebuild over the vault, the event handlers and the refresh
  counter (`plugin.dfy`);
- the settings defaults and registry values (`settings.dfy`);
- the registry editor of the settings tab (`settings_tab.dfy`).

Foreign code is passed in as the function fields of `Strategies.Env`:

- `parse`: dayjs parsing with a format, then `format('YYYY-MM-DD')`;
- `compiles`: whether `new RegExp(pattern)` succeeds;
- `firstCapture`: the first capture group of `line.match(regexp)`.

A vault is modelled as a sequence of `Document`s. Each one holds:

- the `TFile`;
- its text, which is what `vault.read` returns;
- its cached front matter;
- its cached headings.

`Date.now()` is a parameter. The view refresh (`calendarForceUpdate`, a
`window.dispatchEvent`) is modelled as the counter `notifications`.

Main results:

- Each scan method adds to the map it is given exactly the entries of its
  specification function. The function is characterised line by line: which
  lines yield an item, with which date, text and line number. This holds for
  the inline, heading and legacy scans.
- Removing a path removes every item of that path and no other item. It drops
  the days it empties, reports a change exactly when something was removed,
  and is idempotent.
- The metadata-changed handler is idempotent. It replaces the changed file's
  items by exactly what the enabled calendars yield for it, and leaves every
  other file's items as they were. Its result for that file agrees with a
  full rebuild of the vault. Handling a change of every markdown file, in
  any order, from an empty index gives the rebuild, path by path and day by
  day.
- After a rebuild, every item belongs to a markdown file of the vault and
  carries the id of an enabled calendar. So, when the calendar ids are
  distinct, the settings tab's delete and toggle-off methods leave no item
  of that calendar in the rebuilt index.
- The index never holds an empty day. This is the invariant `Valid()` of the
  plugin class, and every handler preserves it.
- Calendar ids minted at different instants differ. Deleting a calendar keeps
  the remaining ids distinct.

### Where the model follows the code rather than the declared types

- `src/types.ts` declares three item variants and a `CalendarConfig` without
  `inlineWhitelist` and `notePath`. It also has no `headingToCalendarItem`.
  `src/main.ts` imports and uses all of these (lines 5, 275, 374, 406), so the
  model adds the `NoteHeading` variant, the two fields and
  `Types.HeadingToCalendarItem` as the code uses them.
- The filename strategy parses `file.name`, extension included, not the
  basename.
- `addFilePathToState` creates items without a calendar id.
- The "Source Type" drop-down offers only the front-matter, filename and
  inline sources, so `SetSourceType` requires a source other than
  note-heading.
- The create handler ignores the change flag of its own removal step. It
  refreshes the view only when its scan found something.

## Model

| member | source | states |
|---|---|---|
| Types.FileToCalendarItem | src/types.ts:48-55 | a note item whose display name is the file's basename, with the file's path and the given calendar id |
| Types.InlineTimestampToCalendarItem | src/types.ts:57-70 | an inline-timestamp item with the given title and line number, the file's path and the calendar id |
| Types.HeadingToCalendarItem | src/main.ts:406-411 | a note-heading item with the given title and line number, the file's path and the calendar id |
| Text.TrimSpec | src/main.ts:402 | the result is a contiguous piece of the input with no whitespace at either end; it is empty exactly when the input is all whitespace |
| Text.Split | src/main.ts:287 | at least one piece, and no piece contains the separator |
| Text.JoinSplit | src/main.ts:287 | splitting into lines loses nothing: joining the pieces with the separator gives back the text |
| Text.SplitJoin | src/main.ts:276 | splitting a join of separator-free pieces gives back exactly those pieces |
| Text.Truncate | src/main.ts:302-304 | a text of at most 255 characters is kept; a longer one becomes its first 255 characters followed by "...", 258 in all |
| Text.Decimal | src/settings/settings.ts:155 | the rendering of a number is a non-empty string of decimal digits |
| Text.DecimalRoundTrip | src/settings/settings.ts:155 | reading the decimal rendering back gives the number, so the rendering is injective |
| DateIndex.Add | src/main.ts:127-136 | the item is appended to its day; the day is created if absent; every other day is unchanged; no day becomes empty |
| DateIndex.AddAllBucket | src/main.ts:465-474 | adding entries appends to each day exactly the items dated that day, in order; a day exists afterwards iff it existed or received an item |
| DateIndex.AddAllNoEmpty | src/main.ts:465-474 | adding entries never creates an empty day |
| DateIndex.Without | src/main.ts:152 | the filter keeps exactly the items of other paths, and shortens the list iff it held an item of the path |
| DateIndex.OnlyWithout | src/main.ts:152 | filtering out one path leaves the ordered items of every other path unchanged |
| DateIndex.RemovePath | src/main.ts:143-168 | a day is deleted iff it held items of the path and nothing else; every other day is kept, filtered of the path |
| DateIndex.RemovalComplete | src/main.ts:143-168 | no item of the removed path is left in any day |
| DateIndex.RemovePathNoEmpty | src/main.ts:159-162 | removal deletes the days it empties, so it never leaves an empty day |
| DateIndex.RemovePathKeepsOthers | src/main.ts:149-163 | a day without items of the path is untouched, and the items of every other path are unchanged in every day |
| DateIndex.RemovePathChanged | src/main.ts:154-157 | the map changes iff some day held an item of the path, which is the returned change flag |
| DateIndex.RemovePathIdempotent | src/main.ts:143-168 | removing a path twice is the same as removing it once |
| DateIndex.RemoveAfterAdd | src/main.ts:448-450 | removing a path forgets an item of that path added just before |
| DateIndex.RemoveAfterAddAll | src/main.ts:448-450 | removing a path forgets every entry of that path added since |
| DateIndex.UpsertIdempotent | src/main.ts:448-453 | dropping a file's items and re-adding its entries, done twice, equals doing it once: no duplicates accumulate |
| DateIndex.UpsertOwnPath | src/main.ts:448-499 | afterwards the file's items in each day are exactly its new entries dated that day, in order |
| DateIndex.UpsertOtherPaths | src/main.ts:448-499 | afterwards the ordered items of every other file are unchanged in every day |
| Strategies.WhitelistEntriesSpec | src/main.ts:276 | a path is on the whitelist iff it is non-empty and equals the trim of one comma-separated piece |
| Strategies.InlineUpToSpec | src/main.ts:293-360 | an entry comes from the first n lines iff some line among them has a capture that parses to the entry's date, and the item is that untrimmed, truncated line with its 1-based number |
| Strategies.InlineUpToOrdered | src/main.ts:293-360 | every inline item has a line number in 1..n, and the items appear in strictly increasing line order |
| Strategies.InlineEntriesSpec | src/main.ts:263-367 | a file yields an inline entry iff the pattern is non-empty, the whitelist admits the path, the pattern compiles, and some line yields that entry |
| Strategies.ScanFileForInlinePattern | src/main.ts:263-367 | the scan adds exactly the inline entries of the file, and reports a change iff there is one |
| Strategies.MatchLines | src/main.ts:293-361 | the line loop adds exactly the entries of all lines, in order, and reports a change iff there is one |
| Strategies.SectionUpToSpec | src/main.ts:401-428 | an entry comes from lines from..to-1 iff one of those lines has non-empty trimmed text not starting with '#', and the item is that trimmed, truncated text with its 1-based number |
| Strategies.HeadingSectionSpec | src/main.ts:389-428 | a heading yields an entry iff it parses to the entry's date and the entry comes from a text line between the heading's end and the line before the next heading (or the last line) |
| Strategies.HeadingsUpToSpec | src/main.ts:388-429 | the entries of the first n headings are those of one of them |
| Strategies.HeadingEntriesSpec | src/main.ts:369-432 | a file yields a heading entry iff it is the calendar's configured note, it has cached headings, and some heading's section yields that entry |
| Strategies.ScanFileForDateHeadings | src/main.ts:369-432 | the scan adds exactly the heading entries of the file, and reports a change iff there is one |
| Strategies.ScanSection | src/main.ts:401-428 | the line loop of one section adds exactly that section's entries, and reports a change iff there is one |
| Strategies.LegacyCaptureSpec | src/main.ts:198-206 | a line captures c iff it is a dash, one or more whitespace characters, twelve digits c and a colon |
| Strategies.LegacyRunEnds | src/main.ts:198-206 | when the pattern matches, its whitespace run is the whole run after the dash, so the capture does not depend on backtracking |
| Strategies.LegacyCaptureDigits | src/main.ts:198 | a capture of the legacy pattern is exactly twelve digits |
| Strategies.LegacyDateShape | src/main.ts:214-218 | the date built from the first eight digits has the shape dddd-dd-dd |
| Strategies.LegacyUpToSpec | src/main.ts:201-248 | an entry comes from the first n lines iff one of them matches the fixed pattern and the entry is dated by its capture's first eight digits, with the untrimmed, truncated line, its 1-based number and no calendar id |
| Strategies.LegacyEntriesSpec | src/main.ts:190-248 | the entries the legacy scan adds for a file are exactly those of its matching lines |
| Strategies.LegacyUpToShape | src/main.ts:201-248 | every legacy entry has an ISO-shaped date, the file's path and no calendar id |
| Strategies.LegacyCaptureOf | src/main.ts:198-206 | a dash, one space, twelve digits and a colon capture exactly those digits, whatever follows on the line |
| Strategies.ScanFileContentForTimestampPattern | src/main.ts:185-254 | the legacy scan adds exactly the legacy entries of the file, and reports a change iff there is one |
| Strategies.Enabled | src/main.ts:453 | the filtered registry holds exactly the enabled calendars |
| Strategies.CalendarEntriesTagged | src/main.ts:455-498 | whatever strategy a calendar selects, its entries carry the file's path and the calendar's id |
| Strategies.CalendarsEntriesTagged | src/main.ts:453-499 | every entry of a file over a list of calendars has the file's path and the id of one of those calendars |
| Strategies.WithoutYaml | src/main.ts:607-609 | exactly the calendars whose source is not front matter |
| Strategies.CreateSkipsYaml | src/main.ts:590-622 | the create handler yields what the other handlers yield with the front-matter calendars removed |
| Strategies.ApplyCalendar | src/main.ts:455-498 | one calendar's pass over a file adds exactly that calendar's entries, and reports a change iff there is one |
| Plugin.MarkdownFiles | src/main.ts:657 | exactly the documents of the vault with the extension md |
| Plugin.RebuildEntriesTagged | src/main.ts:661-714 | every entry of a rebuild belongs to one of the files and carries the id of one of the calendars |
| Plugin.RebuildNoEmpty | src/main.ts:656-717 | a rebuilt index has no empty day |
| Plugin.RebuildTagged | src/main.ts:656-717 | every item of a rebuilt index belongs to a markdown file of the vault and carries the id of an enabled calendar |
| Plugin.CacheChangeIdempotent | src/main.ts:447-505 | handling the same metadata change twice leaves the index as handling it once, and leaves no empty day |
| Plugin.CacheChangeItems | src/main.ts:447-499 | after the change, the file's items per day are exactly what the enabled calendars yield for it; every other file's items are unchanged |
| Plugin.CacheChangeAgreesWithRebuild | src/main.ts:447-499 | for a markdown file of a vault with distinct paths, the incremental result for that file equals what a full rebuild lists for it, on every day |
| Plugin.UpsertAllOwn | src/main.ts:447-505 | after metadata changes of documents with distinct paths, each document's items on every day are exactly its own re-scan, whatever came before |
| Plugin.UpsertAllAgreesWithRebuild | src/main.ts:447-505 | handling a metadata change of every markdown file, in any order, from an empty index gives the rebuild: every path holds the same items in the same order on every day |
| Plugin.RenameOutcome | src/main.ts:507-574 | a rename that does not refresh the view leaves the index unchanged, and after a rename to a new path no item of the old path remains |
| Plugin.CreateEntriesNotYaml | src/main.ts:590-622 | a created file yields only items of its own path from enabled calendars whose source is not front matter |
| Plugin.ApplyCalendars | src/main.ts:453-499 | the loop over the enabled calendars adds exactly their entries, in calendar order, and reports a change iff there is one |
| Plugin.CalendarPlugin.constructor | src/main.ts:10-13 | the index starts empty, the initial scan is not done, and nothing has been dispatched |
| Plugin.CalendarPlugin.CalendarForceUpdate | src/main.ts:437-443 | one more refresh event is dispatched |
| Plugin.CalendarPlugin.AddFilePathToState | src/main.ts:127-136 | the index gains a note item without calendar id on the given day, and keeps no empty day |
| Plugin.CalendarPlugin.RemoveFilePathFromState | src/main.ts:143-168 | the index becomes the path's removal; the flag is true iff an item of the path was present; no empty day remains |
| Plugin.CalendarPlugin.GetNotesWithDates | src/main.ts:656-717 | without changing the plugin, returns the rebuild of the vault over the enabled calendars |
| Plugin.CalendarPlugin.OnMetadataResolved | src/main.ts:34-41 | the first resolved event rebuilds the index, marks the scan done and refreshes the view once; later ones change nothing |
| Plugin.CalendarPlugin.OnLayoutReady | src/main.ts:43-48 | the index is replaced by a rebuild of the vault |
| Plugin.CalendarPlugin.HandleCacheChange | src/main.ts:447-505 | the file's items are replaced by its re-scan; the view is refreshed once; no empty day remains |
| Plugin.CalendarPlugin.HandleRename | src/main.ts:507-574 | the old path is dropped and a markdown file is re-scanned under its new path; the view is refreshed iff either step changed something |
| Plugin.CalendarPlugin.HandleDelete | src/main.ts:576-579 | the path is dropped; the view is refreshed iff an item was removed |
| Plugin.CalendarPlugin.HandleCreate | src/main.ts:581-631 | a markdown file is re-scanned without front-matter calendars; other files are ignored; the view is refreshed iff the scan found something |
| Settings.DefaultSettings | src/settings/settings.ts:22-48 | the defaults: two enabled calendars, "default" on the front-matter key created and "inline-timestamp" on the pattern ^-\s+(\d{12}):, named "Default Calendar" and "Inline Timestamps", with their formats; the view opens on start as a fixed ISO 8601 calendar without week numbers, files open in the current tab, sorted by name, with overflowing names hidden |
| Settings.CalendarId | src/settings/settings.ts:155 | a new id is "calendar-" followed by the time |
| Settings.CalendarIdInjective | src/settings/settings.ts:155 | calendars added at different instants get different ids |
| Settings.NewCalendar | src/settings/settings.ts:158-165 | a new calendar is an enabled front-matter calendar on the key date with format YYYY-MM-DD, and no pattern, whitelist, note path or colour |
| Settings.DeleteAt | src/settings/settings.ts:207 | the splice removes exactly the calendar at the index and shifts the later ones down by one |
| Settings.DeleteAtIds | src/settings/settings.ts:207 | after a delete the ids stay distinct and the deleted id is gone from the registry |
| Settings.AddKeepsDistinct | src/settings/settings.ts:154-168 | appending a calendar with a fresh id keeps the ids distinct |
| SettingsTab.WithEnabled | src/settings/settings.ts:192 | only the enabled flag of the calendar at the index changes |
| SettingsTab.DeletePurges | src/settings/settings.ts:206-213 | once the index is rebuilt after a delete, no item carries the deleted calendar's id |
| SettingsTab.DisablePurges | src/settings/settings.ts:191-197 | once the index is rebuilt after a calendar is switched off, no item carries its id |
| SettingsTab.CalendarPluginSettingsTab.constructor | src/settings/settings.ts:53-56 | the tab edits the given plugin |
| SettingsTab.CalendarPluginSettingsTab.AddCalendar | src/settings/settings.ts:153-168 | the registry gains a new calendar, with the id for the current time, at its end; distinct ids stay distinct when no calendar already has that id |
| SettingsTab.CalendarPluginSettingsTab.ToggleCalendar | src/settings/settings.ts:189-199 | the calendar's flag is set, the index becomes the rebuild over the new registry, and the view is refreshed twice; with distinct ids, switching a calendar off leaves no item of it in the index |
| SettingsTab.CalendarPluginSettingsTab.DeleteCalendar | src/settings/settings.ts:201-215 | once confirmed, the calendar leaves the registry, the index is rebuilt and the view refreshed; otherwise nothing changes; distinct ids stay distinct, and no item of the deleted calendar is left |
| SettingsTab.CalendarPluginSettingsTab.SetName | src/settings/settings.ts:224-227 | only that calendar's name changes |
| SettingsTab.CalendarPluginSettingsTab.SetSourceType | src/settings/settings.ts:241-244 | only that calendar's source type changes, to one of the three offered |
| SettingsTab.CalendarPluginSettingsTab.SetYamlKey | src/settings/settings.ts:254-257 | only that calendar's front-matter key changes, to the text as typed |
| SettingsTab.CalendarPluginSettingsTab.SetFormat | src/settings/settings.ts:267-270 | only that calendar's date format changes |
| SettingsTab.CalendarPluginSettingsTab.SetInlinePattern | src/settings/settings.ts:280-283 | only that calendar's inline pattern changes |
| SettingsTab.CalendarPluginSettingsTab.SetTestPattern | src/settings/settings.ts:291-294 | only that calendar's test line changes; the index is untouched |
| SettingsTab.CalendarPluginSettingsTab.SetColor | src/settings/settings.ts:465-471 | only that calendar's colour changes, and the view is refreshed once |

## Left out

- File reading, the metadata cache and dayjs are outside the model. They enter as the document's content, front matter and headings, and as `Env.parse`.
- A failing `vault.read` is not modelled; the model reads every file successfully. In the inline scan the read (src/main.ts:285) and the `RegExp` construction (src/main.ts:290) come before the line loop, so a failure caught at src/main.ts:362-364 would add nothing. The heading scan's read (src/main.ts:383) is outside any try: a failure there rejects the awaiting handler. The metadata-changed, rename and create handlers would then stop partway through their calendar loop, skip the remaining calendars and never refresh the view. `getNotesWithDates` would reject, so the rebuild at start-up and after a toggle or delete would never assign the index or mark the scan complete.
- Regular-expression matching is `Env.firstCapture`. Only the legacy pattern, fixed in the source (src/main.ts:198), is modelled character by character.
- A pattern that fails to compile yields no entry (`Env.compiles`). The model does not capture that the thrown error is logged.
- Asynchrony is left out. Each handler runs to completion before the next event. In the toggle and delete handlers, the rebuild promise is taken to resolve before anything else happens. Races between overlapping scans are not modelled.
- Plugin.CalendarPlugin.HandleRename, HandleDelete and HandleCreate: folders are modelled as documents whose extension is not md. The `instanceof TFile` test is not modelled separately.
- The front-matter loop over `Object.keys(frontmatter)` is modelled as a map lookup. Values arrive already passed through `String`.
- Plugin.CalendarPlugin.OnLayoutReady: does not model opening the view leaf (src/main.ts:45-47), because the view is out of scope.
- `saveSettings`, `loadSettings`, `display()` and the view refreshes the tab triggers by re-rendering are left out: they persist or render, and do not change the registry or the index.
- The general settings controls (src/settings/settings.ts:63-140) are left out: they do not affect the index. Their fields are part of `Settings.PluginSettings`.
- The test-pattern result display and its buttons (src/settings/settings.ts:296-458) are left out: they only render a preview.
- `reloadPlugin`, the commands, the context menu (removed in the source) and the view are left out: they are not part of the date index.
- Plugin.CalendarPlugin.RemoveFilePathFromState visits the days in an arbitrary order, where JavaScript would use key insertion order. The result does not depend on the order.
- Calendar ids are not guaranteed distinct: ids are not checked when settings load, and two calendars added in the same millisecond get the same id. SettingsTab.CalendarPluginSettingsTab.AddCalendar, ToggleCalendar and DeleteCalendar therefore state their id guarantees only for a registry whose ids are distinct. The same holds for SettingsTab.DeletePurges and DisablePurges.
- Strings are `seq<char>`, and a length is a number of characters. This matches JavaScript's UTF-16 `length` for characters of the Basic Multilingual Plane only.
- Strategies.ScanFileContentForTimestampPattern: models the legacy scan, although no handler calls it any more (the source marks the call as removed at src/main.ts:624 and 713).
- SettingsTab.CalendarPluginSettingsTab.SetSourceType: the drop-down never offers the note-heading source, so the model requires one of the other three.
