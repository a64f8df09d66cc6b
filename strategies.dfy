/**
 * The extraction strategies of src/main.ts: filename, front-matter key,
 * inline pattern, dated headings and the legacy fixed timestamp pattern.
 * Each is a function from one document and one calendar to the (date, item)
 * entries it yields, and the imperative scans are methods whose loops are
 * proved to add exactly those entries to the map they are given.
 */
module Strategies {
  import opened Types
  import opened Text
  import opened DateIndex

  /**
   * The foreign collaborators, passed in as functions.
   * - `parse(text, format)`: `dayjs(text, format)`, `Some` of its
   *   `format('YYYY-MM-DD')` when `isValid()`, else `None`.
   * - `compiles(pattern)`: `new RegExp(pattern)` does not throw.
   * - `firstCapture(pattern, line)`: `line.match(new RegExp(pattern))`; `Some`
   *   of `match[1]` when the line matches and the group took part, else
   *   `None` (an absent group gives `undefined`, which dayjs rejects).
   */
  datatype Env = Env(
    parse: (string, string) -> Option<string>,
    compiles: string -> bool,
    firstCapture: (string, string) -> Option<string>)

  /** A heading of the metadata cache with its 0-based line span. */
  datatype Heading = Heading(heading: string, startLine: nat, endLine: nat)

  /**
   * A markdown file as the strategies see it: the file, its content (what
   * `vault.read` returns) and its cached front matter (values already passed
   * through `String`) and headings.
   */
  datatype Document = Document(
    file: File,
    content: string,
    frontmatter: Option<map<string, string>>,
    headings: Option<seq<Heading>>)

  /** `fileContent.split('\n')`. */
  function Lines(doc: Document): seq<string> {
    Split(doc.content, '\n')
  }

  /* ---------------- filename and front matter ---------------- */

  /** The filename strategy parses `file.name`, extension included. */
  function FilenameEntries(doc: Document, cal: CalendarConfig, env: Env): seq<Entry> {
    match env.parse(doc.file.name, cal.format)
    case None => []
    case Some(d) => [Entry(d, FileToCalendarItem(doc.file, Some(cal.id)))]
  }

  /** The front-matter strategy parses the value stored under `yamlKey`. */
  function YamlEntries(doc: Document, cal: CalendarConfig, env: Env): seq<Entry> {
    if cal.yamlKey.Some? && doc.frontmatter.Some? && cal.yamlKey.value in doc.frontmatter.value then
      match env.parse(doc.frontmatter.value[cal.yamlKey.value], cal.format)
      case None => []
      case Some(d) => [Entry(d, FileToCalendarItem(doc.file, Some(cal.id)))]
    else []
  }

  /* ---------------- inline pattern ---------------- */

  function TrimAll(parts: seq<string>): (r: seq<string>)
    ensures |r| == |parts|
    ensures forall i :: 0 <= i < |r| ==> r[i] == Trim(parts[i])
  {
    if parts == [] then [] else [Trim(parts[0])] + TrimAll(parts[1..])
  }

  function NonEmpty(parts: seq<string>): (r: seq<string>)
    ensures forall s :: s in r <==> s in parts && s != ""
  {
    if parts == [] then [] else (if parts[0] == "" then [] else [parts[0]]) + NonEmpty(parts[1..])
  }

  /** `whitelist.split(',').map((s) => s.trim()).filter((s) => s !== '')`. */
  function WhitelistEntries(whitelist: string): seq<string> {
    NonEmpty(TrimAll(Split(whitelist, ',')))
  }

  lemma {:induction false} TrimAllMember(parts: seq<string>, s: string)
    ensures s in TrimAll(parts) <==> exists i :: 0 <= i < |parts| && Trim(parts[i]) == s
  {
    var t := TrimAll(parts);
    if s in t {
      var i :| 0 <= i < |t| && t[i] == s;
      assert Trim(parts[i]) == s;
    }
  }

  /** The paths a whitelist names: the non-empty trimmed comma-separated pieces. */
  lemma WhitelistEntriesSpec(whitelist: string, path: string)
    ensures path in WhitelistEntries(whitelist) <==>
            path != "" && exists i :: 0 <= i < |Split(whitelist, ',')| && Trim(Split(whitelist, ',')[i]) == path
  {
    var parts := Split(whitelist, ',');
    TrimAllMember(parts, path);
    assert path in WhitelistEntries(whitelist) <==> path in TrimAll(parts) && path != "";
    assert path in TrimAll(parts) <==> exists i :: 0 <= i < |parts| && Trim(parts[i]) == path;
    assert path in WhitelistEntries(whitelist) ==>
            path != "" && exists i :: 0 <= i < |Split(whitelist, ',')| && Trim(Split(whitelist, ',')[i]) == path;
    assert (path != "" && exists i :: 0 <= i < |Split(whitelist, ',')| && Trim(Split(whitelist, ',')[i]) == path)
           ==> path in WhitelistEntries(whitelist);
  }

  /**
   * The whitelist check: an absent or blank whitelist, or one with no
   * non-empty piece, admits every file; otherwise the path must be one of
   * the pieces.
   */
  predicate WhitelistAdmits(whitelist: Option<string>, path: string) {
    || whitelist.None?
    || Trim(whitelist.value) == ""
    || |WhitelistEntries(whitelist.value)| == 0
    || path in WhitelistEntries(whitelist.value)
  }

  /** The date a line yields under a pattern: its first capture, parsed. */
  function CapturedDate(env: Env, pattern: string, format: string, line: string): Option<string> {
    match env.firstCapture(pattern, line)
    case None => None
    case Some(c) => env.parse(c, format)
  }

  /** The entry of line `k` (0-based), if its capture parses. */
  function InlineLine(doc: Document, cal: CalendarConfig, env: Env, pattern: string, lines: seq<string>, k: nat): seq<Entry>
    requires k < |lines|
  {
    match CapturedDate(env, pattern, cal.format, lines[k])
    case None => []
    case Some(d) => [Entry(d, InlineTimestampToCalendarItem(doc.file, Truncate(lines[k]), k + 1, Some(cal.id)))]
  }

  /** The entries of the first `n` lines. */
  function InlineUpTo(doc: Document, cal: CalendarConfig, env: Env, pattern: string, lines: seq<string>, n: nat): seq<Entry>
    requires n <= |lines|
  {
    if n == 0 then []
    else InlineUpTo(doc, cal, env, pattern, lines, n - 1) + InlineLine(doc, cal, env, pattern, lines, n - 1)
  }

  /** What `scanFileForInlinePattern` adds for one file and one calendar. */
  function InlineEntries(doc: Document, cal: CalendarConfig, env: Env): seq<Entry> {
    if !Truthy(cal.inlinePattern) then []
    else if !WhitelistAdmits(cal.inlineWhitelist, doc.file.path) then []
    else if !env.compiles(cal.inlinePattern.value) then []
    else InlineUpTo(doc, cal, env, cal.inlinePattern.value, Lines(doc), |Lines(doc)|)
  }

  /** The entry for line `k` is the untrimmed, truncated line with line number `k + 1`. */
  predicate IsInlineEntryOf(doc: Document, cal: CalendarConfig, env: Env, pattern: string, lines: seq<string>, k: int, e: Entry)
    requires 0 <= k < |lines|
  {
    && CapturedDate(env, pattern, cal.format, lines[k]) == Some(e.date)
    && e.item == InlineTimestampToCalendarItem(doc.file, Truncate(lines[k]), k + 1, Some(cal.id))
  }

  /** The entries of the first `n` lines: one per line whose capture parses. */
  lemma InlineUpToSpec(doc: Document, cal: CalendarConfig, env: Env, pattern: string, lines: seq<string>, n: nat, e: Entry)
    requires n <= |lines|
    ensures e in InlineUpTo(doc, cal, env, pattern, lines, n) <==>
              exists k :: 0 <= k < n && IsInlineEntryOf(doc, cal, env, pattern, lines, k, e)
  {
    if e in InlineUpTo(doc, cal, env, pattern, lines, n) {
      var k := InlineUpToWitness(doc, cal, env, pattern, lines, n, e);
    }
    if exists k :: 0 <= k < n && IsInlineEntryOf(doc, cal, env, pattern, lines, k, e) {
      var k :| 0 <= k < n && IsInlineEntryOf(doc, cal, env, pattern, lines, k, e);
      InlineUpToHas(doc, cal, env, pattern, lines, n, k, e);
    }
  }

  /** Every entry of the first `n` lines is the entry of one of them. */
  lemma {:induction false} InlineUpToWitness(doc: Document, cal: CalendarConfig, env: Env, pattern: string, lines: seq<string>, n: nat, e: Entry)
    returns (k: nat)
    requires n <= |lines| && e in InlineUpTo(doc, cal, env, pattern, lines, n)
    ensures k < n && IsInlineEntryOf(doc, cal, env, pattern, lines, k, e)
  {
    InlineUpToLast(doc, cal, env, pattern, lines, n, e);
    if e in InlineUpTo(doc, cal, env, pattern, lines, n - 1) {
      k := InlineUpToWitness(doc, cal, env, pattern, lines, n - 1, e);
    } else {
      k := n - 1;
    }
  }

  /** The entry of each of the first `n` lines whose capture parses is among their entries. */
  lemma {:induction false} InlineUpToHas(doc: Document, cal: CalendarConfig, env: Env, pattern: string, lines: seq<string>, n: nat, k: nat, e: Entry)
    requires k < n <= |lines| && IsInlineEntryOf(doc, cal, env, pattern, lines, k, e)
    ensures e in InlineUpTo(doc, cal, env, pattern, lines, n)
  {
    InlineUpToLast(doc, cal, env, pattern, lines, n, e);
    if k < n - 1 {
      InlineUpToHas(doc, cal, env, pattern, lines, n - 1, k, e);
    }
  }

  /** An entry of the first `n` lines is one of the first `n - 1` lines' or line `n - 1`'s. */
  lemma InlineUpToLast(doc: Document, cal: CalendarConfig, env: Env, pattern: string, lines: seq<string>, n: nat, e: Entry)
    requires 0 < n <= |lines|
    ensures e in InlineUpTo(doc, cal, env, pattern, lines, n) <==>
              e in InlineUpTo(doc, cal, env, pattern, lines, n - 1) || IsInlineEntryOf(doc, cal, env, pattern, lines, n - 1, e)
  {
    var prev := InlineUpTo(doc, cal, env, pattern, lines, n - 1);
    var last := InlineLine(doc, cal, env, pattern, lines, n - 1);
    assert InlineUpTo(doc, cal, env, pattern, lines, n) == prev + last;
    assert e in last <==> IsInlineEntryOf(doc, cal, env, pattern, lines, n - 1, e);
  }

  /**
   * The entries come in line order, at most one per line: their line
   * numbers, all within the first `n` lines counted from 1, strictly increase.
   */
  lemma {:induction false} InlineUpToOrdered(doc: Document, cal: CalendarConfig, env: Env, pattern: string, lines: seq<string>, n: nat)
    requires n <= |lines|
    ensures var es := InlineUpTo(doc, cal, env, pattern, lines, n);
            forall i :: 0 <= i < |es| ==> es[i].item.InlineTimestamp? && 1 <= es[i].item.lineNumber <= n
    ensures var es := InlineUpTo(doc, cal, env, pattern, lines, n);
            forall i, j :: 0 <= i < j < |es| ==> es[i].item.lineNumber < es[j].item.lineNumber
  {
    if n > 0 {
      InlineUpToOrdered(doc, cal, env, pattern, lines, n - 1);
      InlineStep(doc, cal, env, pattern, lines, n - 1);
      var prev := InlineUpTo(doc, cal, env, pattern, lines, n - 1);
      var all := InlineUpTo(doc, cal, env, pattern, lines, n);
      var captured := CapturedDate(env, pattern, cal.format, lines[n - 1]);
      if captured.Some? {
        var e := Entry(captured.value, InlineTimestampToCalendarItem(doc.file, Truncate(lines[n - 1]), n, Some(cal.id)));
        assert all == prev + [e];
        forall i | 0 <= i < |all|
          ensures all[i] == if i < |prev| then prev[i] else e
        {
        }
      }
    }
  }

  /**
   * The inline strategy yields nothing without a pattern, for a file its
   * whitelist excludes or when the pattern does not compile; otherwise every
   * line whose first capture parses yields one inline-timestamp item whose
   * display text is the truncated, untrimmed line.
   */
  lemma InlineEntriesSpec(doc: Document, cal: CalendarConfig, env: Env, e: Entry)
    ensures e in InlineEntries(doc, cal, env) <==>
              && Truthy(cal.inlinePattern)
              && WhitelistAdmits(cal.inlineWhitelist, doc.file.path)
              && env.compiles(cal.inlinePattern.value)
              && exists k :: 0 <= k < |Lines(doc)| && IsInlineEntryOf(doc, cal, env, cal.inlinePattern.value, Lines(doc), k, e)
  {
    if Truthy(cal.inlinePattern) {
      InlineUpToSpec(doc, cal, env, cal.inlinePattern.value, Lines(doc), |Lines(doc)|, e);
    }
  }

  /** One step of the inline scan: line `i` contributes its entry when its capture parses. */
  lemma InlineStep(doc: Document, cal: CalendarConfig, env: Env, pattern: string, lines: seq<string>, i: nat)
    requires i < |lines|
    ensures CapturedDate(env, pattern, cal.format, lines[i]).Some? ==>
              InlineUpTo(doc, cal, env, pattern, lines, i + 1)
              == InlineUpTo(doc, cal, env, pattern, lines, i) + [Entry(CapturedDate(env, pattern, cal.format, lines[i]).value,
                   InlineTimestampToCalendarItem(doc.file, Truncate(lines[i]), i + 1, Some(cal.id)))]
    ensures CapturedDate(env, pattern, cal.format, lines[i]).None? ==>
              InlineUpTo(doc, cal, env, pattern, lines, i + 1) == InlineUpTo(doc, cal, env, pattern, lines, i)
  {
    assert InlineUpTo(doc, cal, env, pattern, lines, i + 1)
        == InlineUpTo(doc, cal, env, pattern, lines, i) + InlineLine(doc, cal, env, pattern, lines, i);
  }

  /**
   * `scanFileForInlinePattern` (src/main.ts:263-367): the calendar's pattern
   * is applied to every line of the file and the parsed captures are
   * appended to `calendarDays` (the map passed in, or the plugin state).
   */
  method ScanFileForInlinePattern(doc: Document, calendar: CalendarConfig, env: Env, calendarDays: CalendarDaysMap)
    returns (r: CalendarDaysMap, changeFlag: bool)
    ensures r == AddAll(calendarDays, InlineEntries(doc, calendar, env))
    ensures changeFlag == (InlineEntries(doc, calendar, env) != [])
  {
    r, changeFlag := calendarDays, false;
    if !Truthy(calendar.inlinePattern) {
      return;
    }
    if calendar.inlineWhitelist.Some? && Trim(calendar.inlineWhitelist.value) != "" {
      var allowed := WhitelistEntries(calendar.inlineWhitelist.value);
      if |allowed| > 0 && doc.file.path !in allowed {
        return;
      }
    }
    var lines := Split(doc.content, '\n');
    var pattern := calendar.inlinePattern.value;
    if !env.compiles(pattern) {
      // `new RegExp` throws; the catch block leaves the map as it is
      return;
    }
    r, changeFlag := MatchLines(doc, calendar, env, pattern, lines, calendarDays);
  }

  /** The line loop of `scanFileForInlinePattern` (src/main.ts:298-359), for a pattern that compiled. */
  method MatchLines(doc: Document, calendar: CalendarConfig, env: Env, pattern: string, lines: seq<string>, calendarDays: CalendarDaysMap)
    returns (r: CalendarDaysMap, changeFlag: bool)
    ensures r == AddAll(calendarDays, InlineUpTo(doc, calendar, env, pattern, lines, |lines|))
    ensures changeFlag == (InlineUpTo(doc, calendar, env, pattern, lines, |lines|) != [])
  {
    r, changeFlag := calendarDays, false;
    ghost var es: seq<Entry> := [];
    for i := 0 to |lines|
      invariant es == InlineUpTo(doc, calendar, env, pattern, lines, i)
      invariant r == AddAll(calendarDays, es)
      invariant changeFlag == (es != [])
    {
      ghost var step := InlineLine(doc, calendar, env, pattern, lines, i);
      assert InlineUpTo(doc, calendar, env, pattern, lines, i + 1) == es + step;
      var line := lines[i];
      var capture := env.firstCapture(pattern, line);
      if capture.Some? {
        var capturedDate := capture.value;
        var displayText := Truncate(line);
        var parsedDate := env.parse(capturedDate, calendar.format);
        if parsedDate.Some? {
          var item := InlineTimestampToCalendarItem(doc.file, displayText, i + 1, Some(calendar.id));
          assert step == [Entry(parsedDate.value, item)];
          AddAllSnoc(calendarDays, es, Entry(parsedDate.value, item));
          r := Add(r, parsedDate.value, item);
          changeFlag := true;
          es := es + [Entry(parsedDate.value, item)];
        } else {
          assert step == [];
          assert es + step == es;
        }
      } else {
        assert step == [];
        assert es + step == es;
      }
    }
  }

  /* ---------------- dated headings ---------------- */

  /** The last line of heading `i`'s section: the line before the next heading, or the last line. */
  function EndLine(hs: seq<Heading>, i: nat, lines: seq<string>): int
    requires i < |hs|
  {
    if i + 1 < |hs| then hs[i + 1].startLine - 1 else |lines| - 1
  }

  /** `lines[n]?.trim()` is a non-empty text that does not start with `#`. */
  predicate IsSectionText(lines: seq<string>, n: int) {
    0 <= n < |lines| && Trim(lines[n]) != "" && Trim(lines[n])[0] != '#'
  }

  /** The entry of line `n` under a heading dated `d`, if the line has text. */
  function SectionLine(file: File, id: string, lines: seq<string>, n: int, d: string): seq<Entry> {
    if IsSectionText(lines, n) then
      [Entry(d, HeadingToCalendarItem(file, Truncate(Trim(lines[n])), n + 1, Some(id)))]
    else []
  }

  /** The entries of lines `from` to `to - 1`. */
  function SectionUpTo(file: File, id: string, lines: seq<string>, from: int, to: int, d: string): seq<Entry>
    decreases to - from
  {
    if to <= from then []
    else SectionUpTo(file, id, lines, from, to - 1, d) + SectionLine(file, id, lines, to - 1, d)
  }

  /** The entries under heading `i`, when its text parses. */
  function HeadingSection(doc: Document, cal: CalendarConfig, env: Env, lines: seq<string>, hs: seq<Heading>, i: nat): seq<Entry>
    requires i < |hs|
  {
    match env.parse(hs[i].heading, cal.format)
    case None => []
    case Some(d) => SectionUpTo(doc.file, cal.id, lines, hs[i].endLine + 1, EndLine(hs, i, lines) + 1, d)
  }

  /** The entries under the first `n` headings. */
  function HeadingsUpTo(doc: Document, cal: CalendarConfig, env: Env, lines: seq<string>, hs: seq<Heading>, n: nat): seq<Entry>
    requires n <= |hs|
  {
    if n == 0 then []
    else HeadingsUpTo(doc, cal, env, lines, hs, n - 1) + HeadingSection(doc, cal, env, lines, hs, n - 1)
  }

  /** What `scanFileForDateHeadings` adds for one file and one calendar. */
  function HeadingEntries(doc: Document, cal: CalendarConfig, env: Env): seq<Entry> {
    if !Truthy(cal.notePath) || doc.file.path != cal.notePath.value then []
    else
      match doc.headings
      case None => []
      case Some(hs) => HeadingsUpTo(doc, cal, env, Lines(doc), hs, |hs|)
  }

  /** Line `n`, a text line, dated `d`. */
  predicate IsSectionEntryOf(file: File, id: string, lines: seq<string>, n: int, d: string, e: Entry) {
    && e.date == d
    && IsSectionText(lines, n)
    && e.item == HeadingToCalendarItem(file, Truncate(Trim(lines[n])), n + 1, Some(id))
  }

  lemma {:induction false} SectionUpToSpec(file: File, id: string, lines: seq<string>, from: int, to: int, d: string, e: Entry)
    decreases to - from
    ensures e in SectionUpTo(file, id, lines, from, to, d) <==>
              exists n :: from <= n < to && IsSectionEntryOf(file, id, lines, n, d, e)
  {
    if from < to {
      SectionUpToSpec(file, id, lines, from, to - 1, d, e);
      var prev := SectionUpTo(file, id, lines, from, to - 1, d);
      var last := SectionLine(file, id, lines, to - 1, d);
      assert SectionUpTo(file, id, lines, from, to, d) == prev + last;
      if e in last {
        assert IsSectionEntryOf(file, id, lines, to - 1, d, e);
      }
      if exists n :: from <= n < to && IsSectionEntryOf(file, id, lines, n, d, e) {
        var n :| from <= n < to && IsSectionEntryOf(file, id, lines, n, d, e);
        if n == to - 1 {
          assert e == Entry(e.date, e.item);
          assert last == [Entry(d, HeadingToCalendarItem(file, Truncate(Trim(lines[n])), n + 1, Some(id)))];
        }
      }
    }
  }

  /** Line `n` lies in the section of heading `i`, which dates it. */
  predicate IsHeadingEntryOf(doc: Document, cal: CalendarConfig, env: Env, lines: seq<string>, hs: seq<Heading>, i: int, n: int, e: Entry)
    requires 0 <= i < |hs|
  {
    && env.parse(hs[i].heading, cal.format) == Some(e.date)
    && hs[i].endLine + 1 <= n <= EndLine(hs, i, lines)
    && IsSectionEntryOf(doc.file, cal.id, lines, n, e.date, e)
  }

  /** The entries under heading `i`: its section's text lines, when the heading parses. */
  lemma HeadingSectionSpec(doc: Document, cal: CalendarConfig, env: Env, lines: seq<string>, hs: seq<Heading>, i: nat, e: Entry)
    requires i < |hs|
    ensures e in HeadingSection(doc, cal, env, lines, hs, i) <==>
              exists k :: IsHeadingEntryOf(doc, cal, env, lines, hs, i, k, e)
  {
    var p := env.parse(hs[i].heading, cal.format);
    if p.None? {
      assert HeadingSection(doc, cal, env, lines, hs, i) == [];
    } else {
      var from, to := hs[i].endLine + 1, EndLine(hs, i, lines) + 1;
      assert HeadingSection(doc, cal, env, lines, hs, i) == SectionUpTo(doc.file, cal.id, lines, from, to, p.value);
      SectionUpToSpec(doc.file, cal.id, lines, from, to, p.value, e);
      if e in HeadingSection(doc, cal, env, lines, hs, i) {
        var k :| from <= k < to && IsSectionEntryOf(doc.file, cal.id, lines, k, p.value, e);
        assert IsHeadingEntryOf(doc, cal, env, lines, hs, i, k, e);
      }
    }
  }

  /** The entries under the first `n` headings are those under one of them. */
  lemma {:induction false} HeadingsUpToSpec(doc: Document, cal: CalendarConfig, env: Env, lines: seq<string>, hs: seq<Heading>, n: nat, e: Entry)
    requires n <= |hs|
    ensures e in HeadingsUpTo(doc, cal, env, lines, hs, n) <==>
              exists i :: 0 <= i < n && e in HeadingSection(doc, cal, env, lines, hs, i)
  {
    if n > 0 {
      HeadingsUpToSpec(doc, cal, env, lines, hs, n - 1, e);
      var prev := HeadingsUpTo(doc, cal, env, lines, hs, n - 1);
      var last := HeadingSection(doc, cal, env, lines, hs, n - 1);
      assert HeadingsUpTo(doc, cal, env, lines, hs, n) == prev + last;
      if e in prev {
        var i :| 0 <= i < n - 1 && e in HeadingSection(doc, cal, env, lines, hs, i);
        assert 0 <= i < n && e in HeadingSection(doc, cal, env, lines, hs, i);
      }
      if exists i :: 0 <= i < n && e in HeadingSection(doc, cal, env, lines, hs, i) {
        var i :| 0 <= i < n && e in HeadingSection(doc, cal, env, lines, hs, i);
        if i < n - 1 {
          assert e in prev;
        }
      }
    }
  }

  /**
   * The heading strategy yields nothing unless the file is the calendar's
   * note and has headings; then each non-blank line that is not itself a
   * heading, between a heading that parses to `d` and the next heading,
   * yields one note-heading item under `d`, with the trimmed, truncated line
   * as its text and its 1-based line number.
   */
  lemma HeadingEntriesSpec(doc: Document, cal: CalendarConfig, env: Env, e: Entry)
    ensures e in HeadingEntries(doc, cal, env) <==>
              && Truthy(cal.notePath) && doc.file.path == cal.notePath.value
              && doc.headings.Some?
              && exists i, k :: 0 <= i < |doc.headings.value|
                                && IsHeadingEntryOf(doc, cal, env, Lines(doc), doc.headings.value, i, k, e)
  {
    if Truthy(cal.notePath) && doc.file.path == cal.notePath.value && doc.headings.Some? {
      var hs, lines := doc.headings.value, Lines(doc);
      HeadingsUpToSpec(doc, cal, env, lines, hs, |hs|, e);
      if e in HeadingEntries(doc, cal, env) {
        var i :| 0 <= i < |hs| && e in HeadingSection(doc, cal, env, lines, hs, i);
        HeadingSectionSpec(doc, cal, env, lines, hs, i, e);
      }
      if exists i, k :: 0 <= i < |hs| && IsHeadingEntryOf(doc, cal, env, lines, hs, i, k, e) {
        var i, k :| 0 <= i < |hs| && IsHeadingEntryOf(doc, cal, env, lines, hs, i, k, e);
        HeadingSectionSpec(doc, cal, env, lines, hs, i, e);
      }
    }
  }

  /** One step of a section: line `n` contributes its entry when it has text. */
  lemma SectionStep(file: File, id: string, lines: seq<string>, from: int, n: int, d: string)
    requires from <= n
    ensures IsSectionText(lines, n) ==>
              SectionUpTo(file, id, lines, from, n + 1, d)
              == SectionUpTo(file, id, lines, from, n, d) + [Entry(d, HeadingToCalendarItem(file, Truncate(Trim(lines[n])), n + 1, Some(id)))]
    ensures !IsSectionText(lines, n) ==> SectionUpTo(file, id, lines, from, n + 1, d) == SectionUpTo(file, id, lines, from, n, d)
  {
    assert SectionUpTo(file, id, lines, from, n + 1, d) == SectionUpTo(file, id, lines, from, n, d) + SectionLine(file, id, lines, n, d);
  }

  /** One step over the headings: a heading that parses contributes its section, from the line after it to `EndLine`. */
  lemma HeadingStep(doc: Document, cal: CalendarConfig, env: Env, lines: seq<string>, hs: seq<Heading>, i: nat, startLine: int, endLine: int, d: string)
    requires i < |hs| && env.parse(hs[i].heading, cal.format) == Some(d)
    requires startLine == hs[i].endLine + 1 && endLine == EndLine(hs, i, lines)
    ensures HeadingsUpTo(doc, cal, env, lines, hs, i + 1)
            == HeadingsUpTo(doc, cal, env, lines, hs, i) + SectionUpTo(doc.file, cal.id, lines, startLine, endLine + 1, d)
  {
    assert HeadingSection(doc, cal, env, lines, hs, i) == SectionUpTo(doc.file, cal.id, lines, startLine, endLine + 1, d);
    assert HeadingsUpTo(doc, cal, env, lines, hs, i + 1)
        == HeadingsUpTo(doc, cal, env, lines, hs, i) + HeadingSection(doc, cal, env, lines, hs, i);
  }

  /** A heading that does not parse contributes nothing. */
  lemma HeadingSkip(doc: Document, cal: CalendarConfig, env: Env, lines: seq<string>, hs: seq<Heading>, i: nat)
    requires i < |hs| && env.parse(hs[i].heading, cal.format).None?
    ensures HeadingsUpTo(doc, cal, env, lines, hs, i + 1) == HeadingsUpTo(doc, cal, env, lines, hs, i)
  {
    assert HeadingsUpTo(doc, cal, env, lines, hs, i + 1)
        == HeadingsUpTo(doc, cal, env, lines, hs, i) + HeadingSection(doc, cal, env, lines, hs, i);
  }

  /**
   * `scanFileForDateHeadings` (src/main.ts:369-432): for each heading that
   * parses, the text lines of its section are appended under its date.
   */
  method ScanFileForDateHeadings(doc: Document, calendar: CalendarConfig, env: Env, calendarDays: CalendarDaysMap)
    returns (r: CalendarDaysMap, changeFlag: bool)
    ensures r == AddAll(calendarDays, HeadingEntries(doc, calendar, env))
    ensures changeFlag == (HeadingEntries(doc, calendar, env) != [])
  {
    r, changeFlag := calendarDays, false;
    if !Truthy(calendar.notePath) || doc.file.path != calendar.notePath.value {
      return;
    }
    if doc.headings.None? {
      return;
    }
    var hs := doc.headings.value;
    var lines := Split(doc.content, '\n');
    ghost var es: seq<Entry> := [];
    for i := 0 to |hs|
      invariant es == HeadingsUpTo(doc, calendar, env, lines, hs, i)
      invariant r == AddAll(calendarDays, es)
      invariant changeFlag == (es != [])
    {
      var heading := hs[i];
      var parsedDate := env.parse(heading.heading, calendar.format);
      if parsedDate.Some? {
        var dateString := parsedDate.value;
        var startLine: int := heading.endLine + 1;
        var endLine: int := if i + 1 < |hs| then hs[i + 1].startLine - 1 else |lines| - 1;
        HeadingStep(doc, calendar, env, lines, hs, i, startLine, endLine, dateString);
        ghost var section := SectionUpTo(doc.file, calendar.id, lines, startLine, endLine + 1, dateString);
        var sectionChanged;
        r, sectionChanged := ScanSection(doc.file, calendar.id, lines, startLine, endLine, dateString, r);
        AddAllConcat(calendarDays, es, section);
        changeFlag := changeFlag || sectionChanged;
        assert (es + section != []) == (es != [] || section != []);
        es := es + section;
      } else {
        HeadingSkip(doc, calendar, env, lines, hs, i);
      }
    }
  }

  /**
   * The line loop of `scanFileForDateHeadings` (src/main.ts:400-426): the
   * text lines from `startLine` to `endLine` go under `dateString`.
   */
  method ScanSection(file: File, id: string, lines: seq<string>, startLine: int, endLine: int, dateString: string, calendarDays: CalendarDaysMap)
    returns (r: CalendarDaysMap, changeFlag: bool)
    ensures r == AddAll(calendarDays, SectionUpTo(file, id, lines, startLine, endLine + 1, dateString))
    ensures changeFlag == (SectionUpTo(file, id, lines, startLine, endLine + 1, dateString) != [])
  {
    r, changeFlag := calendarDays, false;
    var lineNr := startLine;
    ghost var es: seq<Entry> := [];
    while lineNr <= endLine
      invariant startLine <= lineNr && (lineNr <= endLine + 1 || lineNr == startLine)
      invariant es == SectionUpTo(file, id, lines, startLine, lineNr, dateString)
      invariant r == AddAll(calendarDays, es)
      invariant changeFlag == (es != [])
      decreases endLine - lineNr
    {
      var text := if 0 <= lineNr < |lines| then Some(Trim(lines[lineNr])) else None;
      SectionStep(file, id, lines, startLine, lineNr, dateString);
      if text.Some? && text.value != "" && text.value[0] != '#' {
        var display := Truncate(text.value);
        var item := HeadingToCalendarItem(file, display, lineNr + 1, Some(id));
        AddAllSnoc(calendarDays, es, Entry(dateString, item));
        r := Add(r, dateString, item);
        changeFlag := true;
        es := es + [Entry(dateString, item)];
      }
      lineNr := lineNr + 1;
    }
    assert SectionUpTo(file, id, lines, startLine, lineNr, dateString)
        == SectionUpTo(file, id, lines, startLine, endLine + 1, dateString);
  }

  /* ---------------- legacy fixed pattern ---------------- */

  predicate AllDigits(s: string) {
    forall i :: 0 <= i < |s| ==> IsDigit(s[i])
  }

  /**
   * `/^-\s+(\d{12}):/` matches `line` with `w` whitespace characters after
   * the dash: a dash, `w >= 1` whitespace characters, twelve digits, a colon.
   */
  predicate LegacyMatchesAt(line: string, w: nat) {
    && w >= 1 && |line| >= 14 + w
    && line[0] == '-'
    && AllWhitespace(line[1..1 + w])
    && AllDigits(line[1 + w..13 + w])
    && line[13 + w] == ':'
  }

  /** The capture of `/^-\s+(\d{12}):/`: the twelve digits after the dash and the whitespace. */
  function LegacyCapture(line: string): Option<string> {
    if |line| >= 1 && line[0] == '-' then
      var w := SkipWhitespace(line, 1) - 1;
      if LegacyMatchesAt(line, w) then Some(line[1 + w..13 + w]) else None
    else None
  }

  /**
   * The concrete matcher agrees with the regular expression: it captures
   * exactly when some whitespace run makes the pattern match, and then
   * captures the digits after that run. Backtracking of `\s+` cannot find
   * another match, since a digit is not whitespace.
   */
  lemma LegacyCaptureSpec(line: string, c: string)
    ensures LegacyCapture(line) == Some(c) <==> exists w :: LegacyMatchesAt(line, w) && c == line[1 + w..13 + w]
  {
    if exists w :: LegacyMatchesAt(line, w) && c == line[1 + w..13 + w] {
      var w: nat :| LegacyMatchesAt(line, w) && c == line[1 + w..13 + w];
      LegacyRunEnds(line, w);
    }
    if LegacyCapture(line) == Some(c) {
      var w := SkipWhitespace(line, 1) - 1;
      assert LegacyMatchesAt(line, w) && c == line[1 + w..13 + w];
    }
  }

  /** A matching whitespace run is the whole run after the dash. */
  lemma LegacyRunEnds(line: string, w: nat)
    requires LegacyMatchesAt(line, w)
    ensures SkipWhitespace(line, 1) == 1 + w
  {
    forall j | 1 <= j < 1 + w ensures IsWhitespace(line[j]) {
      assert line[1..1 + w][j - 1] == line[j];
    }
    assert IsDigit(line[1 + w]) by {
      assert line[1 + w..13 + w][0] == line[1 + w];
    }
    SkipWhitespaceExact(line, 1, 1 + w);
  }

  /** `${year}-${month}-${day}` from the first eight digits. */
  function LegacyDate(timestamp: string): string
    requires |timestamp| >= 8
  {
    timestamp[0..4] + "-" + timestamp[4..6] + "-" + timestamp[6..8]
  }

  /** Four digits, a dash, two digits, a dash, two digits. */
  predicate IsIsoShaped(d: string) {
    |d| == 10 && d[4] == '-' && d[7] == '-'
    && forall i :: 0 <= i < 10 && i != 4 && i != 7 ==> IsDigit(d[i])
  }

  function LegacyLine(doc: Document, lines: seq<string>, k: nat): seq<Entry>
    requires k < |lines|
  {
    match LegacyCapture(lines[k])
    case None => []
    case Some(ts) => [Entry(LegacyDate(ts), InlineTimestampToCalendarItem(doc.file, Truncate(lines[k]), k + 1, None))]
  }

  function LegacyUpTo(doc: Document, lines: seq<string>, n: nat): seq<Entry>
    requires n <= |lines|
  {
    if n == 0 then [] else LegacyUpTo(doc, lines, n - 1) + LegacyLine(doc, lines, n - 1)
  }

  /** What `scanFileContentForTimestampPattern` adds for one file. */
  function LegacyEntries(doc: Document): seq<Entry> {
    LegacyUpTo(doc, Lines(doc), |Lines(doc)|)
  }

  /** A capture is twelve digits. */
  lemma LegacyCaptureDigits(line: string)
    requires LegacyCapture(line).Some?
    ensures |LegacyCapture(line).value| == 12 && AllDigits(LegacyCapture(line).value)
  {
    var w := SkipWhitespace(line, 1) - 1;
    assert LegacyCapture(line).value == line[1 + w..13 + w];
  }

  /** Eight digits or more make an ISO-shaped date. */
  lemma LegacyDateShape(ts: string)
    requires |ts| >= 8 && AllDigits(ts)
    ensures IsIsoShaped(LegacyDate(ts))
  {
    var d := LegacyDate(ts);
    assert forall i :: 0 <= i < 4 ==> d[i] == ts[i];
    assert forall i :: 5 <= i < 7 ==> d[i] == ts[i - 1];
    assert forall i :: 8 <= i < 10 ==> d[i] == ts[i - 2];
  }

  /**
   * Every date the legacy scan builds is ISO shaped, and its items carry no
   * calendar id; it builds the date from the digits without checking that
   * they form a real day.
   */
  lemma {:induction false} LegacyUpToShape(doc: Document, lines: seq<string>, n: nat)
    requires n <= |lines|
    ensures forall i :: 0 <= i < |LegacyUpTo(doc, lines, n)| ==>
              IsIsoShaped(LegacyUpTo(doc, lines, n)[i].date)
              && LegacyUpTo(doc, lines, n)[i].item.path == doc.file.path
              && LegacyUpTo(doc, lines, n)[i].item.calendarId == None
  {
    if n > 0 {
      LegacyUpToShape(doc, lines, n - 1);
      var k := n - 1;
      var prev := LegacyUpTo(doc, lines, k);
      var all := LegacyUpTo(doc, lines, n);
      assert all == prev + LegacyLine(doc, lines, k);
      if LegacyCapture(lines[k]).Some? {
        LegacyCaptureDigits(lines[k]);
        LegacyDateShape(LegacyCapture(lines[k]).value);
        forall i | 0 <= i < |all|
          ensures all[i] == if i < |prev| then prev[i] else LegacyLine(doc, lines, k)[0]
        {
        }
      } else {
        assert all == prev;
      }
    }
  }

  /**
   * The entry for line `k` (0-based): the date built from its capture, and
   * an inline-timestamp item for the truncated, untrimmed line with line
   * number `k + 1` and no calendar id.
   */
  predicate IsLegacyEntryOf(doc: Document, lines: seq<string>, k: int, e: Entry)
    requires 0 <= k < |lines|
  {
    match LegacyCapture(lines[k])
    case None => false
    case Some(ts) => e == Entry(LegacyDate(ts), InlineTimestampToCalendarItem(doc.file, Truncate(lines[k]), k + 1, None))
  }

  /** The legacy entries of the first `n` lines: one per line the fixed pattern matches. */
  lemma LegacyUpToSpec(doc: Document, lines: seq<string>, n: nat, e: Entry)
    requires n <= |lines|
    ensures e in LegacyUpTo(doc, lines, n) <==> exists k :: 0 <= k < n && IsLegacyEntryOf(doc, lines, k, e)
  {
    if e in LegacyUpTo(doc, lines, n) {
      var k := LegacyUpToWitness(doc, lines, n, e);
    }
    if exists k :: 0 <= k < n && IsLegacyEntryOf(doc, lines, k, e) {
      var k :| 0 <= k < n && IsLegacyEntryOf(doc, lines, k, e);
      LegacyUpToHas(doc, lines, n, k, e);
    }
  }

  /** Every legacy entry of the first `n` lines is the entry of one of them. */
  lemma {:induction false} LegacyUpToWitness(doc: Document, lines: seq<string>, n: nat, e: Entry) returns (k: nat)
    requires n <= |lines| && e in LegacyUpTo(doc, lines, n)
    ensures k < n && IsLegacyEntryOf(doc, lines, k, e)
  {
    LegacyUpToLast(doc, lines, n, e);
    if e in LegacyUpTo(doc, lines, n - 1) {
      k := LegacyUpToWitness(doc, lines, n - 1, e);
    } else {
      k := n - 1;
    }
  }

  /** The entry of each matching line among the first `n` is among their legacy entries. */
  lemma {:induction false} LegacyUpToHas(doc: Document, lines: seq<string>, n: nat, k: nat, e: Entry)
    requires k < n <= |lines| && IsLegacyEntryOf(doc, lines, k, e)
    ensures e in LegacyUpTo(doc, lines, n)
  {
    LegacyUpToLast(doc, lines, n, e);
    if k < n - 1 {
      LegacyUpToHas(doc, lines, n - 1, k, e);
    }
  }

  /** A legacy entry of the first `n` lines is one of the first `n - 1` lines' or line `n - 1`'s. */
  lemma LegacyUpToLast(doc: Document, lines: seq<string>, n: nat, e: Entry)
    requires 0 < n <= |lines|
    ensures e in LegacyUpTo(doc, lines, n) <==> e in LegacyUpTo(doc, lines, n - 1) || IsLegacyEntryOf(doc, lines, n - 1, e)
  {
    var prev := LegacyUpTo(doc, lines, n - 1);
    var last := LegacyLine(doc, lines, n - 1);
    assert LegacyUpTo(doc, lines, n) == prev + last;
    assert e in last <==> IsLegacyEntryOf(doc, lines, n - 1, e);
  }

  /** The entries the legacy scan adds for a file are exactly those of its matching lines. */
  lemma LegacyEntriesSpec(doc: Document, e: Entry)
    ensures e in LegacyEntries(doc) <==> exists k :: 0 <= k < |Lines(doc)| && IsLegacyEntryOf(doc, Lines(doc), k, e)
  {
    LegacyUpToSpec(doc, Lines(doc), |Lines(doc)|, e);
  }

  /** A dash, one space, twelve digits and a colon: the line captures exactly those digits, whatever follows. */
  lemma LegacyCaptureOf(ts: string, rest: string)
    requires |ts| == 12 && AllDigits(ts)
    ensures LegacyCapture("- " + ts + ":" + rest) == Some(ts)
  {
    var line := "- " + ts + ":" + rest;
    assert line[0] == '-' && line[1] == ' ';
    assert line[1..2] == [line[1]];
    assert line[2..14] == ts;
    assert line[14] == ':';
    assert LegacyMatchesAt(line, 1);
    LegacyCaptureSpec(line, ts);
  }

  /**
   * An illustration of LegacyCaptureOf on the line format the legacy scan is
   * written for, `- YYYYMMDDHHmm: text`: the line
   * "- 202403051200: meeting notes" captures "202403051200".
   */
  lemma LegacyExampleCapture()
    ensures LegacyCapture("- " + "202403051200" + ":" + " meeting notes") == Some("202403051200")
  {
    var ts := "202403051200";
    assert IsDigit(ts[0]) && IsDigit(ts[1]) && IsDigit(ts[2]) && IsDigit(ts[3]) && IsDigit(ts[4]) && IsDigit(ts[5]);
    assert IsDigit(ts[6]) && IsDigit(ts[7]) && IsDigit(ts[8]) && IsDigit(ts[9]) && IsDigit(ts[10]) && IsDigit(ts[11]);
    LegacyCaptureOf(ts, " meeting notes");
  }

  /** An illustration of LegacyDate: the capture "202403051200" dates its line 2024-03-05. */
  lemma LegacyExampleDate()
    ensures LegacyDate("202403051200") == "2024-03-05"
  {
    var d := LegacyDate("202403051200");
    var iso := "2024-03-05";
    assert |d| == 10;
    assert d[0] == iso[0] && d[1] == iso[1] && d[2] == iso[2] && d[3] == iso[3] && d[4] == iso[4];
    assert d[5] == iso[5] && d[6] == iso[6] && d[7] == iso[7] && d[8] == iso[8] && d[9] == iso[9];
  }

  /** One step of the legacy scan: a matching line contributes its entry, any other line nothing. */
  lemma LegacyStep(doc: Document, lines: seq<string>, i: nat)
    requires i < |lines|
    ensures LegacyCapture(lines[i]).Some? ==>
              |LegacyCapture(lines[i]).value| == 12
              && LegacyUpTo(doc, lines, i + 1) == LegacyUpTo(doc, lines, i) + [Entry(LegacyDate(LegacyCapture(lines[i]).value),
                   InlineTimestampToCalendarItem(doc.file, Truncate(lines[i]), i + 1, None))]
    ensures LegacyCapture(lines[i]).None? ==> LegacyUpTo(doc, lines, i + 1) == LegacyUpTo(doc, lines, i)
  {
    assert LegacyUpTo(doc, lines, i + 1) == LegacyUpTo(doc, lines, i) + LegacyLine(doc, lines, i);
  }

  /**
   * `scanFileContentForTimestampPattern` (src/main.ts:185-254): the fixed
   * pattern `- YYYYMMDDHHmm:` dates each matching line by its digits.
   */
  method ScanFileContentForTimestampPattern(doc: Document, calendarDays: CalendarDaysMap)
    returns (r: CalendarDaysMap, changeFlag: bool)
    ensures r == AddAll(calendarDays, LegacyEntries(doc))
    ensures changeFlag == (LegacyEntries(doc) != [])
  {
    r, changeFlag := calendarDays, false;
    var lines := Split(doc.content, '\n');
    for i := 0 to |lines|
      invariant r == AddAll(calendarDays, LegacyUpTo(doc, lines, i))
      invariant changeFlag == (LegacyUpTo(doc, lines, i) != [])
    {
      var line := lines[i];
      var capture := LegacyCapture(line);
      LegacyStep(doc, lines, i);
      if capture.Some? {
        var timestamp := capture.value;
        var displayText := Truncate(line);
        var year, month, day := timestamp[0..4], timestamp[4..6], timestamp[6..8];
        var dateString := year + "-" + month + "-" + day;
        var item := InlineTimestampToCalendarItem(doc.file, displayText, i + 1, None);
        AddAllSnoc(calendarDays, LegacyUpTo(doc, lines, i), Entry(dateString, item));
        r := Add(r, dateString, item);
        changeFlag := true;
      }
    }
  }

  /* ---------------- dispatch on the source type ---------------- */

  /**
   * The strategy a calendar selects (the `if` chains of src/main.ts:455-498,
   * 515-566, 592-621, 665-710). The create handler passes `withYaml = false`:
   * it leaves front matter to the metadata-changed event.
   */
  function CalendarEntries(doc: Document, cal: CalendarConfig, env: Env, withYaml: bool): seq<Entry> {
    if cal.sourceType == YamlSource && Truthy(cal.yamlKey) then
      (if withYaml then YamlEntries(doc, cal, env) else [])
    else if cal.sourceType == FilenameSource then FilenameEntries(doc, cal, env)
    else if cal.sourceType == InlineSource && Truthy(cal.inlinePattern) then InlineEntries(doc, cal, env)
    else if cal.sourceType == NoteHeadingSource then HeadingEntries(doc, cal, env)
    else []
  }

  /** `calendars.filter(cal => cal.enabled)`. */
  function Enabled(cals: seq<CalendarConfig>): (r: seq<CalendarConfig>)
    ensures forall c :: c in r <==> c in cals && c.enabled
    ensures |r| <= |cals|
  {
    if cals == [] then []
    else Enabled(cals[..|cals| - 1]) + (if cals[|cals| - 1].enabled then [cals[|cals| - 1]] else [])
  }

  /** The entries of one document over a list of calendars, in calendar order. */
  function CalendarsEntries(doc: Document, cals: seq<CalendarConfig>, env: Env, withYaml: bool): seq<Entry> {
    if cals == [] then []
    else
      var n := |cals| - 1;
      CalendarsEntries(doc, cals[..n], env, withYaml) + CalendarEntries(doc, cals[n], env, withYaml)
  }

  /** Every entry belongs to the document's path and carries the calendar's id. */
  predicate TaggedBy(es: seq<Entry>, path: string, id: string) {
    forall i :: 0 <= i < |es| ==> es[i].item.path == path && es[i].item.calendarId == Some(id)
  }

  lemma {:induction false} InlineUpToTagged(doc: Document, cal: CalendarConfig, env: Env, pattern: string, lines: seq<string>, n: nat)
    requires n <= |lines|
    ensures TaggedBy(InlineUpTo(doc, cal, env, pattern, lines, n), doc.file.path, cal.id)
  {
    if n > 0 {
      InlineUpToTagged(doc, cal, env, pattern, lines, n - 1);
    }
  }

  lemma {:induction false} SectionUpToTagged(file: File, id: string, lines: seq<string>, from: int, to: int, d: string)
    decreases to - from
    ensures TaggedBy(SectionUpTo(file, id, lines, from, to, d), file.path, id)
    ensures var es := SectionUpTo(file, id, lines, from, to, d);
            forall i :: 0 <= i < |es| ==> es[i].date == d
  {
    if from < to {
      SectionUpToTagged(file, id, lines, from, to - 1, d);
      SectionStep(file, id, lines, from, to - 1, d);
      var prev := SectionUpTo(file, id, lines, from, to - 1, d);
      var all := SectionUpTo(file, id, lines, from, to, d);
      if IsSectionText(lines, to - 1) {
        var e := Entry(d, HeadingToCalendarItem(file, Truncate(Trim(lines[to - 1])), to, Some(id)));
        assert all == prev + [e];
        forall i | 0 <= i < |all|
          ensures all[i] == if i < |prev| then prev[i] else e
        {
        }
      }
    }
  }

  lemma {:induction false} HeadingsUpToTagged(doc: Document, cal: CalendarConfig, env: Env, lines: seq<string>, hs: seq<Heading>, n: nat)
    requires n <= |hs|
    ensures TaggedBy(HeadingsUpTo(doc, cal, env, lines, hs, n), doc.file.path, cal.id)
  {
    if n > 0 {
      HeadingsUpToTagged(doc, cal, env, lines, hs, n - 1);
      match env.parse(hs[n - 1].heading, cal.format)
      case None =>
      case Some(d) =>
        SectionUpToTagged(doc.file, cal.id, lines, hs[n - 1].endLine + 1, EndLine(hs, n - 1, lines) + 1, d);
    }
  }

  /** Every strategy tags what it yields with the file's path and the calendar's id. */
  lemma CalendarEntriesTagged(doc: Document, cal: CalendarConfig, env: Env, withYaml: bool)
    ensures TaggedBy(CalendarEntries(doc, cal, env, withYaml), doc.file.path, cal.id)
  {
    if Truthy(cal.inlinePattern) {
      InlineUpToTagged(doc, cal, env, cal.inlinePattern.value, Lines(doc), |Lines(doc)|);
    }
    if doc.headings.Some? {
      HeadingsUpToTagged(doc, cal, env, Lines(doc), doc.headings.value, |doc.headings.value|);
    }
  }

  /** Every entry of a document has the document's path and the id of one of the calendars. */
  lemma {:induction false} CalendarsEntriesTagged(doc: Document, cals: seq<CalendarConfig>, env: Env, withYaml: bool)
    ensures AllOfPath(CalendarsEntries(doc, cals, env, withYaml), doc.file.path)
    ensures forall i :: 0 <= i < |CalendarsEntries(doc, cals, env, withYaml)| ==>
              exists c :: c in cals && CalendarsEntries(doc, cals, env, withYaml)[i].item.calendarId == Some(c.id)
  {
    if cals != [] {
      var n := |cals| - 1;
      CalendarsEntriesTagged(doc, cals[..n], env, withYaml);
      CalendarEntriesTagged(doc, cals[n], env, withYaml);
      var prev := CalendarsEntries(doc, cals[..n], env, withYaml);
      var last := CalendarEntries(doc, cals[n], env, withYaml);
      var all := CalendarsEntries(doc, cals, env, withYaml);
      forall i | 0 <= i < |all|
        ensures all[i].item.path == doc.file.path
        ensures exists c :: c in cals && all[i].item.calendarId == Some(c.id)
      {
        if i < |prev| {
          assert all[i] == prev[i];
          var c :| c in cals[..n] && prev[i].item.calendarId == Some(c.id);
          assert c in cals;
        } else {
          assert all[i] == last[i - |prev|];
          assert cals[n] in cals;
        }
      }
    }
  }

  /** The calendars other than the front-matter ones. */
  function WithoutYaml(cals: seq<CalendarConfig>): (r: seq<CalendarConfig>)
    ensures forall c :: c in r <==> c in cals && c.sourceType != YamlSource
  {
    if cals == [] then []
    else
      var n := |cals| - 1;
      WithoutYaml(cals[..n]) + (if cals[n].sourceType == YamlSource then [] else [cals[n]])
  }

  /** One more calendar at the end adds its entries at the end. */
  lemma CalendarsEntriesSnoc(doc: Document, cals: seq<CalendarConfig>, c: CalendarConfig, env: Env, withYaml: bool)
    ensures CalendarsEntries(doc, cals + [c], env, withYaml)
            == CalendarsEntries(doc, cals, env, withYaml) + CalendarEntries(doc, c, env, withYaml)
  {
    var w := cals + [c];
    assert w[..|w| - 1] == cals && w[|w| - 1] == c;
  }

  /** Without front matter a calendar yields what it yields with it, unless it is a front-matter calendar. */
  lemma CalendarEntriesSkipYaml(doc: Document, c: CalendarConfig, env: Env)
    ensures c.sourceType != YamlSource ==> CalendarEntries(doc, c, env, false) == CalendarEntries(doc, c, env, true)
    ensures c.sourceType == YamlSource ==> CalendarEntries(doc, c, env, false) == []
  {
  }

  /** The create event yields what the other events yield with the front-matter calendars left out. */
  lemma {:induction false} CreateSkipsYaml(doc: Document, cals: seq<CalendarConfig>, env: Env)
    ensures CalendarsEntries(doc, cals, env, false) == CalendarsEntries(doc, WithoutYaml(cals), env, true)
  {
    if cals != [] {
      var n := |cals| - 1;
      CreateSkipsYaml(doc, cals[..n], env);
      CalendarEntriesSkipYaml(doc, cals[n], env);
      var rest := WithoutYaml(cals[..n]);
      var before := CalendarsEntries(doc, cals[..n], env, false);
      assert CalendarsEntries(doc, cals, env, false) == before + CalendarEntries(doc, cals[n], env, false);
      if cals[n].sourceType != YamlSource {
        assert WithoutYaml(cals) == rest + [cals[n]];
        CalendarsEntriesSnoc(doc, rest, cals[n], env, true);
      } else {
        assert WithoutYaml(cals) == rest + [] == rest;
        assert before + [] == before;
      }
    }
  }

  /**
   * One calendar's pass over one document, shared by every handler: the
   * front-matter and filename branches inline in each handler, the inline
   * and heading branches through the scan methods.
   */
  method ApplyCalendar(days: CalendarDaysMap, doc: Document, calendar: CalendarConfig, env: Env, withYaml: bool)
    returns (r: CalendarDaysMap, changeFlag: bool)
    ensures r == AddAll(days, CalendarEntries(doc, calendar, env, withYaml))
    ensures changeFlag == (CalendarEntries(doc, calendar, env, withYaml) != [])
  {
    r, changeFlag := days, false;
    if calendar.sourceType == YamlSource && Truthy(calendar.yamlKey) {
      if withYaml && doc.frontmatter.Some? {
        var fm := doc.frontmatter.value;
        var key := calendar.yamlKey.value;
        if key in fm {
          var parsedDate := env.parse(fm[key], calendar.format);
          if parsedDate.Some? {
            var item := FileToCalendarItem(doc.file, Some(calendar.id));
            assert AddAll(days, [Entry(parsedDate.value, item)]) == Add(days, parsedDate.value, item);
            r := Add(r, parsedDate.value, item);
            changeFlag := true;
          }
        }
      }
    } else if calendar.sourceType == FilenameSource {
      var parsedDate := env.parse(doc.file.name, calendar.format);
      if parsedDate.Some? {
        var item := FileToCalendarItem(doc.file, Some(calendar.id));
        assert AddAll(days, [Entry(parsedDate.value, item)]) == Add(days, parsedDate.value, item);
        r := Add(r, parsedDate.value, item);
        changeFlag := true;
      }
    } else if calendar.sourceType == InlineSource && Truthy(calendar.inlinePattern) {
      r, changeFlag := ScanFileForInlinePattern(doc, calendar, env, r);
    } else if calendar.sourceType == NoteHeadingSource {
      r, changeFlag := ScanFileForDateHeadings(doc, calendar, env, r);
    }
  }
}
