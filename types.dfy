/**
 * The value types of the calendar plugin: calendar items, calendar
 * configurations, the files of the vault and the item constructors
 * (src/types.ts, completed with the `note-heading` variant and the
 * configuration fields that src/main.ts uses).
 */
module Types {

  datatype Option<T> = None | Some(value: T)

  /** JavaScript truthiness of an optional string: neither undefined nor "". */
  predicate Truthy(o: Option<string>) {
    o.Some? && o.value != ""
  }

  /** An Obsidian `TFile`: `name` includes the extension, `basename` does not. */
  datatype File = File(path: string, name: string, basename: string, extension: string)

  datatype ReminderKind = Task | Periodic

  /**
   * A calendar item. Every variant carries `path`, the only field that
   * removal from the date index looks at.
   */
  datatype CalendarItem =
    | Note(displayName: string, path: string, calendarId: Option<string>)
    | Reminder(kind: ReminderKind, displayName: string, date: string, path: string, calendarId: Option<string>)
    | InlineTimestamp(displayName: string, path: string, lineNumber: nat, calendarId: Option<string>)
    | NoteHeading(displayName: string, path: string, lineNumber: nat, calendarId: Option<string>)

  /** `CalendarDaysMap`: ISO date string to the items of that day. */
  type CalendarDaysMap = map<string, seq<CalendarItem>>

  datatype SourceType = FilenameSource | YamlSource | InlineSource | NoteHeadingSource

  datatype CalendarConfig = CalendarConfig(
    id: string,
    name: string,
    sourceType: SourceType,
    format: string,
    yamlKey: Option<string>,
    inlinePattern: Option<string>,
    inlineWhitelist: Option<string>,
    notePath: Option<string>,
    color: Option<string>,
    enabled: bool,
    testPattern: Option<string>)

  /** `fileToCalendarItem`: a note item named after the file's basename. */
  function FileToCalendarItem(note: File, calendarId: Option<string>): (r: CalendarItem)
    ensures r.Note?
    ensures r.displayName == note.basename && r.path == note.path
    ensures r.calendarId == calendarId
  {
    Note(note.basename, note.path, calendarId)
  }

  /** `inlineTimestampToCalendarItem`: an item for one matching line of a file. */
  function InlineTimestampToCalendarItem(file: File, title: string, lineNumber: nat, calendarId: Option<string>): (r: CalendarItem)
    ensures r.InlineTimestamp?
    ensures r.displayName == title && r.path == file.path && r.lineNumber == lineNumber
    ensures r.calendarId == calendarId
  {
    InlineTimestamp(title, file.path, lineNumber, calendarId)
  }

  /** `headingToCalendarItem`: an item for one line under a dated heading. */
  function HeadingToCalendarItem(file: File, title: string, lineNumber: nat, calendarId: Option<string>): (r: CalendarItem)
    ensures r.NoteHeading?
    ensures r.displayName == title && r.path == file.path && r.lineNumber == lineNumber
    ensures r.calendarId == calendarId
  {
    NoteHeading(title, file.path, lineNumber, calendarId)
  }
}
