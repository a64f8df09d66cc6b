/**
 * The plugin settings of src/settings/settings.ts: the general view options,
 * the calendar registry, its default value and the configuration a new
 * calendar starts from.
 */
module Settings {
  import opened Types
  import opened Text

  datatype CalendarType = US | Iso8601
  datatype OpenFileBehaviour = NewTab | NewTabGroup | CurrentTab | ObsidianDefault
  datatype SortingOption = ByName | ByNameReversed
  datatype OverflowBehaviour = Scroll | Hide | NextLine

  datatype PluginSettings = PluginSettings(
    openViewOnStart: bool,
    calendarType: CalendarType,
    fixedCalendar: bool,
    openFileBehaviour: OpenFileBehaviour,
    sortingOption: SortingOption,
    fileNameOverflowBehaviour: OverflowBehaviour,
    showWeekNumbers: bool,
    calendars: seq<CalendarConfig>)

  /** No two calendars of the registry share an id. */
  predicate DistinctIds(cals: seq<CalendarConfig>) {
    forall i, j :: 0 <= i < j < |cals| ==> cals[i].id != cals[j].id
  }

  /**
   * `DEFAULT_SETTINGS`: two enabled calendars with distinct ids, a
   * front-matter calendar on the key `created` and an inline calendar on the
   * pattern `^-\s+(\d{12}):`, each with a key or pattern that selects its
   * strategy, and the general options: the view opens on start as a fixed
   * ISO 8601 calendar without week numbers, files open in the current tab,
   * sorted by name, with overflowing names hidden.
   */
  function DefaultSettings(): (s: PluginSettings)
    ensures |s.calendars| == 2 && DistinctIds(s.calendars)
    ensures forall c :: c in s.calendars ==> c.enabled
    ensures s.calendars[0].id == "default" && s.calendars[0].sourceType == YamlSource
            && s.calendars[0].yamlKey == Some("created") && Truthy(s.calendars[0].yamlKey)
            && s.calendars[0].format == "YYYY-MM-DD hh:mm:ss"
    ensures s.calendars[1].id == "inline-timestamp" && s.calendars[1].sourceType == InlineSource
            && s.calendars[1].inlinePattern == Some("^-\\s+(\\d{12}):") && Truthy(s.calendars[1].inlinePattern)
            && s.calendars[1].format == "YYYYMMDDHHmm"
    ensures s.calendars[0].name == "Default Calendar" && s.calendars[1].name == "Inline Timestamps"
    ensures s.openViewOnStart && s.calendarType == Iso8601 && s.fixedCalendar && !s.showWeekNumbers
    ensures s.openFileBehaviour == CurrentTab && s.sortingOption == ByName && s.fileNameOverflowBehaviour == Hide
  {
    PluginSettings(
      true, Iso8601, true, CurrentTab, ByName, Hide, false,
      [ CalendarConfig("default", "Default Calendar", YamlSource, "YYYY-MM-DD hh:mm:ss",
                       Some("created"), None, None, None, None, true, None),
        CalendarConfig("inline-timestamp", "Inline Timestamps", InlineSource, "YYYYMMDDHHmm",
                       None, Some("^-\\s+(\\d{12}):"), None, None, None, true, None) ])
  }

  /** The id `calendar-${Date.now()}` of a calendar added at time `now`. */
  function CalendarId(now: nat): (id: string)
    ensures |id| > 9 && id[..9] == "calendar-"
  {
    "calendar-" + Decimal(now)
  }

  /** Calendars added at different instants get different ids. */
  lemma CalendarIdInjective(a: nat, b: nat)
    requires CalendarId(a) == CalendarId(b)
    ensures a == b
  {
    assert Decimal(a) == CalendarId(a)[9..];
    assert Decimal(b) == CalendarId(b)[9..];
    DecimalRoundTrip(a);
    DecimalRoundTrip(b);
  }

  /**
   * The configuration the "Add Calendar" button appends: an enabled
   * front-matter calendar on the key `date` with format `YYYY-MM-DD`, no
   * pattern, whitelist, note path or colour.
   */
  function NewCalendar(id: string): (c: CalendarConfig)
    ensures c.id == id && c.name == "New Calendar" && c.sourceType == YamlSource
    ensures c.format == "YYYY-MM-DD" && c.yamlKey == Some("date") && Truthy(c.yamlKey) && c.enabled
    ensures c.inlinePattern.None? && c.inlineWhitelist.None? && c.notePath.None?
            && c.color.None? && c.testPattern.None?
  {
    CalendarConfig(id, "New Calendar", YamlSource, "YYYY-MM-DD", Some("date"), None, None, None, None, true, None)
  }

  /** `calendars.splice(index, 1)`: exactly the config at `index` is gone, the others keep their order. */
  function DeleteAt(cals: seq<CalendarConfig>, index: nat): (r: seq<CalendarConfig>)
    requires index < |cals|
    ensures |r| == |cals| - 1
    ensures forall j :: 0 <= j < index ==> r[j] == cals[j]
    ensures forall j :: index <= j < |r| ==> r[j] == cals[j + 1]
  {
    cals[..index] + cals[index + 1..]
  }

  /** Deleting a calendar keeps the ids of the others distinct and drops its id from the registry. */
  lemma DeleteAtIds(cals: seq<CalendarConfig>, index: nat)
    requires index < |cals| && DistinctIds(cals)
    ensures DistinctIds(DeleteAt(cals, index))
    ensures forall c :: c in DeleteAt(cals, index) ==> c.id != cals[index].id
  {
    var r := DeleteAt(cals, index);
    forall c | c in r ensures c.id != cals[index].id {
      var j :| 0 <= j < |r| && r[j] == c;
      if j < index {
        assert r[j] == cals[j];
      } else {
        assert r[j] == cals[j + 1];
      }
    }
    forall i, j | 0 <= i < j < |r| ensures r[i].id != r[j].id {
      var i' := if i < index then i else i + 1;
      var j' := if j < index then j else j + 1;
      assert r[i] == cals[i'] && r[j] == cals[j'];
    }
  }

  /** A calendar added with an id no other calendar has keeps the ids distinct. */
  lemma AddKeepsDistinct(cals: seq<CalendarConfig>, now: nat)
    requires DistinctIds(cals)
    requires forall c :: c in cals ==> c.id != CalendarId(now)
    ensures DistinctIds(cals + [NewCalendar(CalendarId(now))])
  {
    var r := cals + [NewCalendar(CalendarId(now))];
    forall i, j | 0 <= i < j < |r| ensures r[i].id != r[j].id {
      assert r[i] == cals[i];
      if j < |cals| {
        assert r[j] == cals[j];
      } else {
        assert cals[i] in cals;
      }
    }
  }
}
