/**
 * The calendar registry editor of `CalendarPluginSettingsTab.display()` in
 * src/settings/settings.ts: adding, toggling and deleting calendars and
 * editing the fields of one calendar. Toggling and deleting rebuild the
 * whole date index from the changed registry.
 */
module SettingsTab {
  import opened Types
  import opened DateIndex
  import opened Strategies
  import opened Settings
  import opened Plugin

  /** The registry with the calendar at `index` switched on or off. */
  function WithEnabled(cals: seq<CalendarConfig>, index: nat, value: bool): (r: seq<CalendarConfig>)
    requires index < |cals|
    ensures |r| == |cals| && r[index].enabled == value
    ensures r[index] == cals[index].(enabled := value)
    ensures forall j :: 0 <= j < |cals| && j != index ==> r[j] == cals[j]
  {
    cals[index := cals[index].(enabled := value)]
  }

  /** Once a deleted calendar's index is rebuilt, no item carries its id. */
  lemma DeletePurges(vault: seq<Document>, cals: seq<CalendarConfig>, index: nat, env: Env, d: string, x: CalendarItem)
    requires index < |cals| && DistinctIds(cals)
    requires d in Rebuild(vault, DeleteAt(cals, index), env) && x in Rebuild(vault, DeleteAt(cals, index), env)[d]
    ensures x.calendarId != Some(cals[index].id)
  {
    RebuildTagged(vault, DeleteAt(cals, index), env, d, x);
    var c :| c in DeleteAt(cals, index) && c.enabled && x.calendarId == Some(c.id);
    DeleteAtIds(cals, index);
  }

  /** Once a switched-off calendar's index is rebuilt, no item carries its id. */
  lemma DisablePurges(vault: seq<Document>, cals: seq<CalendarConfig>, index: nat, env: Env, d: string, x: CalendarItem)
    requires index < |cals| && DistinctIds(cals)
    requires d in Rebuild(vault, WithEnabled(cals, index, false), env)
    requires x in Rebuild(vault, WithEnabled(cals, index, false), env)[d]
    ensures x.calendarId != Some(cals[index].id)
  {
    var r := WithEnabled(cals, index, false);
    RebuildTagged(vault, r, env, d, x);
    var c :| c in r && c.enabled && x.calendarId == Some(c.id);
    var j :| 0 <= j < |r| && r[j] == c;
    assert j != index && r[j] == cals[j];
  }

  class CalendarPluginSettingsTab {
    const plugin: CalendarPlugin

    constructor (plugin: CalendarPlugin)
      ensures this.plugin == plugin
    {
      this.plugin := plugin;
    }

    /**
     * "Add Calendar": a fresh front-matter calendar, id `calendar-<now>`, goes
     * at the end of the registry; the ids stay distinct when no calendar
     * already has that id.
     */
    method AddCalendar(now: nat)
      modifies plugin`settings
      ensures plugin.settings == old(plugin.settings).(calendars := old(plugin.settings.calendars) + [NewCalendar(CalendarId(now))])
      ensures DistinctIds(old(plugin.settings.calendars)) && (forall c :: c in old(plugin.settings.calendars) ==> c.id != CalendarId(now))
              ==> DistinctIds(plugin.settings.calendars)
    {
      var id := CalendarId(now);
      var newCalendar := NewCalendar(id);
      if DistinctIds(plugin.settings.calendars) && forall c :: c in plugin.settings.calendars ==> c.id != CalendarId(now) {
        AddKeepsDistinct(plugin.settings.calendars, now);
      }
      plugin.settings := plugin.settings.(calendars := plugin.settings.calendars + [newCalendar]);
    }

    /**
     * The header toggle: the calendar is switched, the view refreshed at once,
     * and the index replaced by a rebuild over the changed registry, which
     * refreshes the view again. With distinct ids, switching a calendar off
     * leaves no item of it in the index.
     */
    method ToggleCalendar(index: nat, value: bool, vault: seq<Document>, env: Env)
      requires index < |plugin.settings.calendars|
      modifies plugin`settings, plugin`calendarDaysState, plugin`notifications
      ensures plugin.settings == old(plugin.settings).(calendars := WithEnabled(old(plugin.settings.calendars), index, value))
      ensures plugin.calendarDaysState == Rebuild(vault, plugin.settings.calendars, env)
      ensures plugin.notifications == old(plugin.notifications) + 2
      ensures plugin.Valid()
      ensures !value && DistinctIds(old(plugin.settings.calendars)) ==>
                forall d, x :: d in plugin.calendarDaysState && x in plugin.calendarDaysState[d] ==>
                  x.calendarId != Some(old(plugin.settings.calendars)[index].id)
    {
      var calendars := plugin.settings.calendars;
      plugin.settings := plugin.settings.(calendars := calendars[index := calendars[index].(enabled := value)]);
      plugin.CalendarForceUpdate();
      var result := plugin.GetNotesWithDates(vault, env);
      plugin.calendarDaysState := result;
      plugin.CalendarForceUpdate();
      RebuildNoEmpty(vault, plugin.settings.calendars, env);
      if !value && DistinctIds(calendars) {
        assert plugin.settings.calendars == WithEnabled(calendars, index, false);
        forall d, x | d in plugin.calendarDaysState && x in plugin.calendarDaysState[d]
          ensures x.calendarId != Some(calendars[index].id)
        {
          DisablePurges(vault, calendars, index, env, d, x);
        }
      }
    }

    /**
     * The header "Delete" button: once confirmed, the calendar at `index`
     * leaves the registry and the index is rebuilt and the view refreshed;
     * unconfirmed, nothing changes.
     */
    method DeleteCalendar(index: nat, confirmed: bool, vault: seq<Document>, env: Env)
      requires index < |plugin.settings.calendars|
      requires plugin.Valid()
      modifies plugin`settings, plugin`calendarDaysState, plugin`notifications
      ensures confirmed ==>
                plugin.settings == old(plugin.settings).(calendars := DeleteAt(old(plugin.settings.calendars), index))
                && plugin.calendarDaysState == Rebuild(vault, plugin.settings.calendars, env)
                && plugin.notifications == old(plugin.notifications) + 1
      ensures !confirmed ==>
                plugin.settings == old(plugin.settings) && plugin.calendarDaysState == old(plugin.calendarDaysState)
                && plugin.notifications == old(plugin.notifications)
      ensures plugin.Valid()
      ensures DistinctIds(old(plugin.settings.calendars)) ==> DistinctIds(plugin.settings.calendars)
      ensures confirmed && DistinctIds(old(plugin.settings.calendars)) ==>
                forall d, x :: d in plugin.calendarDaysState && x in plugin.calendarDaysState[d] ==>
                  x.calendarId != Some(old(plugin.settings.calendars)[index].id)
    {
      if confirmed {
        var calendars := plugin.settings.calendars;
        plugin.settings := plugin.settings.(calendars := calendars[..index] + calendars[index + 1..]);
        var result := plugin.GetNotesWithDates(vault, env);
        plugin.calendarDaysState := result;
        plugin.CalendarForceUpdate();
        RebuildNoEmpty(vault, plugin.settings.calendars, env);
        if DistinctIds(calendars) {
          assert plugin.settings.calendars == DeleteAt(calendars, index);
          DeleteAtIds(calendars, index);
          forall d, x | d in plugin.calendarDaysState && x in plugin.calendarDaysState[d]
            ensures x.calendarId != Some(calendars[index].id)
          {
            DeletePurges(vault, calendars, index, env, d, x);
          }
        }
      }
    }

    /** "Calendar Name": only that calendar's name changes. */
    method SetName(index: nat, value: string)
      requires index < |plugin.settings.calendars|
      modifies plugin`settings
      ensures plugin.settings == old(plugin.settings).(calendars :=
                old(plugin.settings.calendars)[index := old(plugin.settings.calendars)[index].(name := value)])
    {
      var calendars := plugin.settings.calendars;
      plugin.settings := plugin.settings.(calendars := calendars[index := calendars[index].(name := value)]);
    }

    /** "Source Type": the drop-down offers the front-matter, filename and inline sources. */
    method SetSourceType(index: nat, value: SourceType)
      requires index < |plugin.settings.calendars|
      requires value != NoteHeadingSource
      modifies plugin`settings
      ensures plugin.settings == old(plugin.settings).(calendars :=
                old(plugin.settings.calendars)[index := old(plugin.settings.calendars)[index].(sourceType := value)])
    {
      var calendars := plugin.settings.calendars;
      plugin.settings := plugin.settings.(calendars := calendars[index := calendars[index].(sourceType := value)]);
    }

    /** "YAML Key": the text is stored as given, even when empty. */
    method SetYamlKey(index: nat, value: string)
      requires index < |plugin.settings.calendars|
      modifies plugin`settings
      ensures plugin.settings == old(plugin.settings).(calendars :=
                old(plugin.settings.calendars)[index := old(plugin.settings.calendars)[index].(yamlKey := Some(value))])
    {
      var calendars := plugin.settings.calendars;
      plugin.settings := plugin.settings.(calendars := calendars[index := calendars[index].(yamlKey := Some(value))]);
    }

    /** "Date Format". */
    method SetFormat(index: nat, value: string)
      requires index < |plugin.settings.calendars|
      modifies plugin`settings
      ensures plugin.settings == old(plugin.settings).(calendars :=
                old(plugin.settings.calendars)[index := old(plugin.settings.calendars)[index].(format := value)])
    {
      var calendars := plugin.settings.calendars;
      plugin.settings := plugin.settings.(calendars := calendars[index := calendars[index].(format := value)]);
    }

    /** "Inline Pattern". */
    method SetInlinePattern(index: nat, value: string)
      requires index < |plugin.settings.calendars|
      modifies plugin`settings
      ensures plugin.settings == old(plugin.settings).(calendars :=
                old(plugin.settings.calendars)[index := old(plugin.settings.calendars)[index].(inlinePattern := Some(value))])
    {
      var calendars := plugin.settings.calendars;
      plugin.settings := plugin.settings.(calendars := calendars[index := calendars[index].(inlinePattern := Some(value))]);
    }

    /** "Test Pattern": the sample line is stored; the index is not affected. */
    method SetTestPattern(index: nat, value: string)
      requires index < |plugin.settings.calendars|
      modifies plugin`settings
      ensures plugin.settings == old(plugin.settings).(calendars :=
                old(plugin.settings.calendars)[index := old(plugin.settings.calendars)[index].(testPattern := Some(value))])
    {
      var calendars := plugin.settings.calendars;
      plugin.settings := plugin.settings.(calendars := calendars[index := calendars[index].(testPattern := Some(value))]);
    }

    /** "Calendar Color": stored, and the view refreshed. */
    method SetColor(index: nat, value: string)
      requires index < |plugin.settings.calendars|
      modifies plugin`settings, plugin`notifications
      ensures plugin.settings == old(plugin.settings).(calendars :=
                old(plugin.settings.calendars)[index := old(plugin.settings.calendars)[index].(color := Some(value))])
      ensures plugin.notifications == old(plugin.notifications) + 1
    {
      var calendars := plugin.settings.calendars;
      plugin.settings := plugin.settings.(calendars := calendars[index := calendars[index].(color := Some(value))]);
      plugin.CalendarForceUpdate();
    }
  }
}
