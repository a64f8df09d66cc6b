/**
 * `CalendarPlugin` of src/main.ts: the date index it keeps, the full
 * rebuild over the vault and the vault event handlers that keep the index
 * up to date one document at a time.
 */
module Plugin {
  import opened Types
  import opened DateIndex
  import opened Strategies
  import opened Settings

  /* ---------------- the full rebuild ---------------- */

  /** `vault.getMarkdownFiles()`: the documents with extension `md`, in vault order. */
  function MarkdownFiles(vault: seq<Document>): (r: seq<Document>)
    ensures forall f :: f in r <==> f in vault && f.file.extension == "md"
  {
    if vault == [] then []
    else
      var n := |vault| - 1;
      MarkdownFiles(vault[..n]) + (if vault[n].file.extension == "md" then [vault[n]] else [])
  }

  /** The entries of a list of documents over a list of calendars, document by document. */
  function RebuildEntries(files: seq<Document>, cals: seq<CalendarConfig>, env: Env): seq<Entry> {
    if files == [] then []
    else
      var n := |files| - 1;
      RebuildEntries(files[..n], cals, env) + CalendarsEntries(files[n], cals, env, true)
  }

  /** The index `getNotesWithDates` builds: every markdown file against every enabled calendar. */
  function Rebuild(vault: seq<Document>, cals: seq<CalendarConfig>, env: Env): CalendarDaysMap {
    AddAll(map[], RebuildEntries(MarkdownFiles(vault), Enabled(cals), env))
  }

  /** Every entry belongs to one of the documents. */
  predicate FromDocuments(es: seq<Entry>, files: seq<Document>) {
    forall i :: 0 <= i < |es| ==> exists f :: f in files && es[i].item.path == f.file.path
  }

  /** The entry carries the id of one of the calendars. */
  predicate OfCalendar(e: Entry, cals: seq<CalendarConfig>) {
    exists c :: c in cals && e.item.calendarId == Some(c.id)
  }

  /** Every entry carries the id of one of the calendars. */
  predicate FromCalendars(es: seq<Entry>, cals: seq<CalendarConfig>) {
    forall i :: 0 <= i < |es| ==> OfCalendar(es[i], cals)
  }

  /** Every entry of a rebuild belongs to one of the documents and carries the id of one of the calendars. */
  lemma RebuildEntriesTagged(files: seq<Document>, cals: seq<CalendarConfig>, env: Env)
    ensures FromDocuments(RebuildEntries(files, cals, env), files)
    ensures FromCalendars(RebuildEntries(files, cals, env), cals)
  {
    RebuildEntriesFromDocuments(files, cals, env);
    RebuildEntriesFromCalendars(files, cals, env);
  }

  lemma {:induction false} RebuildEntriesFromDocuments(files: seq<Document>, cals: seq<CalendarConfig>, env: Env)
    ensures FromDocuments(RebuildEntries(files, cals, env), files)
  {
    if files != [] {
      var n := |files| - 1;
      RebuildEntriesFromDocuments(files[..n], cals, env);
      CalendarsEntriesTagged(files[n], cals, env, true);
      var prev := RebuildEntries(files[..n], cals, env);
      var last := CalendarsEntries(files[n], cals, env, true);
      var all := RebuildEntries(files, cals, env);
      assert all == prev + last;
      forall i | 0 <= i < |all|
        ensures exists f :: f in files && all[i].item.path == f.file.path
      {
        if i < |prev| {
          assert all[i] == prev[i];
          var f :| f in files[..n] && prev[i].item.path == f.file.path;
          assert f in files;
        } else {
          assert all[i] == last[i - |prev|];
          assert files[n] in files;
        }
      }
    }
  }

  lemma {:induction false} RebuildEntriesFromCalendars(files: seq<Document>, cals: seq<CalendarConfig>, env: Env)
    ensures FromCalendars(RebuildEntries(files, cals, env), cals)
  {
    if files != [] {
      var n := |files| - 1;
      RebuildEntriesFromCalendars(files[..n], cals, env);
      CalendarsEntriesTagged(files[n], cals, env, true);
      var prev := RebuildEntries(files[..n], cals, env);
      var last := CalendarsEntries(files[n], cals, env, true);
      var all := RebuildEntries(files, cals, env);
      assert all == prev + last;
      forall i | 0 <= i < |all|
        ensures OfCalendar(all[i], cals)
      {
        if i < |prev| {
          assert all[i] == prev[i];
          assert OfCalendar(prev[i], cals);
        } else {
          assert all[i] == last[i - |prev|];
          var c :| c in cals && last[i - |prev|].item.calendarId == Some(c.id);
        }
      }
    }
  }

  /** A rebuilt index has no empty day. */
  lemma RebuildNoEmpty(vault: seq<Document>, cals: seq<CalendarConfig>, env: Env)
    ensures NoEmptyBuckets(Rebuild(vault, cals, env))
  {
    AddAllNoEmpty(map[], RebuildEntries(MarkdownFiles(vault), Enabled(cals), env));
  }

  /**
   * Every item of a rebuilt index belongs to a markdown file of the vault and
   * carries the id of an enabled calendar: a calendar that is disabled or
   * deleted leaves nothing of its own behind once the index is rebuilt.
   */
  lemma RebuildTagged(vault: seq<Document>, cals: seq<CalendarConfig>, env: Env, d: string, x: CalendarItem)
    requires d in Rebuild(vault, cals, env) && x in Rebuild(vault, cals, env)[d]
    ensures exists f :: f in vault && f.file.extension == "md" && x.path == f.file.path
    ensures exists c :: c in cals && c.enabled && x.calendarId == Some(c.id)
  {
    var files, enabled := MarkdownFiles(vault), Enabled(cals);
    var es := RebuildEntries(files, enabled, env);
    AddAllBucket(map[], es, d);
    assert x in ItemsOn(es, d);
    ItemsOnMember(es, d, x);
    var i :| 0 <= i < |es| && es[i].date == d && es[i].item == x;
    RebuildEntriesTagged(files, enabled, env);
    var f :| f in files && es[i].item.path == f.file.path;
    var c :| c in enabled && es[i].item.calendarId == Some(c.id);
    assert f in vault && c in cals;
  }

  /* ---------------- the document handlers as values ---------------- */

  /** What one document yields over the enabled calendars of a registry. */
  function DocumentEntries(doc: Document, cals: seq<CalendarConfig>, env: Env, withYaml: bool): seq<Entry> {
    CalendarsEntries(doc, Enabled(cals), env, withYaml)
  }

  /** The index after the metadata of `doc` changed: its path is dropped, then re-scanned. */
  function CacheChangeState(m: CalendarDaysMap, doc: Document, cals: seq<CalendarConfig>, env: Env): CalendarDaysMap {
    Upsert(m, doc.file.path, DocumentEntries(doc, cals, env, true))
  }

  /** A second metadata change with the same content leaves the index as the first left it. */
  lemma CacheChangeIdempotent(m: CalendarDaysMap, doc: Document, cals: seq<CalendarConfig>, env: Env)
    requires NoEmptyBuckets(m)
    ensures CacheChangeState(CacheChangeState(m, doc, cals, env), doc, cals, env) == CacheChangeState(m, doc, cals, env)
    ensures NoEmptyBuckets(CacheChangeState(m, doc, cals, env))
  {
    var es := DocumentEntries(doc, cals, env, true);
    CalendarsEntriesTagged(doc, Enabled(cals), env, true);
    UpsertIdempotent(m, doc.file.path, es);
    RemovePathNoEmpty(m, doc.file.path);
    AddAllNoEmpty(RemovePath(m, doc.file.path), es);
  }

  /**
   * After a metadata change the items of the changed file in each day are
   * exactly what the enabled calendars yield for it, in order, and the items
   * of every other file in every day are as they were.
   */
  lemma CacheChangeItems(m: CalendarDaysMap, doc: Document, cals: seq<CalendarConfig>, env: Env, q: string, d: string)
    ensures Only(Bucket(CacheChangeState(m, doc, cals, env), d), doc.file.path) == ItemsOn(DocumentEntries(doc, cals, env, true), d)
    ensures q != doc.file.path ==> Only(Bucket(CacheChangeState(m, doc, cals, env), d), q) == Only(Bucket(m, d), q)
  {
    var es := DocumentEntries(doc, cals, env, true);
    CalendarsEntriesTagged(doc, Enabled(cals), env, true);
    UpsertOwnPath(m, doc.file.path, es, d);
    if q != doc.file.path {
      UpsertOtherPaths(m, doc.file.path, es, q, d);
    }
  }

  /** No two documents of the vault share a path. */
  predicate UniquePaths(files: seq<Document>) {
    forall i, j :: 0 <= i < j < |files| ==> files[i].file.path != files[j].file.path
  }

  lemma {:induction false} MarkdownFilesUnique(vault: seq<Document>)
    requires UniquePaths(vault)
    ensures UniquePaths(MarkdownFiles(vault))
  {
    if vault != [] {
      var n := |vault| - 1;
      assert UniquePaths(vault[..n]);
      MarkdownFilesUnique(vault[..n]);
      var prev := MarkdownFiles(vault[..n]);
      var all := MarkdownFiles(vault);
      if vault[n].file.extension == "md" {
        forall i | 0 <= i < |prev| ensures prev[i].file.path != vault[n].file.path {
          assert prev[i] in prev;
          var k :| 0 <= k < n && vault[..n][k] == prev[i];
        }
        assert all == prev + [vault[n]];
      }
    }
  }

  /** A rebuild over documents none of which has path `p` lists no item of `p`. */
  lemma {:induction false} RebuildEntriesWithout(files: seq<Document>, cals: seq<CalendarConfig>, env: Env, p: string, d: string)
    requires forall g :: g in files ==> g.file.path != p
    ensures Only(ItemsOn(RebuildEntries(files, cals, env), d), p) == []
  {
    if files != [] {
      var n := |files| - 1;
      assert files[n] in files;
      RebuildEntriesWithout(files[..n], cals, env, p, d);
      RebuildEntriesLast(files, cals, env, p, d);
    }
  }

  /** The items of path `p` in a rebuild: those of the earlier documents, then the last document's if it has path `p`. */
  lemma RebuildEntriesLast(files: seq<Document>, cals: seq<CalendarConfig>, env: Env, p: string, d: string)
    requires files != []
    ensures var n := |files| - 1;
            Only(ItemsOn(RebuildEntries(files, cals, env), d), p)
            == Only(ItemsOn(RebuildEntries(files[..n], cals, env), d), p)
               + (if files[n].file.path == p then ItemsOn(CalendarsEntries(files[n], cals, env, true), d) else [])
  {
    var n := |files| - 1;
    var prev := RebuildEntries(files[..n], cals, env);
    var last := CalendarsEntries(files[n], cals, env, true);
    assert RebuildEntries(files, cals, env) == prev + last;
    ItemsOnConcat(prev, last, d);
    OnlyConcat(ItemsOn(prev, d), ItemsOn(last, d), p);
    CalendarsEntriesTagged(files[n], cals, env, true);
    OnlyItemsOn(last, files[n].file.path, p, d);
  }

  /** In a rebuild over documents with distinct paths, the items of `f`'s path are exactly `f`'s own. */
  lemma {:induction false} RebuildEntriesOf(files: seq<Document>, cals: seq<CalendarConfig>, env: Env, f: Document, d: string)
    requires UniquePaths(files) && f in files
    ensures Only(ItemsOn(RebuildEntries(files, cals, env), d), f.file.path) == ItemsOn(CalendarsEntries(f, cals, env, true), d)
  {
    var n := |files| - 1;
    if files[n] == f {
      RebuildEntriesOfLast(files, cals, env, d);
    } else {
      var k :| 0 <= k < |files| && files[k] == f;
      assert k < n && files[..n][k] == f;
      assert files[k].file.path != files[n].file.path;
      assert UniquePaths(files[..n]);
      RebuildEntriesOf(files[..n], cals, env, f, d);
      RebuildEntriesLast(files, cals, env, f.file.path, d);
    }
  }

  /** The items of the last document's path in a rebuild over distinct paths are its own. */
  lemma RebuildEntriesOfLast(files: seq<Document>, cals: seq<CalendarConfig>, env: Env, d: string)
    requires UniquePaths(files) && files != []
    ensures var f := files[|files| - 1];
            Only(ItemsOn(RebuildEntries(files, cals, env), d), f.file.path) == ItemsOn(CalendarsEntries(f, cals, env, true), d)
  {
    var n := |files| - 1;
    var p := files[n].file.path;
    LastPathUnique(files);
    RebuildEntriesWithout(files[..n], cals, env, p, d);
    RebuildEntriesLast(files, cals, env, p, d);
  }

  /** The last document's path occurs nowhere before it. */
  lemma LastPathUnique(files: seq<Document>)
    requires UniquePaths(files) && files != []
    ensures forall g :: g in files[..|files| - 1] ==> g.file.path != files[|files| - 1].file.path
  {
    var n := |files| - 1;
    forall g | g in files[..n] ensures g.file.path != files[n].file.path {
      var k :| 0 <= k < n && files[..n][k] == g;
    }
  }

  /**
   * The incremental handler agrees with the rebuild: after a metadata change
   * of a markdown file, its items on every day are exactly those a full
   * rebuild of the vault lists for it.
   */
  lemma CacheChangeAgreesWithRebuild(m: CalendarDaysMap, vault: seq<Document>, cals: seq<CalendarConfig>, env: Env, f: Document, d: string)
    requires UniquePaths(vault) && f in vault && f.file.extension == "md"
    ensures Only(Bucket(CacheChangeState(m, f, cals, env), d), f.file.path)
            == Only(Bucket(Rebuild(vault, cals, env), d), f.file.path)
  {
    var files := MarkdownFiles(vault);
    MarkdownFilesUnique(vault);
    AddAllBucket(map[], RebuildEntries(files, Enabled(cals), env), d);
    assert Bucket(Rebuild(vault, cals, env), d) == ItemsOn(RebuildEntries(files, Enabled(cals), env), d);
    RebuildEntriesOf(files, Enabled(cals), env, f, d);
    CacheChangeItems(m, f, cals, env, f.file.path, d);
  }

  /** The index after the metadata of each of `docs` changed, one document after the other. */
  function UpsertAll(m: CalendarDaysMap, docs: seq<Document>, cals: seq<CalendarConfig>, env: Env): CalendarDaysMap {
    if docs == [] then m
    else
      var n := |docs| - 1;
      CacheChangeState(UpsertAll(m, docs[..n], cals, env), docs[n], cals, env)
  }

  /** Changes of documents with other paths leave the items of path `q` as they were. */
  lemma {:induction false} UpsertAllOther(m: CalendarDaysMap, docs: seq<Document>, cals: seq<CalendarConfig>, env: Env, q: string, d: string)
    requires forall f :: f in docs ==> f.file.path != q
    ensures Only(Bucket(UpsertAll(m, docs, cals, env), d), q) == Only(Bucket(m, d), q)
  {
    if docs != [] {
      var n := |docs| - 1;
      assert docs[n] in docs;
      UpsertAllOther(m, docs[..n], cals, env, q, d);
      CacheChangeItems(UpsertAll(m, docs[..n], cals, env), docs[n], cals, env, q, d);
    }
  }

  /** After changes of documents with distinct paths, each document's items are exactly its own scan. */
  lemma {:induction false} UpsertAllOwn(m: CalendarDaysMap, docs: seq<Document>, cals: seq<CalendarConfig>, env: Env, f: Document, d: string)
    requires UniquePaths(docs) && f in docs
    ensures Only(Bucket(UpsertAll(m, docs, cals, env), d), f.file.path) == ItemsOn(DocumentEntries(f, cals, env, true), d)
  {
    var n := |docs| - 1;
    var prev := UpsertAll(m, docs[..n], cals, env);
    CacheChangeItems(prev, docs[n], cals, env, f.file.path, d);
    if docs[n] != f {
      var k :| 0 <= k < |docs| && docs[k] == f;
      assert k < n && docs[..n][k] == f;
      assert docs[k].file.path != docs[n].file.path;
      assert UniquePaths(docs[..n]);
      UpsertAllOwn(m, docs[..n], cals, env, f, d);
    }
  }

  /**
   * Handling a metadata change of every markdown file, in any order, from an
   * empty index gives the full rebuild: on every day, each path holds the
   * same items in the same order. (The order of items of different paths
   * within a day depends on the order of the changes.)
   */
  lemma UpsertAllAgreesWithRebuild(vault: seq<Document>, docs: seq<Document>, cals: seq<CalendarConfig>, env: Env, q: string, d: string)
    requires UniquePaths(vault) && UniquePaths(docs)
    requires forall f :: f in docs <==> f in vault && f.file.extension == "md"
    ensures Only(Bucket(UpsertAll(map[], docs, cals, env), d), q) == Only(Bucket(Rebuild(vault, cals, env), d), q)
  {
    if exists f :: f in docs && f.file.path == q {
      var f :| f in docs && f.file.path == q;
      UpsertAllOwn(map[], docs, cals, env, f, d);
      CacheChangeItems(map[], f, cals, env, q, d);
      CacheChangeAgreesWithRebuild(map[], vault, cals, env, f, d);
    } else {
      UpsertAllOther(map[], docs, cals, env, q, d);
      OnlyNone([], q);
      var b := Bucket(Rebuild(vault, cals, env), d);
      forall x | x in b ensures x.path != q {
        RebuildTagged(vault, cals, env, d, x);
        var f :| f in vault && f.file.extension == "md" && x.path == f.file.path;
        assert f in docs;
      }
      OnlyNone(b, q);
    }
  }

  /** What a rename yields for the new file: nothing unless it is a markdown file. */
  function RenameEntries(doc: Document, cals: seq<CalendarConfig>, env: Env): seq<Entry> {
    if doc.file.extension == "md" then DocumentEntries(doc, cals, env, true) else []
  }

  /** The index after `oldPath` was renamed to the file of `doc`. */
  function RenameState(m: CalendarDaysMap, doc: Document, oldPath: string, cals: seq<CalendarConfig>, env: Env): CalendarDaysMap {
    AddAll(RemovePath(m, oldPath), RenameEntries(doc, cals, env))
  }

  /** A rename notifies when the old path had items or the new file yields some. */
  predicate RenameNotifies(m: CalendarDaysMap, doc: Document, oldPath: string, cals: seq<CalendarConfig>, env: Env) {
    HasPath(m, oldPath) || RenameEntries(doc, cals, env) != []
  }

  /**
   * A rename that does not notify leaves the index as it was, and after a
   * rename to another path no item of the old path is left.
   */
  lemma RenameOutcome(m: CalendarDaysMap, doc: Document, oldPath: string, cals: seq<CalendarConfig>, env: Env)
    ensures !RenameNotifies(m, doc, oldPath, cals, env) ==> RenameState(m, doc, oldPath, cals, env) == m
    ensures oldPath != doc.file.path ==> !HasPath(RenameState(m, doc, oldPath, cals, env), oldPath)
  {
    RemovePathChanged(m, oldPath);
    if oldPath != doc.file.path {
      var es := RenameEntries(doc, cals, env);
      CalendarsEntriesTagged(doc, Enabled(cals), env, true);
      RemovalComplete(m, oldPath);
      AddAllAbsent(RemovePath(m, oldPath), es, oldPath);
    }
  }

  /** What a created file yields: front-matter calendars wait for the metadata event. */
  function CreateEntries(doc: Document, cals: seq<CalendarConfig>, env: Env): seq<Entry> {
    DocumentEntries(doc, cals, env, false)
  }

  /** The index after `doc` was created; files other than markdown are ignored. */
  function CreateState(m: CalendarDaysMap, doc: Document, cals: seq<CalendarConfig>, env: Env): CalendarDaysMap {
    if doc.file.extension == "md" then Upsert(m, doc.file.path, CreateEntries(doc, cals, env)) else m
  }

  /**
   * A created file yields no item from a front-matter calendar: every item
   * carries the id of an enabled calendar of another source type, and the
   * entries are exactly those of the registry without its front-matter
   * calendars.
   */
  lemma CreateEntriesNotYaml(doc: Document, cals: seq<CalendarConfig>, env: Env)
    ensures CreateEntries(doc, cals, env) == CalendarsEntries(doc, WithoutYaml(Enabled(cals)), env, true)
    ensures var es := CreateEntries(doc, cals, env);
            forall i :: 0 <= i < |es| ==>
              es[i].item.path == doc.file.path
              && exists c :: c in cals && c.enabled && c.sourceType != YamlSource && es[i].item.calendarId == Some(c.id)
  {
    CreateSkipsYaml(doc, Enabled(cals), env);
    CalendarsEntriesTagged(doc, WithoutYaml(Enabled(cals)), env, true);
  }

  /* ---------------- the plugin ---------------- */

  /**
   * One calendar after the other over one document (the `for` loops over
   * `calendars.filter(cal => cal.enabled)` of every handler).
   */
  method ApplyCalendars(days: CalendarDaysMap, doc: Document, cals: seq<CalendarConfig>, env: Env, withYaml: bool)
    returns (r: CalendarDaysMap, changeFlag: bool)
    ensures r == AddAll(days, CalendarsEntries(doc, cals, env, withYaml))
    ensures changeFlag == (CalendarsEntries(doc, cals, env, withYaml) != [])
  {
    r, changeFlag := days, false;
    for i := 0 to |cals|
      invariant r == AddAll(days, CalendarsEntries(doc, cals[..i], env, withYaml))
      invariant changeFlag == (CalendarsEntries(doc, cals[..i], env, withYaml) != [])
    {
      ghost var before := CalendarsEntries(doc, cals[..i], env, withYaml);
      var found;
      r, found := ApplyCalendar(r, doc, cals[i], env, withYaml);
      AddAllConcat(days, before, CalendarEntries(doc, cals[i], env, withYaml));
      assert cals[..i + 1][..i] == cals[..i];
      changeFlag := changeFlag || found;
    }
    assert cals[..|cals|] == cals;
  }

  /**
   * The removal loop's picture of the index: the days still in `keys` are as
   * they were, the visited ones are filtered or, when emptied, gone.
   */
  ghost predicate RemovalProgress(m: CalendarDaysMap, current: CalendarDaysMap, keys: set<string>, p: string) {
    && (forall k :: k in current <==> k in m && (k in keys || !EmptiedBy(m[k], p)))
    && (forall k :: k in current ==> current[k] == if k in keys then m[k] else Without(m[k], p))
  }

  /** Visiting day `k`: filter it when it holds items of `p`, and drop it when that empties it. */
  lemma RemovalStep(m: CalendarDaysMap, current: CalendarDaysMap, next: CalendarDaysMap, keys: set<string>, k: string, p: string)
    requires k in keys && keys <= m.Keys
    requires RemovalProgress(m, current, keys, p)
    requires HasItemWithPath(m[k], p) && Without(m[k], p) == [] ==> next == current - {k}
    requires HasItemWithPath(m[k], p) && Without(m[k], p) != [] ==> next == current[k := Without(m[k], p)]
    requires !HasItemWithPath(m[k], p) ==> next == current
    ensures RemovalProgress(m, next, keys - {k}, p)
  {
    if !HasItemWithPath(m[k], p) {
      WithoutNothing(m[k], p);
    }
  }

  /** With every day visited, the loop has computed `RemovePath`. */
  lemma RemovalDone(m: CalendarDaysMap, current: CalendarDaysMap, p: string)
    requires RemovalProgress(m, current, {}, p)
    ensures current == RemovePath(m, p)
  {
    assert current.Keys == RemovePath(m, p).Keys;
  }

  /** Visiting one more day of the removal loop adds that day's verdict to the change flag. */
  lemma VisitKey(m: CalendarDaysMap, keys: set<string>, k: string, p: string)
    requires k in keys && k in m
    ensures HasPath(m - (keys - {k}), p) <==> HasPath(m - keys, p) || HasItemWithPath(m[k], p)
  {
    var after, before := m - (keys - {k}), m - keys;
    if HasPath(after, p) {
      var j :| j in after && HasItemWithPath(after[j], p);
      if j != k {
        assert j in before && before[j] == after[j];
      }
    }
    if HasPath(before, p) {
      var j :| j in before && HasItemWithPath(before[j], p);
      assert j in after && after[j] == before[j];
    }
    if HasItemWithPath(m[k], p) {
      assert k in after && after[k] == m[k];
    }
  }

  class CalendarPlugin {
    var settings: PluginSettings
    /** `CALENDAR_DAYS_STATE`. */
    var calendarDaysState: CalendarDaysMap
    var initialScanCompleted: bool
    /** How many `calendarForceUpdate` events were dispatched. */
    var notifications: nat

    predicate Valid()
      reads this
    {
      NoEmptyBuckets(calendarDaysState)
    }

    constructor (settings: PluginSettings)
      ensures this.settings == settings && calendarDaysState == map[]
      ensures !initialScanCompleted && notifications == 0 && Valid()
    {
      this.settings := settings;
      calendarDaysState := map[];
      initialScanCompleted := false;
      notifications := 0;
    }

    /** `calendarForceUpdate`: one more refresh event for the view. */
    method CalendarForceUpdate()
      modifies this`notifications
      ensures notifications == old(notifications) + 1
    {
      notifications := notifications + 1;
    }

    /** `addFilePathToState`: a note item without calendar id, appended to `date`. */
    method AddFilePathToState(date: string, file: File)
      requires Valid()
      modifies this`calendarDaysState
      ensures calendarDaysState == Add(old(calendarDaysState), date, FileToCalendarItem(file, None))
      ensures Valid()
    {
      var newStateMap := calendarDaysState;
      if date in newStateMap {
        newStateMap := newStateMap[date := newStateMap[date] + [FileToCalendarItem(file, None)]];
      } else {
        newStateMap := newStateMap[date := [FileToCalendarItem(file, None)]];
      }
      calendarDaysState := newStateMap;
    }

    /**
     * `removeFilePathFromState`: every day is visited once, in any order;
     * a day holding items of `filePath` is filtered and deleted when that
     * empties it. The flag says whether any item was removed.
     */
    method RemoveFilePathFromState(filePath: string) returns (changeFlag: bool)
      requires Valid()
      modifies this`calendarDaysState
      ensures calendarDaysState == RemovePath(old(calendarDaysState), filePath)
      ensures changeFlag == HasPath(old(calendarDaysState), filePath)
      ensures Valid()
    {
      ghost var m := calendarDaysState;
      changeFlag := false;
      var newStateMap := calendarDaysState;
      var keys := newStateMap.Keys;
      while keys != {}
        invariant keys <= m.Keys
        invariant RemovalProgress(m, newStateMap, keys, filePath)
        invariant changeFlag <==> HasPath(m - keys, filePath)
        decreases keys
      {
        var k :| k in keys;
        ghost var current := newStateMap;
        assert newStateMap[k] == m[k];
        if HasItemWithPath(newStateMap[k], filePath) {
          var originalLength := |newStateMap[k]|;
          var filtered := Without(newStateMap[k], filePath);
          if originalLength != |filtered| {
            changeFlag := true;
          }
          if |filtered| == 0 {
            newStateMap := newStateMap - {k};
          } else {
            newStateMap := newStateMap[k := filtered];
          }
        }
        RemovalStep(m, current, newStateMap, keys, k, filePath);
        VisitKey(m, keys, k, filePath);
        keys := keys - {k};
      }
      assert m - {} == m;
      RemovalDone(m, newStateMap, filePath);
      calendarDaysState := newStateMap;
      RemovePathNoEmpty(m, filePath);
    }

    /** `getNotesWithDates`: a fresh index over the markdown files of the vault. */
    method GetNotesWithDates(vault: seq<Document>, env: Env) returns (calendarDays: CalendarDaysMap)
      ensures calendarDays == Rebuild(vault, settings.calendars, env)
    {
      var mdFiles := MarkdownFiles(vault);
      var enabled := Enabled(settings.calendars);
      calendarDays := map[];
      for i := 0 to |mdFiles|
        invariant calendarDays == AddAll(map[], RebuildEntries(mdFiles[..i], enabled, env))
      {
        ghost var before := RebuildEntries(mdFiles[..i], enabled, env);
        var found;
        calendarDays, found := ApplyCalendars(calendarDays, mdFiles[i], enabled, env, true);
        AddAllConcat(map[], before, CalendarsEntries(mdFiles[i], enabled, env, true));
        assert mdFiles[..i + 1][..i] == mdFiles[..i];
      }
      assert mdFiles[..|mdFiles|] == mdFiles;
    }

    /** The metadata `resolved` event: the first one builds the index and refreshes the view, later ones do nothing. */
    method OnMetadataResolved(vault: seq<Document>, env: Env)
      modifies this`calendarDaysState, this`initialScanCompleted, this`notifications
      ensures !old(initialScanCompleted) ==>
                calendarDaysState == Rebuild(vault, settings.calendars, env) && initialScanCompleted
                && notifications == old(notifications) + 1
      ensures old(initialScanCompleted) ==>
                calendarDaysState == old(calendarDaysState) && initialScanCompleted
                && notifications == old(notifications)
      ensures old(Valid()) ==> Valid()
    {
      if !initialScanCompleted {
        calendarDaysState := GetNotesWithDates(vault, env);
        RebuildNoEmpty(vault, settings.calendars, env);
        initialScanCompleted := true;
        CalendarForceUpdate();
      }
    }

    /** The layout-ready callback: the index is rebuilt, the view is not refreshed. */
    method OnLayoutReady(vault: seq<Document>, env: Env)
      modifies this`calendarDaysState
      ensures calendarDaysState == Rebuild(vault, settings.calendars, env)
      ensures Valid()
    {
      calendarDaysState := GetNotesWithDates(vault, env);
      RebuildNoEmpty(vault, settings.calendars, env);
    }

    /** `handleCacheChange`: the file is re-scanned against every enabled calendar and the view always refreshed. */
    method HandleCacheChange(doc: Document, env: Env)
      requires Valid()
      modifies this`calendarDaysState, this`notifications
      ensures calendarDaysState == CacheChangeState(old(calendarDaysState), doc, settings.calendars, env)
      ensures notifications == old(notifications) + 1
      ensures Valid()
    {
      ghost var m := calendarDaysState;
      var removed := RemoveFilePathFromState(doc.file.path);
      var found;
      calendarDaysState, found := ApplyCalendars(calendarDaysState, doc, Enabled(settings.calendars), env, true);
      CacheChangeIdempotent(m, doc, settings.calendars, env);
      CalendarForceUpdate();
    }

    /**
     * `handleRename`: the old path is dropped; a markdown file is re-scanned
     * under its new path; the view is refreshed only if either step changed
     * something.
     */
    method HandleRename(doc: Document, oldPath: string, env: Env)
      requires Valid()
      modifies this`calendarDaysState, this`notifications
      ensures calendarDaysState == RenameState(old(calendarDaysState), doc, oldPath, settings.calendars, env)
      ensures notifications == old(notifications)
                + if RenameNotifies(old(calendarDaysState), doc, oldPath, settings.calendars, env) then 1 else 0
      ensures Valid()
    {
      ghost var m := calendarDaysState;
      var changeFlag := RemoveFilePathFromState(oldPath);
      if doc.file.extension == "md" {
        var found;
        calendarDaysState, found := ApplyCalendars(calendarDaysState, doc, Enabled(settings.calendars), env, true);
        changeFlag := changeFlag || found;
      }
      RemovePathNoEmpty(m, oldPath);
      AddAllNoEmpty(RemovePath(m, oldPath), RenameEntries(doc, settings.calendars, env));
      if changeFlag {
        CalendarForceUpdate();
      }
    }

    /** `handleDelete`: the path is dropped; the view is refreshed only if something was removed. */
    method HandleDelete(path: string)
      requires Valid()
      modifies this`calendarDaysState, this`notifications
      ensures calendarDaysState == RemovePath(old(calendarDaysState), path)
      ensures notifications == old(notifications) + if HasPath(old(calendarDaysState), path) then 1 else 0
      ensures Valid()
    {
      var changeFlag := RemoveFilePathFromState(path);
      if changeFlag {
        CalendarForceUpdate();
      }
    }

    /**
     * `handleCreate`: a markdown file is scanned against every enabled
     * calendar but the front-matter ones; the view is refreshed only if the
     * scan found something (a removal alone does not count).
     */
    method HandleCreate(doc: Document, env: Env)
      requires Valid()
      modifies this`calendarDaysState, this`notifications
      ensures calendarDaysState == CreateState(old(calendarDaysState), doc, settings.calendars, env)
      ensures notifications == old(notifications)
                + if doc.file.extension == "md" && CreateEntries(doc, settings.calendars, env) != [] then 1 else 0
      ensures Valid()
    {
      if doc.file.extension == "md" {
        ghost var m := calendarDaysState;
        var removed := RemoveFilePathFromState(doc.file.path);
        var changeFlag;
        calendarDaysState, changeFlag := ApplyCalendars(calendarDaysState, doc, Enabled(settings.calendars), env, false);
        RemovePathNoEmpty(m, doc.file.path);
        AddAllNoEmpty(RemovePath(m, doc.file.path), CreateEntries(doc, settings.calendars, env));
        if changeFlag {
          CalendarForceUpdate();
        }
      }
    }
  }
}
