/**
 The snapshot tables of managed accounts: one row per (instance, kind, range) with the
 latest success and the latest attempt, and one immutable row per day with the first
 success of that day. A history is the sequence of saves and backfills in commit order.
 */
module AccountSnapshots {
  import opened ArchiveDay
  import opened Options
  import opened TaskTables
  import TaskFence
  import TaskStatements

  const INVENTORY := "inventory"
  const OUTPUT := "account_output"
  const INVENTORY_RANGE := "inventory"
  const PRESET_RANGES := ["preset-1", "preset-7", "preset-14", "preset-30"]
  const SUCCEEDED := "succeeded"
  const FAILED := "failed"
  const COLLECTION_FAILED := "collection_failed"
  const DEFAULT_TIMEZONE := "Asia/Shanghai"
  const SCHEMA := 4

  datatype Range = Range(rangeKey: string, presetDays: int, start: int, end: int, timezone: string)

  /** `data` is the JSON text of the collected data, absent when it cannot be encoded. */
  datatype Observation = Observation(status: string, errorCode: string, observedAt: int, etag: string,
                                     data: Option<string>)

  datatype Key = Key(instanceId: int, kind: string, rangeKey: string)

  /** The columns only a success or a backfill may write. */
  datatype Content = Content(schema: int, observedAt: int, etag: string, payload: string)

  datatype Attempt = Attempt(at: int, status: string, errorCode: string)

  datatype Window = Window(presetDays: int, start: int, end: int, timezone: string)

  datatype Row = Row(window: Window, content: Content, attempt: Attempt)

  datatype DailyKey = DailyKey(key: Key, date: Date)

  datatype DailyRow = DailyRow(boundaryAt: int, window: Window, content: Content, capturedAt: int)

  datatype SnapshotTables = SnapshotTables(latest: map<Key, Row>, daily: map<DailyKey, DailyRow>)

  const NOTHING := SnapshotTables(map[], map[])

  /** An inventory observation of the older snapshot table. */
  datatype Legacy = Legacy(schema: int, observedAt: int, etag: string, payload: string)

  /** One call of the save routine; `tasks` are the task tables its transaction reads the lease from. */
  datatype Save = Save(tasks: Tables, taskId: string, runnerId: string, instanceId: int, kind: string, range: Range,
                       observation: Option<Observation>, failure: Option<string>, now: int)
  {
    function Target(): Key {
      Key(instanceId, kind, if kind == INVENTORY then INVENTORY_RANGE else range.rangeKey)
    }

    function Span(): Window {
      Window(range.presetDays, range.start, range.end, range.timezone)
    }

    function Outcome(): Attempt {
      if failure.Some? then Attempt(now, FAILED, failure.value)
      else if observation.None? then Attempt(now, FAILED, COLLECTION_FAILED)
      else if observation.value.status != SUCCEEDED then
        Attempt(now, observation.value.status, observation.value.errorCode)
      else Attempt(now, SUCCEEDED, "")
    }

    /** A collection without an error whose observation reports success. */
    predicate Succeeds() {
      failure.None? && observation.Some? && observation.value.status == SUCCEEDED
    }

    predicate Encodes() {
      Succeeds() ==> observation.value.data.Some?
    }

    function Collected(): Content
      requires Succeeds() && Encodes()
    {
      Content(SCHEMA, observation.value.observedAt, observation.value.etag, observation.value.data.value)
    }

    /** A save on behalf of a task needs that task's lease; without task and runner ids none is asked for. */
    predicate Fenced() {
      taskId != "" && runnerId != "" ==> RequireValidLease(tasks, taskId, runnerId, now)
    }

    /** The transaction commits. */
    predicate Commits() {
      Encodes() && Fenced()
    }

    predicate Archives() {
      Commits() && Succeeds() && Eligible(Target()) && Collected().observedAt > 0 && Collected().payload != ""
    }

    function Slot(): DailyKey
      requires Archives()
    {
      DailyKey(Target(), DateOf(Collected().observedAt))
    }

    function Copy(): DailyRow
      requires Archives()
    {
      DailyRow(Boundary(Collected().observedAt), Span(), Collected(), now)
    }
  }

  predicate Eligible(key: Key) {
    if key.kind == INVENTORY then key.rangeKey == INVENTORY_RANGE
    else key.kind == OUTPUT && key.rangeKey in PRESET_RANGES
  }

  datatype Event = Saved(save: Save) | Backfilled(instanceId: int, legacy: Option<Legacy>)

  function InventoryKey(instanceId: int): Key {
    Key(instanceId, INVENTORY, INVENTORY_RANGE)
  }

  function LegacyRow(legacy: Legacy): Row {
    Row(Window(0, 0, 0, DEFAULT_TIMEZONE),
        Content(if legacy.schema <= 0 then 1 else legacy.schema, legacy.observedAt, legacy.etag, legacy.payload),
        Attempt(legacy.observedAt, SUCCEEDED, ""))
  }

  /** What a row holds before its first success. */
  const BLANK := Content(SCHEMA, 0, "", "")

  function Upserted(latest: map<Key, Row>, save: Save): map<Key, Row>
    requires save.Commits()
  {
    var content := if save.Succeeds() then save.Collected()
                   else if save.Target() in latest then latest[save.Target()].content
                   else BLANK;
    latest[save.Target() := Row(save.Span(), content, save.Outcome())]
  }

  function Archived(daily: map<DailyKey, DailyRow>, save: Save): map<DailyKey, DailyRow> {
    if save.Archives() && save.Slot() !in daily then daily[save.Slot() := save.Copy()] else daily
  }

  function After(s: SnapshotTables, event: Event): SnapshotTables {
    match event
    case Saved(save) =>
      if save.Commits() then SnapshotTables(Upserted(s.latest, save), Archived(s.daily, save)) else s
    case Backfilled(instanceId, legacy) =>
      if InventoryKey(instanceId) !in s.latest && legacy.Some? then
        s.(latest := s.latest[InventoryKey(instanceId) := LegacyRow(legacy.value)])
      else s
  }

  function Play(events: seq<Event>): SnapshotTables {
    if events == [] then NOTHING else After(Play(events[..|events| - 1]), events[|events| - 1])
  }

  // ---------------------------------------------------------------- what a history says

  /** The collection gave an observation that reports success. */
  predicate Good(save: Save) {
    save.failure == None && save.observation.Some? && save.observation.value.status == "succeeded"
  }

  /** Its data cannot be encoded, or the task it is for has lost its lease. */
  predicate Refused(save: Save) {
    || (Good(save) && save.observation.value.data == None)
    || (save.taskId != "" && save.runnerId != "" && !LeaseHeld(save.tasks, save.taskId, save.runnerId, save.now))
  }

  /** An inventory lies under the inventory range, whatever range its task has; outputs lie under their own. */
  predicate Concerns(save: Save, key: Key) {
    && save.instanceId == key.instanceId && save.kind == key.kind
    && key.rangeKey == if save.kind == "inventory" then "inventory" else save.range.rangeKey
  }

  predicate AttemptsAt(e: Event, key: Key) {
    e.Saved? && !Refused(e.save) && Concerns(e.save, key)
  }

  predicate SucceedsAt(e: Event, key: Key) {
    AttemptsAt(e, key) && Good(e.save)
  }

  predicate BackfillsAt(e: Event, key: Key) {
    e.Backfilled? && e.legacy.Some? && key == Key(e.instanceId, "inventory", "inventory")
  }

  /** Days are kept of the inventory and of the four preset outputs, once there is something to keep. */
  predicate ArchivesAt(e: Event, daily: DailyKey) {
    && SucceedsAt(e, daily.key)
    && (daily.key.kind == "inventory"
        || (daily.key.kind == "account_output"
            && daily.key.rangeKey in {"preset-1", "preset-7", "preset-14", "preset-30"}))
    && e.save.observation.value.observedAt > 0 && e.save.observation.value.data != Some("")
    && daily.date == DateOf(e.save.observation.value.observedAt)
  }

  /** What the columns of an observation become. */
  predicate Keeps(content: Content, o: Observation) {
    && content.schema == 4 && content.observedAt == o.observedAt && content.etag == o.etag
    && o.data == Some(content.payload)
  }

  lemma EligibleKeys(key: Key)
    ensures Eligible(key)
            <==> (key.kind == "inventory" && key.rangeKey == "inventory")
                 || (key.kind == "account_output"
                     && key.rangeKey in {"preset-1", "preset-7", "preset-14", "preset-30"})
  {
    assert PRESET_RANGES[0] == "preset-1" && PRESET_RANGES[1] == "preset-7";
    assert PRESET_RANGES[2] == "preset-14" && PRESET_RANGES[3] == "preset-30";
    assert "inventory"[0] != "account_output"[0];
  }

  /** A row exists exactly when something was saved or backfilled under its key. */
  lemma {:induction false} RowExists(events: seq<Event>, key: Key)
    ensures key in Play(events).latest <==> exists e :: e in events && (AttemptsAt(e, key) || BackfillsAt(e, key))
  {
    if events != [] {
      var n := |events| - 1;
      RowExists(events[..n], key);
      assert events[n] in events && forall e :: e in events <==> e in events[..n] || e == events[n];
    }
  }

  /** The row holds the payload, etag and observed time of the most recent successful save, whatever followed it. */
  lemma {:induction false} HoldsLastSuccess(events: seq<Event>, key: Key, i: nat)
    requires i < |events| && SucceedsAt(events[i], key)
    requires forall j :: i < j < |events| ==> !SucceedsAt(events[j], key)
    ensures key in Play(events).latest
    ensures Keeps(Play(events).latest[key].content, events[i].save.observation.value)
  {
    var n := |events| - 1;
    if i < n {
      HoldsLastSuccess(events[..n], key, i);
    }
  }

  /** Its attempt fields are those of the most recent save, successful or not. */
  lemma {:induction false} HoldsLastAttempt(events: seq<Event>, key: Key, i: nat)
    requires i < |events| && AttemptsAt(events[i], key)
    requires forall j :: i < j < |events| ==> !AttemptsAt(events[j], key)
    ensures key in Play(events).latest
    ensures var save, row := events[i].save, Play(events).latest[key];
            && row.attempt.at == save.now
            && (Good(save) ==> row.attempt.status == "succeeded" && row.attempt.errorCode == "")
            && (save.failure.Some? ==> row.attempt.status == "failed" && save.failure == Some(row.attempt.errorCode))
            && (save.failure == None && save.observation == None ==>
                  row.attempt.status == "failed" && row.attempt.errorCode == "collection_failed")
            && (!Good(save) && save.failure == None && save.observation.Some? ==>
                  row.attempt.status == save.observation.value.status
                  && row.attempt.errorCode == save.observation.value.errorCode)
            && row.window.presetDays == save.range.presetDays && row.window.timezone == save.range.timezone
            && row.window.start == save.range.start && row.window.end == save.range.end
  {
    var n := |events| - 1;
    if i < n {
      HoldsLastAttempt(events[..n], key, i);
    }
  }

  /**
   Before the first success the content is the legacy one if a backfill came before every save, and blank otherwise.
   A row that nothing was saved to is the legacy one throughout.
   */
  lemma {:induction false} HoldsLegacyOrNothing(events: seq<Event>, key: Key, i: nat)
    requires i < |events| && (AttemptsAt(events[i], key) || BackfillsAt(events[i], key))
    requires forall j :: 0 <= j < i ==> !AttemptsAt(events[j], key) && !BackfillsAt(events[j], key)
    requires forall j :: 0 <= j < |events| ==> !SucceedsAt(events[j], key)
    ensures key in Play(events).latest
    ensures var content := Play(events).latest[key].content;
            if events[i].Backfilled? then
              var l := events[i].legacy.value;
              && content.schema == (if l.schema < 1 then 1 else l.schema) && content.observedAt == l.observedAt
              && content.etag == l.etag && content.payload == l.payload
            else content == Content(4, 0, "", "")
    ensures (forall j :: 0 <= j < |events| ==> !AttemptsAt(events[j], key)) ==>
              var row := Play(events).latest[key];
              row.window == Window(0, 0, 0, "Asia/Shanghai")
              && row.attempt == Attempt(events[i].legacy.value.observedAt, "succeeded", "")
  {
    var n := |events| - 1;
    if i < n {
      HoldsLegacyOrNothing(events[..n], key, i);
    } else {
      RowExists(events[..n], key);
    }
  }

  /** The archive of a day is the first eligible success observed on it; nothing that follows changes it. */
  lemma {:induction false} ArchivesFirstOfDay(events: seq<Event>, daily: DailyKey, i: nat)
    requires i < |events| && ArchivesAt(events[i], daily)
    requires forall j :: 0 <= j < i ==> !ArchivesAt(events[j], daily)
    ensures daily in Play(events).daily
    ensures var save, row := events[i].save, Play(events).daily[daily];
            && Keeps(row.content, save.observation.value) && row.capturedAt == save.now
            && row.window.presetDays == save.range.presetDays && row.window.timezone == save.range.timezone
            && row.window.start == save.range.start && row.window.end == save.range.end
            && Boundary(row.content.observedAt) == row.boundaryAt <= row.content.observedAt < row.boundaryAt + DAY
  {
    var n := |events| - 1;
    EligibleKeys(daily.key);
    SameDateSameBoundary(events[i].save.observation.value.observedAt, 0);
    if i < n {
      ArchivesFirstOfDay(events[..n], daily, i);
    } else {
      NothingElseArchived(events[..n], daily);
    }
  }

  lemma {:induction false} NothingElseArchived(events: seq<Event>, daily: DailyKey)
    ensures daily in Play(events).daily <==> exists e :: e in events && ArchivesAt(e, daily)
  {
    if events != [] {
      var n := |events| - 1;
      NothingElseArchived(events[..n], daily);
      EligibleKeys(daily.key);
      assert events[n] in events && forall e :: e in events <==> e in events[..n] || e == events[n];
    }
  }

  /**
   Rows archived under one key on the same local day are one row: two observations clash exactly within a boundary.
   */
  lemma OneArchivePerBoundary(a: Save, b: Save)
    requires a.Archives() && b.Archives()
    ensures a.Slot() == b.Slot() <==> a.Target() == b.Target() && a.Copy().boundaryAt == b.Copy().boundaryAt
  {
    SameDateSameBoundary(a.Collected().observedAt, b.Collected().observedAt);
  }

  /** A save whose lease check fails, or whose data cannot be encoded, may be struck from any history. */
  lemma {:induction false} RefusedSaveLeavesNoTrace(events: seq<Event>, i: nat)
    requires i < |events| && events[i].Saved? && Refused(events[i].save)
    ensures Play(events) == Play(events[..i] + events[i + 1..])
  {
    var n := |events| - 1;
    var rest := events[..i] + events[i + 1..];
    if i < n {
      RefusedSaveLeavesNoTrace(events[..n], i);
      assert events[..n][..i] == events[..i] && events[i + 1..][n - i - 1] == events[n];
      assert events[..n][i + 1..] == events[i + 1..][..n - i - 1];
      assert rest[..n - 1] == events[..i] + events[i + 1..][..n - i - 1] && rest[n - 1] == events[n];
    } else {
      assert rest == events[..n];
    }
  }

  /** A worker that lost its place in the task tables never changes a snapshot, whatever the queue does in between. */
  lemma StaleWorkerNeverSaves(s: Tables, cs: seq<TaskStatements.Statement>, save: Save, snapshots: SnapshotTables)
    requires TaskStatements.RowsFit(s) && TaskStatements.LegalRun(s, cs) && save.tasks == TaskStatements.Run(s, cs)
    requires save.taskId != "" && save.runnerId != ""
    requires !TaskFence.Held(s, save.taskId, save.runnerId) && TaskFence.NoClaims(cs, save.taskId, save.runnerId)
    ensures After(snapshots, Saved(save)) == snapshots
  {
    TaskFence.TakeoverIsPermanent(s, cs, save.taskId, save.runnerId);
  }
}
