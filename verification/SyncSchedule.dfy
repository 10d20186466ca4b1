/** The two separately written due-checks of account collection, the daily archive check, and the keys they share. */
module SyncSchedule {
  import opened AccountSnapshots
  import opened ArchiveDay
  import opened Options
  import opened TaskTables
  import Text

  const SYNC_INTERVAL := 900
  const FAILURE_COOLDOWN := 60
  const CLAUDE_GATEWAY := "claude_gateway"

  datatype ScheduleState = ScheduleState(attemptedAt: int, status: string, vendorMetadata: bool)

  /** A row with its primary key, as the query returns it. */
  datatype Entry = Entry(key: Key, row: Row)

  const UNKNOWN := ScheduleState(0, "", false)

  function ScheduleKey(key: Key): string {
    Text.Decimal(key.instanceId) + ":" + key.kind + ":" + key.rangeKey
  }

  /** Keys with the same text are the same key: instance numbers and kinds hold no colon, ranges may. */
  lemma ScheduleKeysDiffer(a: Key, b: Key)
    requires ':' !in a.kind && ':' !in b.kind
    requires ScheduleKey(a) == ScheduleKey(b)
    ensures a == b
  {
    Text.DecimalShape(a.instanceId);
    Text.DecimalShape(b.instanceId);
    var x, y := a.kind + ":" + a.rangeKey, b.kind + ":" + b.rangeKey;
    assert ScheduleKey(a) == Text.Decimal(a.instanceId) + ":" + x;
    assert ScheduleKey(b) == Text.Decimal(b.instanceId) + ":" + y;
    Text.FirstColon(Text.Decimal(a.instanceId), x, Text.Decimal(b.instanceId), y);
    Text.DecimalInjective(a.instanceId, b.instanceId);
    Text.FirstColon(a.kind, a.rangeKey, b.kind, b.rangeKey);
  }

  function StateOf(key: Key, row: Row): ScheduleState {
    ScheduleState(row.attempt.at, row.attempt.status, key.kind != INVENTORY || row.content.schema >= SCHEMA)
  }

  /** The keys a standard run collects: the inventory and every preset range. */
  function RequiredKeys(instanceId: int): (keys: seq<Key>)
    ensures forall k :: k in keys ==> k.instanceId == instanceId && ':' !in k.kind && Eligible(k)
    ensures forall k: Key :: k.instanceId == instanceId && Eligible(k) ==> k in keys
  {
    var keys := [InventoryKey(instanceId)] + seq(4, i requires 0 <= i < 4 => Key(instanceId, OUTPUT, PRESET_RANGES[i]));
    assert keys[1].rangeKey == PRESET_RANGES[0] && keys[2].rangeKey == PRESET_RANGES[1];
    assert keys[3].rangeKey == PRESET_RANGES[2] && keys[4].rangeKey == PRESET_RANGES[3];
    keys
  }

  // ---------------------------------------------------------------- what the checks decide

  function Cooldown(status: string): int {
    if status == FAILED then FAILURE_COOLDOWN else SYNC_INTERVAL
  }

  /** The row is missing, was never attempted, or its cooldown is over. */
  predicate RowDue(row: Option<Row>, now: int) {
    row.None? || row.value.attempt.at == 0 || now - row.value.attempt.at >= Cooldown(row.value.attempt.status)
  }

  function Find(table: map<Key, Row>, key: Key): Option<Row> {
    if key in table then Some(table[key]) else None
  }

  /** The on-demand check for one range. */
  predicate RefreshDue(table: map<Key, Row>, instanceId: int, rangeKey: string, now: int) {
    || RowDue(Find(table, InventoryKey(instanceId)), now)
    || RowDue(Find(table, Key(instanceId, OUTPUT, rangeKey)), now)
  }

  predicate RefreshDueForSomePreset(table: map<Key, Row>, instanceId: int, now: int) {
    exists i :: 0 <= i < |PRESET_RANGES| && RefreshDue(table, instanceId, PRESET_RANGES[i], now)
  }

  /** Some key of a standard run is due. */
  predicate StandardDue(table: map<Key, Row>, instanceId: int, now: int) {
    exists k :: k in RequiredKeys(instanceId) && RowDue(Find(table, k), now)
  }

  /** Inventory of a Claude gateway collected before the current schema lacks vendor metadata. */
  predicate LacksVendorMetadata(table: map<Key, Row>, instanceId: int) {
    InventoryKey(instanceId) in table ==> table[InventoryKey(instanceId)].content.schema < SCHEMA
  }

  predicate InventoryFailed(table: map<Key, Row>, instanceId: int) {
    InventoryKey(instanceId) in table && table[InventoryKey(instanceId)].attempt.status == FAILED
  }

  /** The scheduler's check over the same rows. */
  predicate SyncDue(table: map<Key, Row>, instanceId: int, instanceKind: string, now: int) {
    if instanceKind == CLAUDE_GATEWAY && LacksVendorMetadata(table, instanceId) then
      !InventoryFailed(table, instanceId) || RowDue(Find(table, InventoryKey(instanceId)), now)
    else StandardDue(table, instanceId, now)
  }

  /** Never attempted, or attempted long enough ago: 60 seconds after a failure, 15 minutes after anything else. */
  predicate Waiting(table: map<Key, Row>, k: Key, now: int) {
    k in table ==>
      var attempt := table[k].attempt;
      || attempt.at == 0
      || (attempt.status == "failed" && now >= attempt.at + 60)
      || (attempt.status != "failed" && now >= attempt.at + 900)
  }

  /** One of the five keys of a standard run. */
  predicate StandardKey(k: Key, instanceId: int) {
    && k.instanceId == instanceId
    && ((k.kind == "inventory" && k.rangeKey == "inventory")
        || (k.kind == "account_output" && k.rangeKey in {"preset-1", "preset-7", "preset-14", "preset-30"}))
  }

  /** What the two checks look at: the inventory and one range on demand, any of the five keys in the scheduler. */
  lemma DueInColumns(table: map<Key, Row>, instanceId: int, rangeKey: string, instanceKind: string, now: int)
    ensures RefreshDue(table, instanceId, rangeKey, now)
            <==> Waiting(table, Key(instanceId, "inventory", "inventory"), now)
                 || Waiting(table, Key(instanceId, "account_output", rangeKey), now)
    ensures var k := Key(instanceId, "inventory", "inventory");
            instanceKind == "claude_gateway" && (k in table ==> table[k].content.schema < 4) ==>
              (SyncDue(table, instanceId, instanceKind, now)
               <==> k !in table || table[k].attempt.status != "failed" || Waiting(table, k, now))
    ensures var k := Key(instanceId, "inventory", "inventory");
            !(instanceKind == "claude_gateway" && (k in table ==> table[k].content.schema < 4)) ==>
              (SyncDue(table, instanceId, instanceKind, now)
               <==> exists k :: StandardKey(k, instanceId) && Waiting(table, k, now))
  {
    forall k: Key
      ensures RowDue(Find(table, k), now) <==> Waiting(table, k, now)
      ensures k in RequiredKeys(instanceId) <==> StandardKey(k, instanceId)
    {
      EligibleKeys(k);
    }
  }

  lemma AnyPresetIsAnyKey(table: map<Key, Row>, instanceId: int, now: int)
    ensures StandardDue(table, instanceId, now) <==> RefreshDueForSomePreset(table, instanceId, now)
  {
    if StandardDue(table, instanceId, now) {
      var k :| k in RequiredKeys(instanceId) && RowDue(Find(table, k), now);
      assert Eligible(k);
      if k.kind == INVENTORY {
        assert RefreshDue(table, instanceId, PRESET_RANGES[0], now);
      } else {
        var i :| 0 <= i < |PRESET_RANGES| && PRESET_RANGES[i] == k.rangeKey;
        assert RefreshDue(table, instanceId, PRESET_RANGES[i], now);
      }
    }
    if RefreshDueForSomePreset(table, instanceId, now) {
      var i :| 0 <= i < |PRESET_RANGES| && RefreshDue(table, instanceId, PRESET_RANGES[i], now);
      assert Eligible(InventoryKey(instanceId)) && Eligible(Key(instanceId, OUTPUT, PRESET_RANGES[i]));
      assert InventoryKey(instanceId) in RequiredKeys(instanceId);
      assert Key(instanceId, OUTPUT, PRESET_RANGES[i]) in RequiredKeys(instanceId);
    }
  }

  /** Except for a Claude gateway without vendor metadata the scheduler enqueues exactly when a user's refresh would. */
  lemma SchedulerAgreesWithRefresh(table: map<Key, Row>, instanceId: int, instanceKind: string, now: int)
    requires instanceKind == CLAUDE_GATEWAY ==> !LacksVendorMetadata(table, instanceId)
    ensures SyncDue(table, instanceId, instanceKind, now) <==> RefreshDueForSomePreset(table, instanceId, now)
  {
    AnyPresetIsAnyKey(table, instanceId, now);
  }

  /** For a Claude gateway without it the scheduler looks at the inventory alone, and so errs in two ways. */
  lemma GatewayLooksAtInventoryOnly(table: map<Key, Row>, instanceId: int, now: int)
    requires LacksVendorMetadata(table, instanceId)
    // It misses outputs that are due while a failed inventory cools down.
    ensures RefreshDueForSomePreset(table, instanceId, now) && !SyncDue(table, instanceId, CLAUDE_GATEWAY, now)
            <==> InventoryFailed(table, instanceId) && !RowDue(Find(table, InventoryKey(instanceId)), now)
                 && exists i :: 0 <= i < |PRESET_RANGES|
                                && RowDue(Find(table, Key(instanceId, OUTPUT, PRESET_RANGES[i])), now)
    // It runs although nothing is due while an inventory that did not fail is fresh.
    ensures SyncDue(table, instanceId, CLAUDE_GATEWAY, now) && !RefreshDueForSomePreset(table, instanceId, now)
            <==> InventoryKey(instanceId) in table && !InventoryFailed(table, instanceId)
                 && forall k :: k in RequiredKeys(instanceId) ==> !RowDue(Find(table, k), now)
  {
    assert Eligible(InventoryKey(instanceId)) && InventoryKey(instanceId) in RequiredKeys(instanceId);
    AnyPresetIsAnyKey(table, instanceId, now);
  }

  /** A collection that failed without saying more. */
  function FailedSave(key: Key, now: int): Save {
    Save(EMPTY, "", "", key.instanceId, key.kind, Range(key.rangeKey, 0, 0, 0, DEFAULT_TIMEZONE), None,
         Some(COLLECTION_FAILED), now)
  }

  /**
   The first way is reached by copying an old inventory and failing to collect a new one: the failure keeps the old
   schema, where a failure without the copy would have written the current one.
   */
  lemma GatewayMissesOutputs(instanceId: int)
    ensures var events := [Backfilled(instanceId, Some(Legacy(1, 500, "", "{}"))),
                           Saved(FailedSave(InventoryKey(instanceId), 1000))];
            var table := Play(events).latest;
            LacksVendorMetadata(table, instanceId) && !SyncDue(table, instanceId, CLAUDE_GATEWAY, 1010)
            && RefreshDueForSomePreset(table, instanceId, 1010)
  {
    var copy := Backfilled(instanceId, Some(Legacy(1, 500, "", "{}")));
    var failed := Saved(FailedSave(InventoryKey(instanceId), 1000));
    assert [copy, failed][..1] == [copy] && [copy][..0] == [];
    assert Play([copy]).latest == map[InventoryKey(instanceId) := LegacyRow(copy.legacy.value)];
    assert Play([copy, failed]) == After(Play([copy]), failed);
    var table := Play([copy, failed]).latest;
    assert RefreshDue(table, instanceId, PRESET_RANGES[0], 1010);
  }

  lemma LaterSaveFrame(events: seq<Event>, save: Save, key: Key)
    requires save.Commits() && save.Target() != key
    ensures Find(Play(events + [Saved(save)]).latest, key) == Find(Play(events).latest, key)
  {
    assert (events + [Saved(save)])[..|events|] == events;
  }

  /** The second by copying it and attempting every output: the copied inventory is fresh, yet the scheduler runs. */
  lemma GatewayRunsForNothing(instanceId: int) returns (events: seq<Event>)
    ensures var table := Play(events).latest;
            LacksVendorMetadata(table, instanceId) && SyncDue(table, instanceId, CLAUDE_GATEWAY, 1010)
            && !RefreshDueForSomePreset(table, instanceId, 1010)
  {
    var copy := Backfilled(instanceId, Some(Legacy(1, 1000, "", "{}")));
    events := [copy];
    assert [copy][..0] == [];
    var i := 0;
    while i < |PRESET_RANGES|
      invariant 0 <= i <= |PRESET_RANGES|
      invariant Find(Play(events).latest, InventoryKey(instanceId)) == Some(LegacyRow(copy.legacy.value))
      invariant forall j :: 0 <= j < i ==>
        !RowDue(Find(Play(events).latest, Key(instanceId, OUTPUT, PRESET_RANGES[j])), 1010)
    {
      var save := FailedSave(Key(instanceId, OUTPUT, PRESET_RANGES[i]), 1000);
      ghost var before := events;
      LaterSaveFrame(before, save, InventoryKey(instanceId));
      forall j | 0 <= j < i && PRESET_RANGES[j] != PRESET_RANGES[i] {
        LaterSaveFrame(before, save, Key(instanceId, OUTPUT, PRESET_RANGES[j]));
      }
      events := events + [Saved(save)];
      assert events[..|before|] == before;
      assert Find(Play(events).latest, save.Target()).value.attempt == Attempt(1000, FAILED, COLLECTION_FAILED);
      i := i + 1;
    }
  }

  /** Once due a check stays due until something is saved. */
  lemma DueStaysDue(table: map<Key, Row>, instanceId: int, instanceKind: string, rangeKey: string, now: int, later: int)
    requires now <= later
    ensures SyncDue(table, instanceId, instanceKind, now) ==> SyncDue(table, instanceId, instanceKind, later)
    ensures RefreshDue(table, instanceId, rangeKey, now) ==> RefreshDue(table, instanceId, rangeKey, later)
  {
    assert forall row :: RowDue(row, now) ==> RowDue(row, later);
    if StandardDue(table, instanceId, now) {
      var k :| k in RequiredKeys(instanceId) && RowDue(Find(table, k), now);
      assert RowDue(Find(table, k), later);
    }
  }

  // ---------------------------------------------------------------- how they are computed

  /** The scheduler's map from text keys mirrors the rows of the instances it was filled for. */
  ghost predicate Mirrors(latest: map<string, ScheduleState>, table: map<Key, Row>, instanceId: int) {
    forall k: Key :: k.instanceId == instanceId && Eligible(k) ==> MirrorsKey(latest, table, k)
  }

  predicate MirrorsKey(latest: map<string, ScheduleState>, table: map<Key, Row>, k: Key) {
    (if ScheduleKey(k) in latest then latest[ScheduleKey(k)] else UNKNOWN)
    == if k in table then StateOf(k, table[k]) else UNKNOWN
  }

  /** The rows fetched for a batch of instances: those of the table under the eligible keys, each once. */
  ghost predicate Fetched(rows: seq<Entry>, table: map<Key, Row>, ids: set<int>) {
    && (forall i :: 0 <= i < |rows| ==> rows[i].key.instanceId in ids && Eligible(rows[i].key)
                                        && rows[i].key in table && table[rows[i].key] == rows[i].row)
    && (forall k :: k in table && k.instanceId in ids && Eligible(k) ==>
        exists i :: 0 <= i < |rows| && rows[i].key == k)
  }

  /** The map after the first `n` rows, for keys rendered by `text`. */
  ghost predicate Filled(latest: map<string, ScheduleState>, rows: seq<Entry>, n: nat, text: Key -> string)
    requires n <= |rows|
  {
    && (forall t :: t in latest ==> exists j :: 0 <= j < n && t == text(rows[j].key))
    && (forall j :: 0 <= j < n ==> text(rows[j].key) in latest
                                   && latest[text(rows[j].key)] == StateOf(rows[j].key, rows[j].row))
  }

  ghost predicate TellsApart(text: Key -> string) {
    forall a, b :: Eligible(a) && Eligible(b) && text(a) == text(b) ==> a == b
  }

  lemma FilledMore(latest: map<string, ScheduleState>, rows: seq<Entry>, n: nat, text: Key -> string,
                   table: map<Key, Row>, ids: set<int>)
    requires Fetched(rows, table, ids) && TellsApart(text) && n < |rows| && Filled(latest, rows, n, text)
    ensures Filled(latest[text(rows[n].key) := StateOf(rows[n].key, rows[n].row)], rows, n + 1, text)
  {
  }

  lemma FilledMirrors(latest: map<string, ScheduleState>, rows: seq<Entry>, text: Key -> string,
                      table: map<Key, Row>, ids: set<int>, k: Key)
    requires Fetched(rows, table, ids) && TellsApart(text) && Filled(latest, rows, |rows|, text)
    requires k.instanceId in ids && Eligible(k)
    ensures text(k) in latest <==> k in table
    ensures text(k) in latest ==> latest[text(k)] == StateOf(k, table[k])
  {
    if text(k) in latest {
      var j :| 0 <= j < |rows| && text(k) == text(rows[j].key);
      assert rows[j].key == k;
    }
  }

  /** The scheduler's loop over the fetched rows. */
  method ScheduleStates(rows: seq<Entry>, ghost table: map<Key, Row>, ghost ids: set<int>)
    returns (latest: map<string, ScheduleState>)
    requires Fetched(rows, table, ids)
    ensures forall id :: id in ids ==> Mirrors(latest, table, id)
  {
    assert TellsApart(ScheduleKey) by {
      forall a: Key, b: Key | Eligible(a) && Eligible(b) && ScheduleKey(a) == ScheduleKey(b)
        ensures a == b
      {
        ScheduleKeysDiffer(a, b);
      }
    }
    latest := map[];
    var i := 0;
    while i < |rows|
      invariant 0 <= i <= |rows| && Filled(latest, rows, i, ScheduleKey)
    {
      FilledMore(latest, rows, i, ScheduleKey, table, ids);
      latest := latest[ScheduleKey(rows[i].key) := StateOf(rows[i].key, rows[i].row)];
      i := i + 1;
    }
    forall k: Key | k.instanceId in ids && Eligible(k)
      ensures MirrorsKey(latest, table, k)
    {
      FilledMirrors(latest, rows, ScheduleKey, table, ids, k);
    }
  }

  method ManagedAccountRefreshDue(table: map<Key, Row>, instanceId: int, rangeKey: string, now: int) returns (due: bool)
    ensures due == RefreshDue(table, instanceId, rangeKey, now)
  {
    due := SectionNeedsRefresh(Find(table, InventoryKey(instanceId)), now);
    if !due {
      due := SectionNeedsRefresh(Find(table, Key(instanceId, OUTPUT, rangeKey)), now);
    }
  }

  method SectionNeedsRefresh(row: Option<Row>, now: int) returns (due: bool)
    ensures due == RowDue(row, now)
  {
    if row.None? || row.value.attempt.at == 0 {
      return true;
    }
    var cooldown := SYNC_INTERVAL;
    if row.value.attempt.status == FAILED {
      cooldown := FAILURE_COOLDOWN;
    }
    return now - row.value.attempt.at >= cooldown;
  }

  method ManagedAccountStandardSyncDue(instanceId: int, instanceKind: string, latest: map<string, ScheduleState>,
                                       now: int, ghost table: map<Key, Row>) returns (due: bool)
    requires Mirrors(latest, table, instanceId)
    ensures due == SyncDue(table, instanceId, instanceKind, now)
  {
    var inventoryKey := ScheduleKey(InventoryKey(instanceId));
    if instanceKind == CLAUDE_GATEWAY {
      var inventory := if inventoryKey in latest then latest[inventoryKey] else UNKNOWN;
      if !inventory.vendorMetadata {
        if inventory.status != FAILED {
          return true;
        }
        return inventory.attemptedAt == 0 || now >= inventory.attemptedAt + FAILURE_COOLDOWN;
      }
    }
    var required := RequiredKeys(instanceId);
    due := SomeKeyDue(required, latest, now, table);
  }

  method CooldownOver(state: ScheduleState, now: int) returns (over: bool)
    ensures over == (now >= state.attemptedAt + Cooldown(state.status))
  {
    var cooldown := SYNC_INTERVAL;
    if state.status == FAILED {
      cooldown := FAILURE_COOLDOWN;
    }
    return now >= state.attemptedAt + cooldown;
  }

  method SomeKeyDue(required: seq<Key>, latest: map<string, ScheduleState>, now: int, ghost table: map<Key, Row>)
    returns (due: bool)
    requires forall k :: k in required ==> MirrorsKey(latest, table, k)
    ensures due <==> exists k :: k in required && RowDue(Find(table, k), now)
  {
    var i := 0;
    while i < |required|
      invariant 0 <= i <= |required|
      invariant forall j :: 0 <= j < i ==> !RowDue(Find(table, required[j]), now)
    {
      assert MirrorsKey(latest, table, required[i]);
      var text := ScheduleKey(required[i]);
      var state := if text in latest then latest[text] else UNKNOWN;
      assert RowDue(Find(table, required[i]), now) <==>
             state.attemptedAt == 0 || now >= state.attemptedAt + Cooldown(state.status);
      assert required[i] in required;
      if state.attemptedAt == 0 {
        return true;
      }
      var over := CooldownOver(state, now);
      if over {
        return true;
      }
      i := i + 1;
    }
    return false;
  }

  // ---------------------------------------------------------------- the daily archive

  /**
   A collected range whose copy for the day is still missing and was not attempted since midnight, or is due again.
   */
  predicate ArchiveDue(table: map<Key, Row>, archived: set<Key>, instanceId: int, boundaryAt: int, now: int) {
    exists k :: k in RequiredKeys(instanceId) && k !in archived && StaleSince(table, k, boundaryAt, now)
  }

  predicate StaleSince(table: map<Key, Row>, k: Key, boundaryAt: int, now: int) {
    RowDue(Find(table, k), now) || table[k].attempt.at < boundaryAt
  }

  /** A key of the standard run calls for its day's copy when it waits, or was last attempted before the day began. */
  lemma ArchiveDueInColumns(table: map<Key, Row>, archived: set<Key>, instanceId: int, boundaryAt: int, now: int)
    ensures ArchiveDue(table, archived, instanceId, boundaryAt, now)
            <==> exists k :: StandardKey(k, instanceId) && k !in archived
                             && (Waiting(table, k, now) || table[k].attempt.at < boundaryAt)
  {
    forall k: Key
      ensures RowDue(Find(table, k), now) <==> Waiting(table, k, now)
      ensures k in RequiredKeys(instanceId) <==> StandardKey(k, instanceId)
    {
      EligibleKeys(k);
    }
  }

  method ManagedAccountDailyArchiveSyncDue(instanceId: int, latest: map<string, ScheduleState>,
                                           dailyArchived: set<string>, boundaryAt: int, now: int,
                                           ghost table: map<Key, Row>, ghost archived: set<Key>)
    returns (due: bool)
    requires Mirrors(latest, table, instanceId)
    requires forall k: Key :: k.instanceId == instanceId && Eligible(k) ==>
               (ScheduleKey(k) in dailyArchived <==> k in archived)
    ensures due == ArchiveDue(table, archived, instanceId, boundaryAt, now)
  {
    var required := RequiredKeys(instanceId);
    due := SomeArchiveDue(required, latest, dailyArchived, boundaryAt, now, table, archived);
  }

  method SomeArchiveDue(required: seq<Key>, latest: map<string, ScheduleState>, dailyArchived: set<string>,
                        boundaryAt: int, now: int, ghost table: map<Key, Row>, ghost archived: set<Key>)
    returns (due: bool)
    requires forall k :: k in required ==>
               MirrorsKey(latest, table, k) && (ScheduleKey(k) in dailyArchived <==> k in archived)
    ensures due <==> exists k :: k in required && k !in archived && StaleSince(table, k, boundaryAt, now)
  {
    var i := 0;
    while i < |required|
      invariant 0 <= i <= |required|
      invariant forall j :: 0 <= j < i ==> required[j] in archived || !StaleSince(table, required[j], boundaryAt, now)
    {
      assert MirrorsKey(latest, table, required[i]);
      assert ScheduleKey(required[i]) in dailyArchived <==> required[i] in archived;
      var text := ScheduleKey(required[i]);
      if text !in dailyArchived {
        var state := if text in latest then latest[text] else UNKNOWN;
        assert StaleSince(table, required[i], boundaryAt, now) <==>
               state.attemptedAt == 0 || state.attemptedAt < boundaryAt
               || now >= state.attemptedAt + Cooldown(state.status);
        assert required[i] in required;
        if state.attemptedAt == 0 || state.attemptedAt < boundaryAt {
          return true;
        }
        var over := CooldownOver(state, now);
        if over {
          return true;
        }
      }
      i := i + 1;
    }
    return false;
  }

  ghost predicate ArchivedOn(events: seq<Event>, key: Key, t: int) {
    exists e :: e in events && ArchivesAt(e, DailyKey(key, DateOf(t)))
  }

  function ArchivedKeys(daily: map<DailyKey, DailyRow>, t: int): set<Key> {
    set slot | slot in daily && slot.date == DateOf(t) :: slot.key
  }

  /**
   Over any history the daily check asks for a run exactly when some required range has no eligible success observed
   on the local day of `now` and was not attempted since that day began, or its cooldown is over.
   */
  lemma ArchiveDueOverHistory(events: seq<Event>, instanceId: int, now: int)
    ensures var s := Play(events);
            ArchiveDue(s.latest, ArchivedKeys(s.daily, now), instanceId, Boundary(now), now)
            <==> exists k :: k in RequiredKeys(instanceId) && !ArchivedOn(events, k, now)
                             && StaleSince(s.latest, k, Boundary(now), now)
  {
    var s := Play(events);
    forall k: Key
      ensures k in ArchivedKeys(s.daily, now) <==> ArchivedOn(events, k, now)
    {
      NothingElseArchived(events, DailyKey(k, DateOf(now)));
      assert DailyKey(k, DateOf(now)) in s.daily ==> k in ArchivedKeys(s.daily, now);
    }
  }
}
