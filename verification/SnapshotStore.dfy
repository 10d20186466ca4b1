/** The snapshot tables as the service updates them. */
module SnapshotStore {
  import opened AccountSnapshots
  import opened ArchiveDay
  import opened Options
  import TaskTables

  datatype Refusal = NotEncodable | LeaseLost

  class Store {
    var latest: map<Key, Row>
    var daily: map<DailyKey, DailyRow>

    constructor ()
      ensures State() == NOTHING
    {
      latest, daily := map[], map[];
    }

    function State(): SnapshotTables
      reads this
    {
      SnapshotTables(latest, daily)
    }

    /** Saves one collection: an upsert of the latest row and, on success, the day's archive, in one transaction. */
    method SaveSnapshot(save: Save) returns (refusal: Option<Refusal>)
      modifies this
      ensures State() == After(old(State()), Saved(save))
      ensures refusal == Some(NotEncodable) <==> Good(save) && save.observation.value.data == None
      ensures refusal != None <==> Refused(save)
      ensures refusal == None ==>
                var key := Key(save.instanceId, save.kind,
                               if save.kind == "inventory" then "inventory" else save.range.rangeKey);
                && key in latest && latest[key].attempt.at == save.now
                && latest - {key} == old(latest) - {key}
                && if Good(save) then Keeps(latest[key].content, save.observation.value)
                   else latest[key].content == if key in old(latest) then old(latest)[key].content
                                               else Content(4, 0, "", "")
    {
      var status, errorCode := SUCCEEDED, "";
      if save.failure.Some? {
        status, errorCode := FAILED, save.failure.value;
      } else if save.observation.None? {
        status, errorCode := FAILED, COLLECTION_FAILED;
      } else if save.observation.value.status != SUCCEEDED {
        status, errorCode := save.observation.value.status, save.observation.value.errorCode;
      }
      var insert := Row(save.Span(), BLANK, Attempt(save.now, status, errorCode));
      var succeeded := status == SUCCEEDED && save.observation.Some?;
      if succeeded {
        var o := save.observation.value;
        if o.data.None? {
          return Some(NotEncodable);
        }
        insert := insert.(content := Content(SCHEMA, o.observedAt, o.etag, o.data.value));
      }
      if save.taskId != "" && save.runnerId != "" {
        if !TaskTables.RequireValidLease(save.tasks, save.taskId, save.runnerId, save.now) {
          return Some(LeaseLost);
        }
      }
      var key := save.Target();
      if key in latest {
        latest := latest[key := insert.(content := if succeeded then insert.content else latest[key].content)];
      } else {
        latest := latest[key := insert];
      }
      if succeeded {
        ArchiveDaily(key, insert, save.now);
      }
      return None;
    }

    method ArchiveDaily(key: Key, row: Row, capturedAt: int)
      modifies this`daily
      ensures daily == if Eligible(key) && row.content.observedAt > 0 && row.content.payload != ""
                          && DailyKey(key, DateOf(row.content.observedAt)) !in old(daily)
                       then old(daily)[DailyKey(key, DateOf(row.content.observedAt)) :=
                                       DailyRow(Boundary(row.content.observedAt), row.window, row.content, capturedAt)]
                       else old(daily)
    {
      if !Eligible(key) || row.content.observedAt <= 0 || row.content.payload == "" {
        return;
      }
      var slot := DailyKey(key, DateOf(row.content.observedAt));
      if slot !in daily {
        daily := daily[slot := DailyRow(Boundary(row.content.observedAt), row.window, row.content, capturedAt)];
      }
    }

    /** Copies the newest inventory of the older table when no row exists yet. */
    method Backfill(instanceId: int, legacy: Option<Legacy>)
      modifies this`latest
      ensures State() == After(old(State()), Backfilled(instanceId, legacy))
    {
      if InventoryKey(instanceId) in latest || legacy.None? {
        return;
      }
      var schema := legacy.value.schema;
      if schema <= 0 {
        schema := 1;
      }
      var content := Content(schema, legacy.value.observedAt, legacy.value.etag, legacy.value.payload);
      var attempt := Attempt(legacy.value.observedAt, SUCCEEDED, "");
      latest := latest[InventoryKey(instanceId) := Row(Window(0, 0, 0, DEFAULT_TIMEZONE), content, attempt)];
    }
  }
}
