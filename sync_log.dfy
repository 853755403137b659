/** The append-only `sync_log` table (src/domain/sync-log.entity.ts) and the
    latest-timestamp-per-kind lookup of `DomainService.getSyncMetadata`. */
module SyncLog {
  import opened Wrappers

  datatype ServiceName = DomainSync | NawalaCheck | NameServerRefresh

  /** The small integer stored in the `service_name` column. */
  function Code(s: ServiceName): (r: int)
    ensures 1 <= r <= 3
  {
    match s
    case DomainSync => 1
    case NawalaCheck => 2
    case NameServerRefresh => 3
  }

  lemma CodeInjective(a: ServiceName, b: ServiceName)
    requires Code(a) == Code(b)
    ensures a == b
  {
  }

  /** One log row; the timestamp is a clock reading in milliseconds. */
  datatype Entry = Entry(serviceName: ServiceName, timestamp: int)

  /** The greatest timestamp logged for `kind`, or `None` when that kind was never logged
      (`ORDER BY timestamp DESC LIMIT 1`, then `?? null`). */
  function Latest(log: seq<Entry>, kind: ServiceName): (r: Option<int>)
    ensures r.None? <==> forall i :: 0 <= i < |log| ==> log[i].serviceName != kind
    ensures r.Some? ==>
      && (exists i :: 0 <= i < |log| && log[i].serviceName == kind && log[i].timestamp == r.value)
      && (forall i :: 0 <= i < |log| && log[i].serviceName == kind ==> log[i].timestamp <= r.value)
  {
    if |log| == 0 then None
    else
      var last := log[|log| - 1];
      var earlier := Latest(log[..|log| - 1], kind);
      if last.serviceName != kind then earlier
      else if earlier.Some? && earlier.value > last.timestamp then earlier
      else Some(last.timestamp)
  }

  datatype SyncMetadata = SyncMetadata(
    lastDomainSync: Option<int>,
    lastNameServerRefresh: Option<int>,
    lastNawalaCheck: Option<int>)

  /** `getSyncMetadata`: one latest timestamp per kind. */
  function GetSyncMetadata(log: seq<Entry>): (r: SyncMetadata)
    ensures r.lastDomainSync == Latest(log, DomainSync)
    ensures r.lastNameServerRefresh == Latest(log, NameServerRefresh)
    ensures r.lastNawalaCheck == Latest(log, NawalaCheck)
  {
    SyncMetadata(Latest(log, DomainSync), Latest(log, NameServerRefresh), Latest(log, NawalaCheck))
  }

  /** `recordSync`: append one row. */
  function Record(log: seq<Entry>, kind: ServiceName, now: int): (r: seq<Entry>)
    ensures |r| == |log| + 1 && r[..|log|] == log
  {
    log + [Entry(kind, now)]
  }

  /** Recording a kind at a time no earlier than its previous entries makes that time
      its latest, and leaves the latest time of every other kind as it was. */
  lemma RecordThenLatest(log: seq<Entry>, kind: ServiceName, now: int, other: ServiceName)
    requires forall i :: 0 <= i < |log| && log[i].serviceName == kind ==> log[i].timestamp <= now
    ensures Latest(Record(log, kind, now), kind) == Some(now)
    ensures other != kind ==> Latest(Record(log, kind, now), other) == Latest(log, other)
  {
    var r := Record(log, kind, now);
    assert r[..|r| - 1] == log;
  }
}
