/** `InvoiceHistoryRepository`: the version-snapshot table. */
module HistoryTable {
  import opened Wrappers
  import opened Basics
  import opened Seqs
  import opened AuditModel
  import Errors

  function SnapshotOf(invoiceId: Id): InvoiceHistory -> bool {
    (h: InvoiceHistory) => h.invoiceId == invoiceId
  }

  function SnapshotAt(invoiceId: Id, version: int): InvoiceHistory -> bool {
    (h: InvoiceHistory) => h.invoiceId == invoiceId && h.version == version
  }

  function VersionOf(h: InvoiceHistory): int {
    h.version
  }

  /** `findByInvoiceIdOrderByVersionDesc`: exactly the invoice's snapshots, highest version first. */
  function FindByInvoiceIdOrderByVersionDesc(rows: seq<InvoiceHistory>, invoiceId: Id): (r: seq<InvoiceHistory>)
    ensures NonIncreasing(r, VersionOf)
    ensures forall i :: 0 <= i < |r| ==> r[i].invoiceId == invoiceId && r[i] in rows
    ensures forall k :: 0 <= k < |rows| && rows[k].invoiceId == invoiceId ==> rows[k] in r
    ensures multiset(r) == multiset(Filter(rows, SnapshotOf(invoiceId)))
  {
    Query(rows, SnapshotOf(invoiceId), VersionOf)
  }

  /**
   * `findByInvoiceIdAndVersion`: absent when no snapshot has that invoice and version, the snapshot
   * when exactly one has, and an incorrect-result-size error when several have, since no unique
   * constraint covers the pair.
   */
  function FindByInvoiceIdAndVersion(rows: seq<InvoiceHistory>, invoiceId: Id, version: int): (r: Result<Option<InvoiceHistory>, Errors.Error>)
    ensures r == Success(None) <==> forall k :: 0 <= k < |rows| ==> !(rows[k].invoiceId == invoiceId && rows[k].version == version)
    ensures r.Failure? <==> exists i, j :: 0 <= i < j < |rows| && rows[i].invoiceId == invoiceId && rows[i].version == version
                                                         && rows[j].invoiceId == invoiceId && rows[j].version == version
    ensures r.Failure? ==> r.error == Errors.IncorrectResultSize(|Filter(rows, SnapshotAt(invoiceId, version))|)
    ensures r.Success? && r.value.Some? ==>
      && r.value.value in rows && r.value.value.invoiceId == invoiceId && r.value.value.version == version
      && Filter(rows, SnapshotAt(invoiceId, version)) == [r.value.value]
  {
    match FindUnique(rows, SnapshotAt(invoiceId, version))
    case Success(found) => Success(found)
    case Failure(n) => Failure(Errors.IncorrectResultSize(n))
  }

  /** The invoice's snapshot list lacks a version exactly when no row has that invoice and version. */
  lemma VersionInHistory(rows: seq<InvoiceHistory>, invoiceId: Id, version: int)
    ensures var l := FindByInvoiceIdOrderByVersionDesc(rows, invoiceId);
      (forall i :: 0 <= i < |l| ==> l[i].version != version) <==>
      (forall k :: 0 <= k < |rows| ==> !(rows[k].invoiceId == invoiceId && rows[k].version == version))
  {
    var l := FindByInvoiceIdOrderByVersionDesc(rows, invoiceId);
    if exists i :: 0 <= i < |l| && l[i].version == version {
      var i :| 0 <= i < |l| && l[i].version == version;
      var k :| 0 <= k < |rows| && rows[k] == l[i];
    }
    if exists k :: 0 <= k < |rows| && rows[k].invoiceId == invoiceId && rows[k].version == version {
      var k :| 0 <= k < |rows| && rows[k].invoiceId == invoiceId && rows[k].version == version;
      var i :| 0 <= i < |l| && l[i] == rows[k];
    }
  }

  /** A snapshot the pair lookup returns is in the invoice's list, and every row with that pair is that snapshot. */
  lemma OnlyVersionMatch(rows: seq<InvoiceHistory>, invoiceId: Id, version: int, x: InvoiceHistory)
    requires FindByInvoiceIdAndVersion(rows, invoiceId, version) == Success(Some(x))
    ensures x in FindByInvoiceIdOrderByVersionDesc(rows, invoiceId)
    ensures forall k :: 0 <= k < |rows| && rows[k].invoiceId == invoiceId && rows[k].version == version ==> rows[k] == x
  {
    forall k | 0 <= k < |rows| && rows[k].invoiceId == invoiceId && rows[k].version == version
      ensures rows[k] == x
    {
      assert SnapshotAt(invoiceId, version)(rows[k]);
      assert rows[k] in Filter(rows, SnapshotAt(invoiceId, version));
    }
    var k :| 0 <= k < |rows| && rows[k] == x;
  }

  /** `findFirstByInvoiceIdOrderByVersionDesc`: the head of the descending list, absent exactly when it is empty. */
  function FindFirstByInvoiceIdOrderByVersionDesc(rows: seq<InvoiceHistory>, invoiceId: Id): (r: Option<InvoiceHistory>)
    ensures r.None? <==> |FindByInvoiceIdOrderByVersionDesc(rows, invoiceId)| == 0
    ensures r.None? <==> forall k :: 0 <= k < |rows| ==> rows[k].invoiceId != invoiceId
    ensures r.Some? ==> r.value == FindByInvoiceIdOrderByVersionDesc(rows, invoiceId)[0]
    ensures r.Some? ==> r.value in rows && r.value.invoiceId == invoiceId
    ensures r.Some? ==> forall k :: 0 <= k < |rows| && rows[k].invoiceId == invoiceId ==> rows[k].version <= r.value.version
  {
    var l := FindByInvoiceIdOrderByVersionDesc(rows, invoiceId);
    if |l| == 0 then None
    else
      assert forall k :: 0 <= k < |rows| && rows[k].invoiceId == invoiceId ==> rows[k].version <= l[0].version by {
        forall k | 0 <= k < |rows| && rows[k].invoiceId == invoiceId ensures rows[k].version <= l[0].version {
          var i :| 0 <= i < |l| && l[i] == rows[k];
          assert VersionOf(l[i]) <= VersionOf(l[0]);
        }
      }
      Some(l[0])
  }

  /** `countByInvoiceId`, counted row by row: the length of the invoice's snapshot list. */
  function CountByInvoiceId(rows: seq<InvoiceHistory>, invoiceId: Id): (n: nat)
    ensures n == |FindByInvoiceIdOrderByVersionDesc(rows, invoiceId)|
  {
    Count(rows, SnapshotOf(invoiceId))
  }

  class InvoiceHistoryRepository {
    var rows: seq<InvoiceHistory>

    constructor()
      ensures rows == []
    {
      rows := [];
    }

    /** `save` of a new snapshot: `onCreate`, the next id, appended. */
    method Save(h: InvoiceHistory, now: DateTime) returns (saved: InvoiceHistory)
      modifies this
      ensures saved == h.OnCreate(now).(id := Some(|old(rows)| + 1))
      ensures rows == old(rows) + [saved]
    {
      saved := h.OnCreate(now).(id := Some(|rows| + 1));
      rows := rows + [saved];
    }
  }
}

/** `AuditLogRepository`: the audit-event table; every query lists newest first. */
module AuditTable {
  import opened Wrappers
  import opened Basics
  import opened Seqs
  import opened AuditModel

  function EventOf(entityType: string, entityId: Id): AuditLog -> bool {
    (a: AuditLog) => a.entityType == entityType && a.entityId == entityId
  }

  function WithAction(action: AuditAction): AuditLog -> bool {
    (a: AuditLog) => a.action == action
  }

  function ChangedByUser(user: UserId): AuditLog -> bool {
    (a: AuditLog) => a.changedBy == user
  }

  function LoggedBetween(start: DateTime, end: DateTime): AuditLog -> bool {
    (a: AuditLog) => start <= a.createdAt <= end
  }

  function CreatedAtOf(a: AuditLog): int {
    a.createdAt
  }

  /** `findByEntityTypeAndEntityIdOrderByCreatedAtDesc`. */
  function FindByEntityTypeAndEntityIdOrderByCreatedAtDesc(rows: seq<AuditLog>, entityType: string, entityId: Id): (r: seq<AuditLog>)
    ensures NonIncreasing(r, CreatedAtOf)
    ensures forall i :: 0 <= i < |r| ==> r[i].entityType == entityType && r[i].entityId == entityId && r[i] in rows
    ensures forall k :: 0 <= k < |rows| && rows[k].entityType == entityType && rows[k].entityId == entityId ==> rows[k] in r

    ensures multiset(r) == multiset(Filter(rows, EventOf(entityType, entityId)))
  {
    Query(rows, EventOf(entityType, entityId), CreatedAtOf)
  }

  /** `findByActionOrderByCreatedAtDesc`. */
  function FindByActionOrderByCreatedAtDesc(rows: seq<AuditLog>, action: AuditAction): (r: seq<AuditLog>)
    ensures NonIncreasing(r, CreatedAtOf)
    ensures forall i :: 0 <= i < |r| ==> r[i].action == action && r[i] in rows
    ensures forall k :: 0 <= k < |rows| && rows[k].action == action ==> rows[k] in r

    ensures multiset(r) == multiset(Filter(rows, WithAction(action)))
  {
    Query(rows, WithAction(action), CreatedAtOf)
  }

  /** `findByChangedByOrderByCreatedAtDesc`. */
  function FindByChangedByOrderByCreatedAtDesc(rows: seq<AuditLog>, user: UserId): (r: seq<AuditLog>)
    ensures NonIncreasing(r, CreatedAtOf)
    ensures forall i :: 0 <= i < |r| ==> r[i].changedBy == user && r[i] in rows
    ensures forall k :: 0 <= k < |rows| && rows[k].changedBy == user ==> rows[k] in r

    ensures multiset(r) == multiset(Filter(rows, ChangedByUser(user)))
  {
    Query(rows, ChangedByUser(user), CreatedAtOf)
  }

  /** `findByCreatedAtBetweenOrderByCreatedAtDesc`: BETWEEN includes both ends. */
  function FindByCreatedAtBetweenOrderByCreatedAtDesc(rows: seq<AuditLog>, start: DateTime, end: DateTime): (r: seq<AuditLog>)
    ensures NonIncreasing(r, CreatedAtOf)
    ensures forall i :: 0 <= i < |r| ==> start <= r[i].createdAt <= end && r[i] in rows
    ensures forall k :: 0 <= k < |rows| && start <= rows[k].createdAt <= end ==> rows[k] in r

    ensures multiset(r) == multiset(Filter(rows, LoggedBetween(start, end)))
  {
    Query(rows, LoggedBetween(start, end), CreatedAtOf)
  }

  class AuditLogRepository {
    var rows: seq<AuditLog>

    constructor()
      ensures rows == []
    {
      rows := [];
    }

    /** `save` of a new event: `onCreate`, the next id, appended. */
    method Save(a: AuditLog, now: DateTime) returns (saved: AuditLog)
      modifies this
      ensures saved == a.OnCreate(now).(id := Some(|old(rows)| + 1))
      ensures rows == old(rows) + [saved]
    {
      saved := a.OnCreate(now).(id := Some(|rows| + 1));
      rows := rows + [saved];
    }
  }
}

/** `PdfLogRepository`: the PDF generation log. */
module PdfLogTable {
  import opened Wrappers
  import opened Basics
  import opened PdfModel

  predicate IdsArePositions(rows: seq<PdfLog>) {
    forall k :: 0 <= k < |rows| ==> rows[k].id == Some(k + 1)
  }

  class PdfLogRepository {
    var rows: seq<PdfLog>

    predicate Valid()
      reads this
    {
      IdsArePositions(rows)
    }

    constructor()
      ensures Valid() && rows == []
    {
      rows := [];
    }

    /** `save`: a new entry runs `onCreate` and is appended; a saved one overwrites its row. */
    method Save(log: PdfLog, now: DateTime) returns (saved: PdfLog)
      requires Valid()
      requires log.id.Some? ==> 1 <= log.id.value <= |rows|
      modifies this
      ensures Valid()
      ensures log.id.None? ==> saved == log.OnCreate(now).(id := Some(|old(rows)| + 1)) && rows == old(rows) + [saved]
      ensures log.id.Some? ==> saved == log && rows == old(rows)[log.id.value - 1 := log]
    {
      if log.id.None? {
        saved := log.OnCreate(now).(id := Some(|rows| + 1));
        rows := rows + [saved];
      } else {
        saved := log;
        rows := rows[log.id.value - 1 := log];
      }
    }
  }
}
