/** `AuditService`: append-only writes of audit events and version snapshots, and the read-only getters. */
module Audit {
  import opened Wrappers
  import opened Basics
  import opened Seqs
  import opened Invoices
  import opened AuditModel
  import opened Errors
  import HistoryTable
  import AuditTable

  /** The event `logEvent` fills in before saving it, given the already-serialized payloads. */
  function Event(entityType: string, entityId: Id, action: AuditAction, changedBy: UserId,
                 oldData: Option<Json>, newData: Option<Json>, changeSummary: string): (a: AuditLog)
    ensures a.id.None? && a.ipAddress.None? && a.userAgent.None?
  {
    AuditLog(None, entityType, entityId, action, changedBy, oldData, newData, changeSummary, None, None, 0)
  }

  /**
   * The audit table after `logEvent` on an invoice payload: one more event, numbered next, when
   * both payload arguments serialize (a null one needs no serializing); the same table otherwise.
   */
  function Logged(rows: seq<AuditLog>, entityType: string, entityId: Id, action: AuditAction, changedBy: UserId,
                  oldData: Option<Invoice>, newData: Option<Invoice>, changeSummary: string,
                  mapper: Invoice -> Option<Json>, now: DateTime): (r: seq<AuditLog>)
    ensures |rows| <= |r| <= |rows| + 1 && r[..|rows|] == rows
    ensures |r| == |rows| + 1 ==> r[|rows|].entityId == entityId && r[|rows|].action == action && r[|rows|].id == Some(|rows| + 1)
  {
    var oldJson := if oldData.Some? then mapper(oldData.value) else None;
    var newJson := if newData.Some? then mapper(newData.value) else None;
    if (oldData.Some? && oldJson.None?) || (newData.Some? && newJson.None?) then rows
    else rows + [Event(entityType, entityId, action, changedBy, oldJson, newJson, changeSummary).OnCreate(now).(id := Some(|rows| + 1))]
  }

  class AuditService {
    const auditLogRepository: AuditTable.AuditLogRepository
    const invoiceHistoryRepository: HistoryTable.InvoiceHistoryRepository
    /** Jackson's `writeValueAsString` on an invoice; `None` when it throws. */
    const objectMapper: Invoice -> Option<Json>

    constructor(auditLogRepository: AuditTable.AuditLogRepository,
                invoiceHistoryRepository: HistoryTable.InvoiceHistoryRepository,
                objectMapper: Invoice -> Option<Json>)
      ensures this.auditLogRepository == auditLogRepository
      ensures this.invoiceHistoryRepository == invoiceHistoryRepository
      ensures this.objectMapper == objectMapper
    {
      this.auditLogRepository := auditLogRepository;
      this.invoiceHistoryRepository := invoiceHistoryRepository;
      this.objectMapper := objectMapper;
    }

    /** A payload argument serializes: null needs no serializing, an invoice needs Jackson to succeed. */
    predicate Serializes(data: Option<Invoice>) {
      data.Some? ==> objectMapper(data.value).Some?
    }

    /** The column value for a payload argument: null stays null. */
    function Payload(data: Option<Invoice>): (j: Option<Json>)
      requires Serializes(data)
      ensures data.None? <==> j.None?
      ensures data.Some? ==> j == objectMapper(data.value)
    {
      if data.Some? then objectMapper(data.value) else None
    }

    /**
     * `logEvent`: appends exactly one event with the arguments given, old and new data set only
     * when passed; if either payload fails to serialize, appends nothing and fails.
     */
    method LogEvent(entityType: string, entityId: Id, action: AuditAction, changedBy: UserId,
                    oldData: Option<Invoice>, newData: Option<Invoice>, changeSummary: string, now: DateTime)
      returns (r: Result<AuditLog, Error>)
      modifies auditLogRepository
      ensures r.Failure? <==> !Serializes(oldData) || !Serializes(newData)
      ensures r.Failure? ==> r.error == AuditLogFailed
      ensures auditLogRepository.rows == Logged(old(auditLogRepository.rows), entityType, entityId, action, changedBy,
                                                oldData, newData, changeSummary, objectMapper, now)
      ensures r.Success? ==> auditLogRepository.rows == old(auditLogRepository.rows) + [r.value]
    {
      if !Serializes(oldData) || !Serializes(newData) {
        return Failure(AuditLogFailed);
      }
      var event := Event(entityType, entityId, action, changedBy, Payload(oldData), Payload(newData), changeSummary);
      var saved := auditLogRepository.Save(event, now);
      return Success(saved);
    }

    /**
     * `saveInvoiceHistory`: appends exactly one snapshot with the arguments given and
     * `isReverted` false; if the invoice fails to serialize, appends nothing and fails.
     */
    method SaveInvoiceHistory(invoiceId: Id, version: int, fiscalFolio: Option<string>, invoiceNumber: string,
                              invoiceData: Invoice, createdBy: UserId, now: DateTime)
      returns (r: Result<InvoiceHistory, Error>)
      modifies invoiceHistoryRepository
      ensures r.Failure? <==> objectMapper(invoiceData).None?
      ensures r.Failure? ==> r.error == HistoryFailed && invoiceHistoryRepository.rows == old(invoiceHistoryRepository.rows)
      ensures r.Success? ==>
        && r.value == NewHistory(invoiceId, version, fiscalFolio, invoiceNumber, objectMapper(invoiceData).value, createdBy)
                        .OnCreate(now).(id := Some(|old(invoiceHistoryRepository.rows)| + 1))
        && invoiceHistoryRepository.rows == old(invoiceHistoryRepository.rows) + [r.value]
    {
      var json := objectMapper(invoiceData);
      if json.None? {
        return Failure(HistoryFailed);
      }
      var h := NewHistory(invoiceId, version, fiscalFolio, invoiceNumber, json.value, createdBy);
      var saved := invoiceHistoryRepository.Save(h, now);
      return Success(saved);
    }

    /** `getAuditLogs`: the entity's events, newest first. */
    function GetAuditLogs(entityType: string, entityId: Id): (r: seq<AuditLog>)
      reads auditLogRepository
      ensures NonIncreasing(r, AuditTable.CreatedAtOf)
      ensures forall i :: 0 <= i < |r| ==> r[i].entityType == entityType && r[i].entityId == entityId && r[i] in auditLogRepository.rows
      ensures multiset(r) == multiset(Filter(auditLogRepository.rows, AuditTable.EventOf(entityType, entityId)))
      ensures forall k :: 0 <= k < |auditLogRepository.rows| &&
                auditLogRepository.rows[k].entityType == entityType && auditLogRepository.rows[k].entityId == entityId
                ==> auditLogRepository.rows[k] in r
    {
      AuditTable.FindByEntityTypeAndEntityIdOrderByCreatedAtDesc(auditLogRepository.rows, entityType, entityId)
    }

    /** `getInvoiceHistory`: the invoice's snapshots, highest version first. */
    function GetInvoiceHistory(invoiceId: Id): (r: seq<InvoiceHistory>)
      reads invoiceHistoryRepository
      ensures NonIncreasing(r, HistoryTable.VersionOf)
      ensures forall i :: 0 <= i < |r| ==> r[i].invoiceId == invoiceId && r[i] in invoiceHistoryRepository.rows
      ensures multiset(r) == multiset(Filter(invoiceHistoryRepository.rows, HistoryTable.SnapshotOf(invoiceId)))
      ensures forall k :: 0 <= k < |invoiceHistoryRepository.rows| && invoiceHistoryRepository.rows[k].invoiceId == invoiceId
                ==> invoiceHistoryRepository.rows[k] in r
    {
      HistoryTable.FindByInvoiceIdOrderByVersionDesc(invoiceHistoryRepository.rows, invoiceId)
    }

    /**
     * `getInvoiceHistoryVersion`: absent exactly when the invoice's history lacks that version, the
     * snapshot when the history holds it once, and the repository's incorrect-result-size error when
     * two snapshots of the invoice record that version.
     */
    function GetInvoiceHistoryVersion(invoiceId: Id, version: int): (r: Result<Option<InvoiceHistory>, Error>)
      reads invoiceHistoryRepository
      ensures r == Success(None) <==> forall i :: 0 <= i < |GetInvoiceHistory(invoiceId)| ==> GetInvoiceHistory(invoiceId)[i].version != version
      ensures r.Failure? <==> exists i, j :: 0 <= i < j < |invoiceHistoryRepository.rows| &&
                                invoiceHistoryRepository.rows[i].invoiceId == invoiceId && invoiceHistoryRepository.rows[i].version == version &&
                                invoiceHistoryRepository.rows[j].invoiceId == invoiceId && invoiceHistoryRepository.rows[j].version == version
      ensures r.Failure? ==> r.error.IncorrectResultSize? && r.error.actualSize > 1
      ensures r.Success? && r.value.Some? ==>
        && r.value.value in GetInvoiceHistory(invoiceId) && r.value.value.invoiceId == invoiceId && r.value.value.version == version
        && forall k :: 0 <= k < |invoiceHistoryRepository.rows| &&
             invoiceHistoryRepository.rows[k].invoiceId == invoiceId && invoiceHistoryRepository.rows[k].version == version
             ==> invoiceHistoryRepository.rows[k] == r.value.value
    {
      var rows := invoiceHistoryRepository.rows;
      var r := HistoryTable.FindByInvoiceIdAndVersion(rows, invoiceId, version);
      assert GetInvoiceHistory(invoiceId) == HistoryTable.FindByInvoiceIdOrderByVersionDesc(rows, invoiceId);
      HistoryTable.VersionInHistory(rows, invoiceId, version);
      if r.Success? && r.value.Some? then HistoryTable.OnlyVersionMatch(rows, invoiceId, version, r.value.value); r else r
    }

    /** `getLatestInvoiceVersion`: the first entry of `getInvoiceHistory`, absent exactly when that is empty, and of the highest version. */
    function GetLatestInvoiceVersion(invoiceId: Id): (r: Option<InvoiceHistory>)
      reads invoiceHistoryRepository
      ensures r.None? <==> |GetInvoiceHistory(invoiceId)| == 0
      ensures r.Some? ==> r.value == GetInvoiceHistory(invoiceId)[0]
      ensures r.Some? ==> forall i :: 0 <= i < |GetInvoiceHistory(invoiceId)| ==> GetInvoiceHistory(invoiceId)[i].version <= r.value.version
    {
      HistoryTable.FindFirstByInvoiceIdOrderByVersionDesc(invoiceHistoryRepository.rows, invoiceId)
    }

    /** `getInvoiceVersionCount`: the length of `getInvoiceHistory`. */
    function GetInvoiceVersionCount(invoiceId: Id): (n: nat)
      reads invoiceHistoryRepository
      ensures n == |GetInvoiceHistory(invoiceId)|
    {
      HistoryTable.CountByInvoiceId(invoiceHistoryRepository.rows, invoiceId)
    }
  }
}
