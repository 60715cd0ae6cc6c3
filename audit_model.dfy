/** The audit entities (`audit/model/AuditLog.java`, `audit/model/InvoiceHistory.java`). */
module AuditModel {
  import opened Wrappers
  import opened Basics

  /** REVERT and PUBLISH are declared by the source but never logged. */
  datatype AuditAction = CREATE | UPDATE | DELETE | ISSUE | REVERT | PUBLISH

  /** One audit event. `ipAddress` and `userAgent` are never set by the core, so they stay `None`. */
  datatype AuditLog = AuditLog(
    id: Option<Id>,
    entityType: string,
    entityId: Id,
    action: AuditAction,
    changedBy: UserId,
    oldData: Option<Json>,
    newData: Option<Json>,
    changeSummary: string,
    ipAddress: Option<string>,
    userAgent: Option<string>,
    createdAt: DateTime)
  {
    /** `@PrePersist onCreate`. */
    function OnCreate(now: DateTime): (r: AuditLog)
      ensures r.createdAt == now && r.(createdAt := createdAt) == this
    {
      this.(createdAt := now)
    }
  }

  /** One version snapshot of an invoice. */
  datatype InvoiceHistory = InvoiceHistory(
    id: Option<Id>,
    invoiceId: Id,
    version: int,
    fiscalFolio: Option<string>,
    invoiceNumber: string,
    invoiceData: Json,
    createdBy: UserId,
    createdAt: DateTime,
    isReverted: bool)
  {
    /** `@PrePersist onCreate`. */
    function OnCreate(now: DateTime): (r: InvoiceHistory)
      ensures r.createdAt == now && r.(createdAt := createdAt) == this
    {
      this.(createdAt := now)
    }
  }

  /** `new InvoiceHistory()`: `isReverted` starts false, the rest is filled by the caller. */
  function NewHistory(invoiceId: Id, version: int, fiscalFolio: Option<string>, invoiceNumber: string,
                      invoiceData: Json, createdBy: UserId): (h: InvoiceHistory)
    ensures !h.isReverted && h.id.None?
    ensures h.invoiceId == invoiceId && h.version == version && h.fiscalFolio == fiscalFolio
    ensures h.invoiceNumber == invoiceNumber && h.invoiceData == invoiceData && h.createdBy == createdBy
  {
    InvoiceHistory(None, invoiceId, version, fiscalFolio, invoiceNumber, invoiceData, createdBy, 0, false)
  }
}

/** The PDF log entity (`pdf/model/PdfLog.java`). */
module PdfModel {
  import opened Wrappers
  import opened Basics

  datatype GenerationStatus = SUCCESS | FAILED | PENDING

  datatype PdfLog = PdfLog(
    id: Option<Id>,
    invoiceId: Id,
    pdfUrl: Option<string>,
    status: GenerationStatus,
    errorMessage: Option<string>,
    templateType: Option<string>,
    generatedBy: UserId,
    generatedAt: DateTime)
  {
    /** `@PrePersist onCreate`; `generatedAt` is not updatable afterwards. */
    function OnCreate(now: DateTime): (r: PdfLog)
      ensures r.generatedAt == now && r.(generatedAt := generatedAt) == this
    {
      this.(generatedAt := now)
    }
  }

  /** `new PdfLog()` with invoice, status and user set, as both branches of the generator build it. */
  function NewPdfLog(invoiceId: Id, status: GenerationStatus, generatedBy: UserId): (l: PdfLog)
    ensures l.id.None? && l.invoiceId == invoiceId && l.status == status && l.generatedBy == generatedBy
    ensures l.pdfUrl.None? && l.errorMessage.None? && l.templateType.None?
  {
    PdfLog(None, invoiceId, None, status, None, None, generatedBy, 0)
  }
}
