/**
 * The exceptions the core throws. `ResourceNotFoundException` and `BusinessException` are unchecked
 * (they escape methods without a `throws` clause), so each one rolls back the enclosing
 * transaction; `RuntimeException` is what `AuditService` wraps its own failures in, and Spring's
 * `UnexpectedRollbackException` what a commit throws once a participating `@Transactional` call
 * has marked the transaction rollback-only.
 * `IncorrectResultSizeDataAccessException`, also unchecked, is what Spring Data throws when a query
 * declared to return one `Optional` row finds several.
 */
module Errors {
  import opened Basics
  import Invoices

  datatype Kind = ResourceNotFound | Business | Runtime | DataAccess

  datatype Error =
    | InvoiceNotFound(invoiceId: Id)
    | ShipmentNotFound(shipmentId: Id)
    | NotEditable(status: Invoices.InvoiceStatus)
    | VersionConflict
    | NotIssuable
    | ShipmentAlreadyLinked(shipmentId: Id)
    | PdfRequiresIssued(status: Invoices.InvoiceStatus)
    | PdfGenerationFailed(cause: string)
    | AuditLogFailed
    | HistoryFailed
    | UnexpectedRollback
    | IncorrectResultSize(actualSize: nat)
  {
    /** The exception class the source throws for this error. */
    function Kind(): Kind {
      match this
      case InvoiceNotFound(_) | ShipmentNotFound(_) => ResourceNotFound
      case AuditLogFailed | HistoryFailed | UnexpectedRollback => Runtime
      case IncorrectResultSize(_) => DataAccess
      case _ => Business
    }

    /** The exception message. */
    function Message(): string {
      match this
      case InvoiceNotFound(id) => "Invoice not found with id: " + NatToString(id)
      case ShipmentNotFound(id) => "Shipment not found with id: " + NatToString(id)
      case NotEditable(s) => "Invoice cannot be edited. Status: " + StatusName(s)
      case VersionConflict => "Invoice has been modified by another user. Please refresh and try again."
      case NotIssuable => "Invoice cannot be issued. Missing required data or invalid status."
      case ShipmentAlreadyLinked(id) => "Shipment " + NatToString(id) + " is already linked to an invoice"
      case PdfRequiresIssued(s) => "PDF can only be generated for ISSUED invoices. Current status: " + StatusName(s)
      case PdfGenerationFailed(cause) => "Failed to generate PDF: " + cause
      case AuditLogFailed => "Failed to log audit event"
      case HistoryFailed => "Failed to save invoice history"
      case UnexpectedRollback => "Transaction silently rolled back because it has been marked as rollback-only"
      case IncorrectResultSize(n) => "Query did not return a unique result: " + NatToString(n) + " results were returned"
    }
  }

  /** `Enum.toString`, as string concatenation prints a status. */
  function StatusName(s: Invoices.InvoiceStatus): string {
    match s
    case DRAFT => "DRAFT"
    case ISSUED => "ISSUED"
    case PAID => "PAID"
    case CANCELLED => "CANCELLED"
  }

  /** A not-found message names the missing id: two such messages are equal only for the same id. */
  lemma NotFoundMessageNamesId(a: Id, b: Id)
    requires InvoiceNotFound(a).Message() == InvoiceNotFound(b).Message()
    ensures a == b
  {
    var p := "Invoice not found with id: ";
    assert NatToString(a) == InvoiceNotFound(a).Message()[|p|..];
    assert NatToString(b) == InvoiceNotFound(b).Message()[|p|..];
    NatToStringInjective(a, b);
  }
}
