/** `PdfService`: the ISSUED-only PDF step that logs the attempt and stores the document URL on the invoice. */
module Pdf {
  import opened Wrappers
  import opened Basics
  import opened Invoices
  import opened PdfModel
  import opened Errors
  import InvoiceTable
  import PdfLogTable

  const UrlPrefix: string := "https://example.com/pdfs/invoice-"
  const UrlSuffix: string := ".pdf"

  /** `generateMockPdfUrl`: string concatenation prints a null id as "null". */
  function GenerateMockPdfUrl(inv: Invoice): (url: string)
    ensures StartsWith(url, UrlPrefix) && |url| > |UrlPrefix| + |UrlSuffix|
    ensures inv.id.Some? ==> url[|UrlPrefix|..|url| - |UrlSuffix|] == NatToString(inv.id.value)
    ensures url[|url| - |UrlSuffix|..] == UrlSuffix
  {
    var idText := if inv.id.Some? then NatToString(inv.id.value) else "null";
    UrlPrefix + idText + UrlSuffix
  }

  /** Distinct saved invoices get distinct URLs: the URL identifies the invoice. */
  lemma MockPdfUrlIdentifiesInvoice(a: Invoice, b: Invoice)
    requires a.id.Some? && b.id.Some?
    requires GenerateMockPdfUrl(a) == GenerateMockPdfUrl(b)
    ensures a.id == b.id
  {
    var u := GenerateMockPdfUrl(a);
    assert NatToString(a.id.value) == u[|UrlPrefix|..|u| - |UrlSuffix|];
    NatToStringInjective(a.id.value, b.id.value);
  }

  /** The log row a successful generation leaves: the PENDING entry, updated to SUCCESS with the URL and template. */
  function SuccessLog(invoiceId: Id, generatedBy: UserId, url: string, id: Id, now: DateTime): (l: PdfLog)
    ensures l.status == SUCCESS && l.pdfUrl == Some(url) && l.templateType == Some("STANDARD")
    ensures l.invoiceId == invoiceId && l.generatedBy == generatedBy && l.errorMessage.None?
    ensures l.id == Some(id) && l.generatedAt == now
  {
    NewPdfLog(invoiceId, PENDING, generatedBy).OnCreate(now).(id := Some(id))
      .(status := SUCCESS, pdfUrl := Some(url), templateType := Some("STANDARD"))
  }

  class PdfService {
    const invoiceRepository: InvoiceTable.InvoiceRepository
    const pdfLogRepository: PdfLogTable.PdfLogRepository

    constructor(invoiceRepository: InvoiceTable.InvoiceRepository, pdfLogRepository: PdfLogTable.PdfLogRepository)
      ensures this.invoiceRepository == invoiceRepository && this.pdfLogRepository == pdfLogRepository
    {
      this.invoiceRepository := invoiceRepository;
      this.pdfLogRepository := pdfLogRepository;
    }

    /**
     * `generateInvoicePDF` under `@Transactional`. `fault` is the message of an exception raised
     * while the log and invoice are written (`None` when the writes succeed). Every error leaves
     * both tables as they were, the FAILED entry included, because the `BusinessException`
     * thrown after it rolls the transaction back.
     */
    method GenerateInvoicePdf(invoiceId: Id, generatedBy: UserId, clock: Clock, fault: Option<string>)
      returns (r: Result<string, Error>)
      requires invoiceRepository.Valid() && pdfLogRepository.Valid()
      modifies invoiceRepository, pdfLogRepository
      ensures invoiceRepository.Valid() && pdfLogRepository.Valid()
      ensures var found := InvoiceTable.FindById(old(invoiceRepository.rows), invoiceId);
        && (found.None? ==> r == Failure(InvoiceNotFound(invoiceId)))
        && (found.Some? && found.value.status != ISSUED ==> r == Failure(PdfRequiresIssued(found.value.status)))
        && (found.Some? && found.value.status == ISSUED && fault.Some? ==> r == Failure(PdfGenerationFailed(fault.value)))
        && (found.Some? && found.value.status == ISSUED && fault.None? ==> r == Success(GenerateMockPdfUrl(found.value)))
      ensures r.Failure? ==> invoiceRepository.rows == old(invoiceRepository.rows) && pdfLogRepository.rows == old(pdfLogRepository.rows)
      ensures r.Success? ==>
        var inv := old(invoiceRepository.rows)[invoiceId - 1];
        && 1 <= invoiceId <= |old(invoiceRepository.rows)| && inv.status == ISSUED && fault.None?
        && r.value == GenerateMockPdfUrl(inv)
        && invoiceRepository.rows == old(invoiceRepository.rows)[invoiceId - 1 :=
             InvoiceTable.Flushed(inv, inv.(pdfUrl := Some(r.value)), clock)]
        && pdfLogRepository.rows == old(pdfLogRepository.rows) +
             [SuccessLog(invoiceId, generatedBy, r.value, |old(pdfLogRepository.rows)| + 1, clock.now)]
    {
      var found := InvoiceTable.FindById(invoiceRepository.rows, invoiceId);
      if found.None? {
        return Failure(InvoiceNotFound(invoiceId));
      }
      var invoice := found.value;
      if invoice.status != ISSUED {
        return Failure(PdfRequiresIssued(invoice.status));
      }
      var invoices0, logs0 := invoiceRepository.rows, pdfLogRepository.rows;
      var pdfLog := NewPdfLog(invoiceId, PENDING, generatedBy);
      pdfLog := pdfLogRepository.Save(pdfLog, clock.now);
      if fault.Some? {
        var failed := NewPdfLog(invoiceId, FAILED, generatedBy).(errorMessage := Some(fault.value));
        var _ := pdfLogRepository.Save(failed, clock.now);
        // the BusinessException rolls back every write of the transaction
        invoiceRepository.rows, pdfLogRepository.rows := invoices0, logs0;
        return Failure(PdfGenerationFailed(fault.value));
      }
      var pdfUrl := GenerateMockPdfUrl(invoice);
      pdfLog := pdfLog.(status := SUCCESS, pdfUrl := Some(pdfUrl), templateType := Some("STANDARD"));
      var _ := pdfLogRepository.Save(pdfLog, clock.now);
      invoice := invoice.(pdfUrl := Some(pdfUrl));
      var _ := invoiceRepository.Save(invoice, clock);
      return Success(pdfUrl);
    }
  }

  /**
   * Generating a PDF changes nothing of the invoice but its URL, `updatedAt` and version; it stays
   * ISSUED. The version and `updatedAt` move exactly when the URL is new: Hibernate flushes
   * nothing for an invoice that already carried it.
   */
  lemma PdfKeepsInvoice(inv: Invoice, url: string, clock: Clock)
    requires inv.status == ISSUED
    ensures var after := InvoiceTable.Flushed(inv, inv.(pdfUrl := Some(url)), clock);
      && after.status == ISSUED && after.pdfUrl == Some(url)
      && (inv.pdfUrl == Some(url) <==> after == inv)
      && (inv.pdfUrl != Some(url) ==> after.version == inv.version + 1 && after.updatedAt == clock.now)
      && after.(pdfUrl := inv.pdfUrl, updatedAt := inv.updatedAt, version := inv.version) == inv
  {
  }

  /** A second generation for the same saved invoice computes the same URL and so writes nothing to the invoice. */
  lemma {:induction false} RegeneratingKeepsInvoice(inv: Invoice, clock: Clock, later: Clock)
    requires inv.status == ISSUED && inv.id.Some?
    ensures var url := GenerateMockPdfUrl(inv);
      var after := InvoiceTable.Flushed(inv, inv.(pdfUrl := Some(url)), clock);
      && GenerateMockPdfUrl(after) == url
      && InvoiceTable.Flushed(after, after.(pdfUrl := Some(url)), later) == after
  {
    var url := GenerateMockPdfUrl(inv);
    var after := InvoiceTable.Flushed(inv, inv.(pdfUrl := Some(url)), clock);
    assert after.id == inv.id;
    assert after.(pdfUrl := Some(url)) == after;
  }
}
