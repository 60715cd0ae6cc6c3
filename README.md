# Invoice lifecycle of P6CourierSync-F5-Back, modelled in Dafny

The Spring back end of P6CourierSync keeps invoices for courier shipments. An invoice is created as a
DRAFT with its line items and the shipments it bills. While it is DRAFT it can be edited, guarded by
an optimistic version number. Once it passes `canBeIssued` it is issued: it becomes ISSUED and gets a
fiscal folio. After that, a PDF can be generated for it. Every step writes an audit event, and edits
and issues also write a version snapshot of the invoice.

This project models that lifecycle on in-memory tables:
- invoices, line items and invoice-to-shipment links;
- history snapshots, audit events and PDF logs;
- the set of existing shipment ids.

## How the model is organised

- **Entities** (`Invoices`, `InvoiceItems`, `InvoiceShipments`, `AuditModel`, `PdfModel`):
  - Each entity is a datatype.
  - The JPA hooks (`onCreate`, `onUpdate`, `calculateTotal`) are member functions from the object
    before the hook to the object after it.
- **Repositories** (`ItemTable`, `LinkTable`, `InvoiceTable`, `HistoryTable`, `AuditTable`,
  `PdfLogTable`, `ShipmentTable`):
  - Each repository is a class holding its table as a `seq` field.
  - `save`, `saveAll` and `deleteByInvoiceId` are methods that reassign that field.
  - The derived queries are functions on the table. Each is proved to return the matching rows,
    each as many times as the table holds it, and in the declared order: descending by the key for
    an `OrderBy…Desc` query, table order otherwise.
  - A derived query declared to return one `Optional` row returns a `Result`. It fails with
    `Errors.IncorrectResultSize` when two rows match, as Spring Data does, unless a unique column
    rules that out. No unique constraint covers (invoice, shipment) or (invoice, version).
  - The invoice `save` includes the flush that writes it (`InvoiceTable.Flushed`). Hibernate's
    dirty check writes nothing for an invoice whose columns did not change. Otherwise `@PreUpdate`
    stamps `updatedAt` and `@Version` goes up by one.
- **`Audit.AuditService`**:
  - `logEvent` and `saveInvoiceHistory` are methods that append one row, or fail and append nothing.
  - The getters are functions.
- **`Billing.InvoiceService`**, one `@Transactional` operation at a time:
  - `…Body` is the Java method body as written. It stops at the first exception.
  - The operation without the suffix wraps the body. It takes a snapshot of every table and id
    counter, and restores it when the body fails.
  - `UpdateDraftInvoiceAsWritten` also restores it when a caught `@Transactional` call threw, as
    Spring does (see Findings).
  - Each operation's contract gives the error it throws, in the order the code meets its checks
    (`CreateError`, `UpdateError`, `IssueError`). On success it gives the exact new tables
    (`AfterCreate`, `AfterUpdate`, `AfterIssue`) and the audit rows.
- **`Pdf.PdfService`**: `generateInvoicePDF`, under the same all-or-nothing rule.
- **`Ledger`**:
  - `Consistent` is the invariant tying the tables together:
    - invoice ids are positions;
    - invoice numbers and folios are unique and carry their prefixes;
    - a folio is present exactly when the invoice is ISSUED;
    - every item and link points to an existing invoice and shipment;
    - subtotal is the sum of the item totals, and total = subtotal + tax;
    - snapshot versions are unique and older than their invoice's.
  - `LedgerLaws` proves that each committed operation keeps `Consistent` (`CreateCommits`,
    `ChangingUpdateCommits`, `IssueCommits`, `PdfKeeps`). An update that changes no column breaks
    it (see Findings).
  - It also proves what consistency buys the queries.

The service classes carry no class invariant. Their methods keep only the repository's `Valid()`
(ids are positions). Consistency is proved once, on the table values that the methods' contracts say
they produce.

Conventions used throughout:
- Money is an `int` count of minor units (the columns have scale 2).
- Time is a `Clock` parameter.
- Each generated invoice number and fiscal folio is a fresh parameter, carrying its `INV-` or
  `FISCAL-` prefix.
- Jackson's `writeValueAsString` is the `objectMapper` parameter of `AuditService`: a function that
  returns `None` where Jackson throws.

## Model

| member | source | states |
|---|---|---|
| Billing.InvoiceService.CreateDraftInvoice | src/main/java/com/fabrica/p6f5/springapp/invoice/service/InvoiceService.java:58-136 | The error is the first of: an unknown item shipment, an unknown link shipment, a shipment already linked, a payload that does not serialize; on any error every table and id counter is unchanged. On success it appends the DRAFT row with subtotal and total, its items in request order and its links, and logs one CREATE event with no old data; the result is the stored row |
| Billing.InvoiceService.CreateDraftInvoiceBody | src/main/java/com/fabrica/p6f5/springapp/invoice/service/InvoiceService.java:63-135 | The body as written: the same error choice and the same committed tables, audit row and id counters as the transaction |
| Billing.InvoiceService.BuildItems | src/main/java/com/fabrica/p6f5/springapp/invoice/service/InvoiceService.java:90-106 | The item loop fails exactly at the first line whose shipment is unknown; otherwise it yields one item per line, in order, with totalPrice = unitPrice × quantity |
| Billing.InvoiceService.BuildLinks | src/main/java/com/fabrica/p6f5/springapp/invoice/service/InvoiceService.java:110-125 | The link loop fails exactly at the first id that is unknown or, on create, already linked; otherwise it yields one link per id, in order |
| Billing.InvoiceService.UpdateDraftInvoiceAsWritten | src/main/java/com/fabrica/p6f5/springapp/invoice/service/InvoiceService.java:141-255 | The error is the first of: invoice not found, not DRAFT (before any version test), a non-null version differing from the stored one, an unknown shipment; on any error nothing changes. If the snapshot or the UPDATE event then fails to serialize, the commit fails with the unexpected-rollback error and nothing changes. Otherwise it snapshots the pre-edit invoice under its old version, replaces the invoice's items and links by exactly the request's, and writes the edited header; `updatedAt` and the version change only when some column changed. It logs UPDATE with the pre-edit copy as old data and returns the stored row |
| Billing.InvoiceService.UpdateDraftInvoice | src/main/java/com/fabrica/p6f5/springapp/invoice/service/InvoiceService.java:141-255 | The update as its `catch` blocks intend it (see Findings): the same errors and the same committed tables, audit row and result, and a failed snapshot or UPDATE event does not stop the commit |
| Billing.InvoiceService.UpdateDraftInvoiceBody | src/main/java/com/fabrica/p6f5/springapp/invoice/service/InvoiceService.java:145-254 | The body as written: guards in source order, then the same tables and audit row as the committed update, and whether a caught call threw |
| Billing.InvoiceService.ReplaceLines | src/main/java/com/fabrica/p6f5/springapp/invoice/service/InvoiceService.java:187-239 | After the old items and links are deleted, fails with the first unknown shipment; otherwise the invoice's rows are exactly the new items and links and the other invoices' rows are kept |
| Billing.InvoiceService.TrySnapshot | src/main/java/com/fabrica/p6f5/springapp/invoice/service/InvoiceService.java:159-165 | The history table gains the invoice's snapshot under its current version when it serializes, and stays as it was when it does not; the swallowed failure is reported exactly when the invoice does not serialize |
| Billing.InvoiceService.EditAndSave | src/main/java/com/fabrica/p6f5/springapp/invoice/service/InvoiceService.java:167-250 | Fails with the first unknown shipment; otherwise the invoice's lines are exactly the request's, the row is the flushed edit, and the UPDATE event is logged, its swallowed failure reported exactly when the copy or the row does not serialize |
| Billing.InvoiceService.SaveEdited | src/main/java/com/fabrica/p6f5/springapp/invoice/service/InvoiceService.java:241-250 | The edited invoice replaces its own row, and is returned, with a fresh `updatedAt` and version + 1 when a column changed and unchanged otherwise; the UPDATE event carries the copy as old data and the saved row as new data, and its swallowed failure is reported exactly when either does not serialize |
| Billing.InvoiceService.FinishIssue | src/main/java/com/fabrica/p6f5/springapp/invoice/service/InvoiceService.java:284-295 | Fails with the audit error exactly when the issued invoice does not serialize; otherwise one ISSUE event whose old and new data are both the issued invoice, then its snapshot |
| Billing.InvoiceService.IssueInvoice | src/main/java/com/fabrica/p6f5/springapp/invoice/service/InvoiceService.java:260-300 | The error is the first of: invoice not found, `canBeIssued` false, a payload the audit write cannot serialize; on any error nothing changes. On success the invoice becomes ISSUED, keeps an existing folio or gets the new one, its amounts and items are unchanged, one ISSUE event is logged and the snapshot of the issued state is stored |
| Billing.InvoiceService.IssueInvoiceBody | src/main/java/com/fabrica/p6f5/springapp/invoice/service/InvoiceService.java:264-299 | The body as written: the same errors, the same stored row, snapshot and audit row as the transaction |
| Billing.InvoiceService.GetInvoiceById | src/main/java/com/fabrica/p6f5/springapp/invoice/service/InvoiceService.java:305-309 | Succeeds exactly when an invoice has that id and then returns it; otherwise fails with invoice not found for that id |
| Billing.InvoiceService.GetInvoicesByStatus | src/main/java/com/fabrica/p6f5/springapp/invoice/service/InvoiceService.java:314-318 | Exactly the invoices in that status, newest first, as many as `countByStatus` counts |
| Billing.Issuing | src/main/java/com/fabrica/p6f5/springapp/invoice/service/InvoiceService.java:272-279 | The issued invoice is ISSUED and has a folio: the new one only when it had none, otherwise the old one; no other field changes |
| Billing.SnapshotRow | src/main/java/com/fabrica/p6f5/springapp/audit/service/AuditService.java:66-83 | A snapshot is stored exactly when the invoice serializes, and then names the invoice and its version and is not reverted |
| Billing.CreateCommits | src/main/java/com/fabrica/p6f5/springapp/invoice/service/InvoiceService.java:58-136 | A create that passes every check takes a consistent database to a consistent one |
| Billing.UpdateCommits | src/main/java/com/fabrica/p6f5/springapp/invoice/service/InvoiceService.java:141-255 | An update that passes every check and is flushed at the next version takes a consistent database to a consistent one, with or without its snapshot |
| Billing.ChangingUpdateCommits | src/main/java/com/fabrica/p6f5/springapp/invoice/service/InvoiceService.java:141-255 | An update that passes every check and changes some column of the draft takes a consistent database to a consistent one |
| Billing.NoOpUpdateRepeatsSnapshotVersion | src/main/java/com/fabrica/p6f5/springapp/invoice/service/InvoiceService.java:158-196 | An update that changes no column keeps the invoice at the version its new snapshot records, so the tables are no longer consistent and the next snapshot repeats that version |
| Billing.ResubmittedUpdateIsNoOp | src/main/java/com/fabrica/p6f5/springapp/invoice/service/InvoiceService.java:170-185 | Once an update has committed, the same request changes no column of the stored row |
| Billing.IssueSnapshotAlwaysSaved | src/main/java/com/fabrica/p6f5/springapp/invoice/service/InvoiceService.java:284-295 | An issue that throws nothing always stores its snapshot, because the ISSUE event before it serialized the same invoice |
| Billing.UpdatePassed | src/main/java/com/fabrica/p6f5/springapp/invoice/service/InvoiceService.java:145-156 | An update that raises no error names a stored DRAFT invoice, and each of its shipments exists |
| Billing.IssueCommits | src/main/java/com/fabrica/p6f5/springapp/invoice/service/InvoiceService.java:260-300 | An issue past `canBeIssued`, with a fresh folio, takes a consistent database to a consistent one |
| Billing.IssuedIsFinal | src/main/java/com/fabrica/p6f5/springapp/invoice/model/Invoice.java:123-135 | After a committed issue, a second issue fails with not issuable and any edit fails with not editable (ISSUED) |
| Billing.RepeatedShipmentIdAccepted | src/main/java/com/fabrica/p6f5/springapp/invoice/service/InvoiceService.java:110-127 | The already-linked test looks only at stored links, so one request naming an unlinked shipment twice passes and stores two links to it. `findByInvoiceIdAndShipmentId` then fails with an incorrect result size of 2 |
| Requests.CalculateSubtotal | src/main/java/com/fabrica/p6f5/springapp/invoice/service/InvoiceService.java:332-352 | Zero for a null or empty list; with valid lines, at least the number of lines, so positive whenever there are lines |
| Requests.SubtotalIsLineSum | src/main/java/com/fabrica/p6f5/springapp/invoice/service/InvoiceService.java:81-107 | The invoice subtotal equals the sum of the totals of the item rows stored for the same lines |
| Requests.ItemFromRequest | src/main/java/com/fabrica/p6f5/springapp/invoice/service/InvoiceService.java:92-104 | The built item belongs to the invoice and carries the line's description, quantity, price and shipment, with totalPrice = unitPrice × quantity |
| Requests.StoredItems | src/main/java/com/fabrica/p6f5/springapp/invoice/service/InvoiceService.java:90-107 | One stored item per line, in request order, with consecutive ids and totalPrice = unitPrice × quantity |
| Requests.StoredLinks | src/main/java/com/fabrica/p6f5/springapp/invoice/service/InvoiceService.java:110-127 | One stored link per requested id, in order, pointing to the invoice and that shipment |
| Requests.Draft | src/main/java/com/fabrica/p6f5/springapp/invoice/service/InvoiceService.java:66-84 | The new invoice is a DRAFT at version 1 without folio or PDF, with the generated number and the creator, and carries the request's header, subtotal and subtotal + tax |
| Requests.Edited | src/main/java/com/fabrica/p6f5/springapp/invoice/service/InvoiceService.java:170-185 | The edit sets the request's header fields and amounts; id, number, folio, status, PDF URL, creator, timestamps and version are untouched |
| Requests.EditedOverrides | src/main/java/com/fabrica/p6f5/springapp/invoice/service/InvoiceService.java:170-185 | A later edit overrides an earlier one |
| Requests.CopyInvoiceProperties | src/main/java/com/fabrica/p6f5/springapp/invoice/service/InvoiceService.java:371-389 | Copying a copy changes nothing, and the copy answers `canBeEdited` and `canBeIssued` as the original does |
| Requests.FirstUnknownIsFirst | src/main/java/com/fabrica/p6f5/springapp/invoice/service/InvoiceService.java:101-104 | The reported line is unknown and every earlier line is known; no error means every line is known |
| Requests.FirstLinkErrorIsFirst | src/main/java/com/fabrica/p6f5/springapp/invoice/service/InvoiceService.java:112-119 | The reported id is rejected and every earlier id is accepted; no error means every id is accepted |
| Requests.UpdateAcceptsMore | src/main/java/com/fabrica/p6f5/springapp/invoice/service/InvoiceService.java:221-231 | Every id list that create accepts, update accepts too |
| Requests.AlreadyLinkedOnlyRejectedOnCreate | src/main/java/com/fabrica/p6f5/springapp/invoice/service/InvoiceService.java:226-231 | A shipment linked to another invoice is rejected by create and accepted by update |
| Invoices.Invoice.OnCreate | src/main/java/com/fabrica/p6f5/springapp/invoice/model/Invoice.java:96-103 | Both timestamps become now; the invoice date becomes today only when it was missing; nothing else changes |
| Invoices.Invoice.OnUpdate | src/main/java/com/fabrica/p6f5/springapp/invoice/model/Invoice.java:105-108 | Only `updatedAt` changes, to now |
| Invoices.OnCreateKeepsDate | src/main/java/com/fabrica/p6f5/springapp/invoice/model/Invoice.java:100-102 | A date set by the caller is kept, and a second run does not move the date |
| Invoices.FreshInvoiceDefaults | src/main/java/com/fabrica/p6f5/springapp/invoice/model/Invoice.java:59-88 | A fresh invoice is DRAFT, version 1, tax 0, currency "USD" (a nullable column), editable and not issuable |
| Invoices.GuardsAgree | src/main/java/com/fabrica/p6f5/springapp/invoice/model/Invoice.java:123-135 | `canBeEdited` holds exactly for DRAFT; `canBeIssued` holds exactly for DRAFT with a positive subtotal, some item and a name that is not blank after trimming; issuable implies editable; ISSUED, PAID and CANCELLED allow neither |
| Invoices.HooksKeepGuards | src/main/java/com/fabrica/p6f5/springapp/invoice/model/Invoice.java:96-108 | Neither hook changes what either guard answers |
| Basics.Trim | src/main/java/com/fabrica/p6f5/springapp/invoice/model/Invoice.java:134 | `trim()` yields the empty string exactly when every character is at most a space |
| InvoiceItems.InvoiceItem.CalculateTotal | src/main/java/com/fabrica/p6f5/springapp/invoice/model/InvoiceItem.java:76-80 | With price and quantity present the total becomes their product; with either missing the total is unchanged; nothing else changes |
| InvoiceItems.InvoiceItem.OnCreate | src/main/java/com/fabrica/p6f5/springapp/invoice/model/InvoiceItem.java:65-71 | `createdAt` becomes now; a present total is kept and a missing one becomes price × quantity |
| InvoiceItems.CalculateTotalIdempotent | src/main/java/com/fabrica/p6f5/springapp/invoice/model/InvoiceItem.java:76-80 | Calculating twice gives the item calculating once gives |
| InvoiceItems.OnCreateKeepsComputedTotal | src/main/java/com/fabrica/p6f5/springapp/invoice/model/InvoiceItem.java:65-80 | After `calculateTotal`, `onCreate` never overwrites the computed total |
| InvoiceItems.PositiveTotal | src/main/java/com/fabrica/p6f5/springapp/invoice/model/InvoiceItem.java:47-60 | With quantity at least 1 and a positive price, the total is at least the price, hence positive |
| InvoiceShipments.InvoiceShipment.OnCreate | src/main/java/com/fabrica/p6f5/springapp/invoice/model/InvoiceShipment.java:41-44 | Only `createdAt` changes, to now |
| AuditModel.AuditLog.OnCreate | src/main/java/com/fabrica/p6f5/springapp/audit/model/AuditLog.java:61-64 | Only `createdAt` changes, to now |
| AuditModel.InvoiceHistory.OnCreate | src/main/java/com/fabrica/p6f5/springapp/audit/model/InvoiceHistory.java:53-56 | Only `createdAt` changes, to now |
| AuditModel.NewHistory | src/main/java/com/fabrica/p6f5/springapp/audit/model/InvoiceHistory.java:50-51 | A new snapshot carries the given fields and is not reverted |
| PdfModel.PdfLog.OnCreate | src/main/java/com/fabrica/p6f5/springapp/pdf/model/PdfLog.java:48-51 | Only `generatedAt` changes, to now |
| Audit.Logged | src/main/java/com/fabrica/p6f5/springapp/audit/service/AuditService.java:39-61 | The audit table gains at most one row, existing rows untouched, and the new row names the entity and the action and takes the next id |
| Audit.AuditService.LogEvent | src/main/java/com/fabrica/p6f5/springapp/audit/service/AuditService.java:39-61 | Fails exactly when a non-null payload does not serialize, and then appends nothing; otherwise appends exactly one event with the given type, id, action, user and summary, and old or new data only when passed |
| Audit.AuditService.SaveInvoiceHistory | src/main/java/com/fabrica/p6f5/springapp/audit/service/AuditService.java:66-83 | Fails exactly when the invoice does not serialize, and then appends nothing; otherwise appends one snapshot with the given invoice id, version, folio, number and creator, not reverted |
| Audit.AuditService.GetAuditLogs | src/main/java/com/fabrica/p6f5/springapp/audit/service/AuditService.java:88-90 | Exactly the entity's events, newest first |
| Audit.AuditService.GetInvoiceHistory | src/main/java/com/fabrica/p6f5/springapp/audit/service/AuditService.java:95-97 | Exactly the invoice's snapshots, each as many times as the table holds it, highest version first |
| Audit.AuditService.GetInvoiceHistoryVersion | src/main/java/com/fabrica/p6f5/springapp/audit/service/AuditService.java:102-104 | Absent exactly when the invoice's history lacks that version. It is the incorrect-result-size error exactly when two rows record that invoice and version. Otherwise it is the one snapshot of that version, taken from the invoice's history |
| Audit.AuditService.GetLatestInvoiceVersion | src/main/java/com/fabrica/p6f5/springapp/audit/service/AuditService.java:109-111 | The head of the history, absent exactly when the history is empty, and of the highest version |
| Audit.AuditService.GetInvoiceVersionCount | src/main/java/com/fabrica/p6f5/springapp/audit/service/AuditService.java:116-118 | The length of the invoice's history |
| Pdf.PdfService.GenerateInvoicePdf | src/main/java/com/fabrica/p6f5/springapp/pdf/service/PdfService.java:33-84 | Fails with not found for an unknown invoice, with "only ISSUED" for any other status, or with the generation failure; on any failure both tables are unchanged. For a stored ISSUED invoice and no fault it succeeds with the invoice's URL, stores it on the invoice (nothing else changes but, when the URL is new, `updatedAt` and version + 1) and leaves one SUCCESS log row with that URL and template "STANDARD" |
| Pdf.GenerateMockPdfUrl | src/main/java/com/fabrica/p6f5/springapp/pdf/service/PdfService.java:89-92 | The URL is the fixed prefix, the decimal invoice id and ".pdf" |
| Pdf.MockPdfUrlIdentifiesInvoice | src/main/java/com/fabrica/p6f5/springapp/pdf/service/PdfService.java:89-92 | Two saved invoices with the same URL have the same id |
| Pdf.SuccessLog | src/main/java/com/fabrica/p6f5/springapp/pdf/service/PdfService.java:46-61 | The surviving log row is SUCCESS with the URL and template "STANDARD", for that invoice and user |
| Pdf.PdfKeepsInvoice | src/main/java/com/fabrica/p6f5/springapp/pdf/service/PdfService.java:63-65 | Recording the URL leaves the invoice ISSUED and changes nothing but the URL, `updatedAt` and the version; the invoice is unchanged exactly when it already had that URL, and otherwise the version goes up by one |
| Pdf.RegeneratingKeepsInvoice | src/main/java/com/fabrica/p6f5/springapp/pdf/service/PdfService.java:63-65 | Generating again for the same invoice computes the same URL and leaves the invoice row as it is |
| Errors.NotFoundMessageNamesId | src/main/java/com/fabrica/p6f5/springapp/invoice/service/InvoiceService.java:146 | Two not-found messages are equal only for the same invoice id |
| InvoiceTable.FindById | src/main/java/com/fabrica/p6f5/springapp/invoice/service/InvoiceService.java:145-146 | Present exactly when an invoice has that id, and then it is that invoice |
| InvoiceTable.FindByFiscalFolio | src/main/java/com/fabrica/p6f5/springapp/invoice/repository/InvoiceRepository.java:25 | Absent exactly when no invoice has that folio; present ones have it |
| InvoiceTable.FindByInvoiceNumber | src/main/java/com/fabrica/p6f5/springapp/invoice/repository/InvoiceRepository.java:33 | Absent exactly when no invoice has that number; present ones have it |
| InvoiceTable.ExistsByFiscalFolio | src/main/java/com/fabrica/p6f5/springapp/invoice/repository/InvoiceRepository.java:74 | True exactly when `findByFiscalFolio` is present |
| InvoiceTable.ExistsByInvoiceNumber | src/main/java/com/fabrica/p6f5/springapp/invoice/repository/InvoiceRepository.java:82 | True exactly when `findByInvoiceNumber` is present |
| InvoiceTable.LookupsMatchAtMostOne | src/main/java/com/fabrica/p6f5/springapp/invoice/model/Invoice.java:33-38 | Under the unique columns, a folio and a number each match at most one invoice |
| InvoiceTable.FindByStatusOrderByCreatedAtDesc | src/main/java/com/fabrica/p6f5/springapp/invoice/repository/InvoiceRepository.java:41 | Exactly the invoices in that status, as a permutation of them, with `createdAt` non-increasing |
| InvoiceTable.CountByStatus | src/main/java/com/fabrica/p6f5/springapp/invoice/repository/InvoiceRepository.java:99 | Equals the length of `findByStatusOrderByCreatedAtDesc` for the same status |
| InvoiceTable.FindByClientNameOrderByInvoiceDateDesc | src/main/java/com/fabrica/p6f5/springapp/invoice/repository/InvoiceRepository.java:49 | Exactly the invoices of that client, as a permutation of them, invoice date non-increasing |
| InvoiceTable.FindByCreatedByOrderByCreatedAtDesc | src/main/java/com/fabrica/p6f5/springapp/invoice/repository/InvoiceRepository.java:57 | Exactly the invoices created by that user, as a permutation of them, newest first |
| InvoiceTable.FindByInvoiceDateBetweenOrderByInvoiceDateDesc | src/main/java/com/fabrica/p6f5/springapp/invoice/repository/InvoiceRepository.java:66 | Exactly the invoices dated within the range, both ends included, as a permutation of them, invoice date non-increasing |
| InvoiceTable.FindDraftsReadyForIssuance | src/main/java/com/fabrica/p6f5/springapp/invoice/repository/InvoiceRepository.java:89-91 | Exactly the DRAFT invoices with a positive subtotal, some item and a non-null client name, in table order |
| InvoiceTable.IssuableIsReady | src/main/java/com/fabrica/p6f5/springapp/invoice/repository/InvoiceRepository.java:89-91 | Every saved invoice that `canBeIssued` accepts is returned by the drafts-ready query |
| InvoiceTable.BlankNameReadyButNotIssuable | src/main/java/com/fabrica/p6f5/springapp/invoice/repository/InvoiceRepository.java:89-91 | A draft whose name is only spaces is returned by the query yet rejected by `canBeIssued` |
| InvoiceTable.ReadyMeansIssuable | src/main/java/com/fabrica/p6f5/springapp/invoice/repository/InvoiceRepository.java:89-91 | When every stored name is non-blank, the query returns exactly the invoices `canBeIssued` accepts |
| InvoiceTable.Inserted | src/main/java/com/fabrica/p6f5/springapp/invoice/model/Invoice.java:96-103 | An inserted invoice gets its id and both timestamps and keeps its version, status and number |
| InvoiceTable.Updated | src/main/java/com/fabrica/p6f5/springapp/invoice/model/Invoice.java:86-108 | A written invoice gets `updatedAt` = now and version + 1 and nothing else changes |
| InvoiceTable.Flushed | src/main/java/com/fabrica/p6f5/springapp/invoice/model/Invoice.java:86-108 | The flush leaves the stored row as it is exactly when no column changed, and the version then stays; otherwise `updatedAt` = now and version + 1; no other column changes |
| InvoiceTable.InvoiceRepository.Save | src/main/java/com/fabrica/p6f5/springapp/invoice/model/Invoice.java:28-31 | A new invoice is appended with the next id; a saved one replaces its own row as the flush writes it: unchanged when no column changed, otherwise stamped and at version + 1 |
| ItemTable.FindByInvoiceId | src/main/java/com/fabrica/p6f5/springapp/invoice/repository/InvoiceItemRepository.java:22 | Exactly the items owned by that invoice, in table order |
| ItemTable.WithoutInvoice | src/main/java/com/fabrica/p6f5/springapp/invoice/repository/InvoiceItemRepository.java:29 | Removes every item of that invoice, keeps every other item; afterwards that invoice has no items and every other invoice has the same items |
| ItemTable.InvoiceItemRepository.DeleteByInvoiceId | src/main/java/com/fabrica/p6f5/springapp/invoice/repository/InvoiceItemRepository.java:29 | The table becomes `WithoutInvoice` of the old table |
| ItemTable.InvoiceItemRepository.SaveAll | src/main/java/com/fabrica/p6f5/springapp/invoice/model/InvoiceItem.java:65-71 | Appends the items in order, each stamped by `onCreate` with the next consecutive id |
| ItemTable.ReplaceItems | src/main/java/com/fabrica/p6f5/springapp/invoice/repository/InvoiceItemRepository.java:22-29 | After delete and re-save, the invoice owns exactly the new items and the other invoices keep theirs |
| ItemTable.AppendItems | src/main/java/com/fabrica/p6f5/springapp/invoice/repository/InvoiceItemRepository.java:22 | Saving one invoice's items changes no other invoice's items |
| LinkTable.FindByInvoiceId | src/main/java/com/fabrica/p6f5/springapp/invoice/repository/InvoiceShipmentRepository.java:23 | Exactly the links of that invoice, in table order |
| LinkTable.FindByInvoiceIdAndShipmentId | src/main/java/com/fabrica/p6f5/springapp/invoice/repository/InvoiceShipmentRepository.java:32 | Absent exactly when no link joins that pair. It is the incorrect-result-size error, with the match count, exactly when two links do. Otherwise it is the only such link, and the shipment is linked by `existsByShipmentId` too |
| LinkTable.WithoutInvoice | src/main/java/com/fabrica/p6f5/springapp/invoice/repository/InvoiceShipmentRepository.java:47 | Removes exactly that invoice's links and keeps every other link |
| LinkTable.InvoiceShipmentRepository.DeleteByInvoiceId | src/main/java/com/fabrica/p6f5/springapp/invoice/repository/InvoiceShipmentRepository.java:47 | The table becomes `WithoutInvoice` of the old table |
| LinkTable.ReplaceLinks | src/main/java/com/fabrica/p6f5/springapp/invoice/repository/InvoiceShipmentRepository.java:23-47 | After delete and re-link, the invoice's links are exactly the new ones; other invoices keep theirs |
| LinkTable.AppendLinks | src/main/java/com/fabrica/p6f5/springapp/invoice/repository/InvoiceShipmentRepository.java:23 | Saving one invoice's links changes no other invoice's links |
| HistoryTable.FindByInvoiceIdOrderByVersionDesc | src/main/java/com/fabrica/p6f5/springapp/audit/repository/InvoiceHistoryRepository.java:23 | Exactly that invoice's snapshots, as a permutation of them, version non-increasing |
| HistoryTable.FindByInvoiceIdAndVersion | src/main/java/com/fabrica/p6f5/springapp/audit/repository/InvoiceHistoryRepository.java:32 | Absent exactly when no snapshot has that invoice and version. It is the incorrect-result-size error, with the match count, exactly when two do. Otherwise it is the only such snapshot |
| HistoryTable.FindFirstByInvoiceIdOrderByVersionDesc | src/main/java/com/fabrica/p6f5/springapp/audit/repository/InvoiceHistoryRepository.java:40 | The head of the descending list, absent exactly when it is empty, of the highest version |
| HistoryTable.CountByInvoiceId | src/main/java/com/fabrica/p6f5/springapp/audit/repository/InvoiceHistoryRepository.java:48 | Equals the length of the descending list |
| AuditTable.FindByEntityTypeAndEntityIdOrderByCreatedAtDesc | src/main/java/com/fabrica/p6f5/springapp/audit/repository/AuditLogRepository.java:24 | Exactly that entity's events, as a permutation of them, newest first |
| AuditTable.FindByActionOrderByCreatedAtDesc | src/main/java/com/fabrica/p6f5/springapp/audit/repository/AuditLogRepository.java:32 | Exactly the events with that action, as a permutation of them, newest first |
| AuditTable.FindByChangedByOrderByCreatedAtDesc | src/main/java/com/fabrica/p6f5/springapp/audit/repository/AuditLogRepository.java:40 | Exactly the events by that user, as a permutation of them, newest first |
| AuditTable.FindByCreatedAtBetweenOrderByCreatedAtDesc | src/main/java/com/fabrica/p6f5/springapp/audit/repository/AuditLogRepository.java:49 | Exactly the events logged within the range, both ends included, as a permutation of them, newest first |
| LedgerLaws.EmptyConsistent | src/main/java/com/fabrica/p6f5/springapp/invoice/model/Invoice.java:28-94 | The empty database is consistent |
| LedgerLaws.AmountsNonNegative | src/main/java/com/fabrica/p6f5/springapp/invoice/model/Invoice.java:52-64 | In a consistent database subtotal and total are never negative, and the subtotal is positive exactly when the invoice has items |
| LedgerLaws.SnapshotsUnique | src/main/java/com/fabrica/p6f5/springapp/audit/repository/InvoiceHistoryRepository.java:32 | In a consistent database no two snapshots share invoice and version, so the version lookup is single-valued |
| LedgerLaws.VersionLookupSucceeds | src/main/java/com/fabrica/p6f5/springapp/audit/repository/InvoiceHistoryRepository.java:32 | In a consistent database `findByInvoiceIdAndVersion` never fails with an incorrect result size |
| LedgerLaws.ReadyDraftsAreIssuable | src/main/java/com/fabrica/p6f5/springapp/invoice/repository/InvoiceRepository.java:89-91 | In a consistent database the drafts-ready query returns exactly the invoices `canBeIssued` accepts |
| LedgerLaws.CreateKeeps | src/main/java/com/fabrica/p6f5/springapp/invoice/service/InvoiceService.java:87-127 | Appending a valid new draft with its own items and links keeps the database consistent |
| LedgerLaws.UpdateKeeps | src/main/java/com/fabrica/p6f5/springapp/invoice/service/InvoiceService.java:159-242 | Replacing a draft's header, items and links, with a snapshot of its old version, keeps the database consistent |
| LedgerLaws.IssueKeeps | src/main/java/com/fabrica/p6f5/springapp/invoice/service/InvoiceService.java:272-295 | Issuing an issuable draft with a fresh folio keeps the database consistent |
| LedgerLaws.PdfKeeps | src/main/java/com/fabrica/p6f5/springapp/pdf/service/PdfService.java:63-65 | Recording a PDF URL on an ISSUED invoice keeps the database consistent, whether or not the flush writes the row |

## Left out

- Controllers, security, configuration and the exception handler: HTTP and framework wiring around the core.
- Jackson serialization: it is the `objectMapper` function of `AuditService`, which returns `None` where `writeValueAsString` throws. The JSON text itself is not modelled.
- `generateInvoiceNumber` and `generateFiscalFolio`: UUID and clock based. The generated string is a parameter. The `INV-` or `FISCAL-` prefix and freshness are preconditions.
- `LocalDateTime.now()` and `LocalDate.now()`: one `Clock` parameter per call.
- When Hibernate flushes: each write of a stored invoice happens where the code's flush does. In update, the flush before the item loop writes the edited header. In issue, nothing is flushed before the audit and history writes, so they see the issued invoice at its old version.
- Billing.InvoiceService.UpdateDraftInvoice: commits even when a caught `saveInvoiceHistory` or `logEvent` threw, as the `catch` blocks intend. Spring marks the transaction rollback-only instead, and the commit then throws and undoes the update; `UpdateDraftInvoiceAsWritten` models that (see Findings).
- Billing.UpdateCommits: assumes the update is flushed at the next version. The update as written is not flushed when it changes no column; `ChangingUpdateCommits` covers the update that changes one, and `NoOpUpdateRepeatsSnapshotVersion` shows the other case breaks consistency (see Findings).
- Issue's rollback-only case: issue's caught `saveInvoiceHistory` cannot throw in the model. It serializes the same invoice as the `logEvent` before it, whose failure already aborts the issue (`IssueSnapshotAlwaysSaved`). A database error inside either write is not modelled.
- Lazy loading, cascades and `orphanRemoval`: an invoice's items and links are the rows of their tables that point to it. Update's `findByInvoiceId` plus `deleteAll` is the same as `deleteByInvoiceId`.
- Concurrency: the version check is a sequential comparison.
- Bean Validation: these constraints are preconditions (`FieldsValid`, `CreateValid`). They cover the request's `@NotBlank` and `@NotEmpty`, and the entities' `@Min(1)` quantity, `@Positive` price and `@PositiveOrZero` tax, which the framework enforces at flush.
- Column precision and scale: money is an exact `int` of minor units.
- Entity objects are values: in-place mutation of managed objects, and aliasing between them, are not captured. For example, in issue the `invoice` and `issuedInvoice` are one object; the model uses one value for both.
- `InvoiceResponse.fromEntity` and `InvoiceHistoryResponse`: field copies. The operations return the invoice itself.
- `getAllInvoices`: the invoice table itself.
- Logger calls: no effect on state.
- Shipment management: CRUD outside the core. Only the set of existing shipment ids is modelled.
- PAID, CANCELLED, REVERT and PUBLISH: declared but never produced by any operation, so no transition makes them.
- Queries of `PdfLogRepository`: not used by the core. The PDF log table is only written.
- Ids: a simplification. IDENTITY ids are dense positions here, and `Rollback` restores the id counters. No invoice or snapshot is ever deleted. The database is PostgreSQL (the `jsonb` columns), whose identity values are never handed back on rollback. So the real ids have gaps after a rolled-back create or update, while the model reuses them.
- Errors.Error.Message: the text for `IncorrectResultSize` follows Hibernate's `NonUniqueResultException` wording. That wording comes from the persistence library, not from the repository.
- Invoice fields the service sets but `Invoice.java` does not declare: `clientNit`, `clientAddress`, `clientEmail`, `paymentMethod` and `observations` are optional strings. `CreateInvoiceRequest.java` does not declare them either.
- `UpdateInvoiceRequest`: not part of this model's sources. Its fields are inferred from the getters the service calls: the create fields plus an optional `version`.
- Request item lists: never null, and invoice and due dates are always present, as their `@NotEmpty`/`@NotNull` constraints demand. The create DTO declares them on its fields.
- Pdf.PdfService.GenerateInvoicePdf: the failure branch is modelled through a `fault` parameter with the exception message. It covers exceptions raised after the PENDING row is written. Where inside the `try` the exception arises does not matter, because the rollback discards every write either way.

## Findings

| source | as written | input that shows it | evidently intended | confidence | as-written member | corrected member |
|---|---|---|---|---|---|---|
| src/main/java/com/fabrica/p6f5/springapp/invoice/service/InvoiceService.java:157-165 | The update catches exceptions from `saveInvoiceHistory` and `logEvent` (also at lines 243-250). Both are `@Transactional` methods of `AuditService` that join the update's transaction, so the proxy marks it rollback-only when one throws. The commit then undoes the whole update and throws `UnexpectedRollbackException` | An update of a draft whose loaded state Jackson cannot serialize | The comments say a failed history or audit write must not fail the update: it commits without that row | not executed; high, from Spring's default handling of a failing participating transaction | Billing.InvoiceService.UpdateDraftInvoiceAsWritten | Billing.InvoiceService.UpdateDraftInvoice |
| src/main/java/com/fabrica/p6f5/springapp/invoice/service/InvoiceService.java:158-196 | The snapshot records the version the invoice has before the edit. Hibernate raises the version only when the flush at lines 195-196 finds a changed column. An update that changes no column leaves the version as it is, so the next update snapshots the same version again, and `findByInvoiceIdAndVersion` then matches two rows | The same update request sent twice (`Billing.ResubmittedUpdateIsNoOp`), then any further update | Every committed update moves the invoice past the version its snapshot records, so snapshot versions stay unique | not executed; medium, as it depends on the dirty check seeing no change to the invoice row | Billing.NoOpUpdateRepeatsSnapshotVersion | Billing.UpdateCommits |
