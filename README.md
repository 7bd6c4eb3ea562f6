# Inpatient service creation, modelled in Dafny

This project models the service-creation logic attached to a hospital
Inpatient Record, together with the form script that guards its save.

**Server side (`inpatient_handler.py`).** After an Inpatient Record is saved,
`create_services` runs three processors in a fixed order: medications, lab
tests, procedures. Each processor walks one prescription child table. For
every row whose `custom_linked_document` is unset, it:

- builds a service document (a Medication Request, a Lab Test or a Clinical
  Procedure);
- inserts it into the store;
- writes the new document's name back into the row.

A failed insert adds one line to a shared error list, and the loop goes on
with the next row. At the end one notification is shown: red, listing every
error line, or green.

`check_duplicate_services` takes a list of candidate services and returns,
in order, the ones that already exist for the patient and are not cancelled.

**Client side (`comfirm.js`).** Before a save, the form collects the unlinked
rows of the three tables as candidates. If there are any, it holds the save
and asks the server which candidates are duplicates. It saves again once the
answer shows none, or once the user chooses to proceed anyway. A flag lets
that second save through, and `refresh` clears the flag.

## Files

- `store.dfy` (module `Store`): the host document store, seen from outside.
  - Its state is the stored documents plus the position of its naming series.
  - An oracle decides whether an insert raises.
  - `DocumentStore` is the store as a mutable object. Its invariant is that
    names are unique and the series only hands out fresh ones.
- `inpatient.dfy` (module `Inpatient`): the Inpatient Record.
  - Its header fields, and the prescription rows with their three kinds.
  - The pending (unlinked) rows.
  - The document built for a row (`Build`).
  - `InpatientRecord`, a class whose three child tables are arrays of rows.
- `duplicates.dfy` (module `Duplicates`): `check_duplicate_services` as an
  order-preserving filter.
- `processing.dfy` (module `Processing`):
  - the per-row step and the per-table run as specification functions;
  - the in-place processor loops (`ProcessTable` and its three wrappers);
  - the notification;
  - the orchestrator `CreateServices`;
  - the lemmas about all of these.
- `form.dfy` (module `Form`):
  - `collect_services` as a loop over a table;
  - the form object with its flag and the `validated` gate;
  - lemmas relating the form's selection to the server's processing and
    duplicate check.

Where the processors mutate state, the model does too. A child table is an
`array<Row>` that the loop updates in place. The store is an object whose
`db` field `Insert` replaces. The shared error list is a sequence threaded
through the calls.

Each method is proved against a specification function: `RunTable` for one
table, `RunAll` for the orchestrator and `Collected` for the form. The
properties of the source are then proved about those functions.

## Model

| member | source | states |
|---|---|---|
| Store.InsertInto | inpatient_handler.py:85-94 | inserting raises exactly when the oracle says so, with the oracle's message; otherwise the document is appended as a draft under the series name at the counter, and the counter advances by one |
| Store.InsertKeepsValid | inpatient_handler.py:94 | an accepted insert keeps document names unique, and the name it hands out was not in use before |
| Store.DocumentStore.Insert | inpatient_handler.py:94 | returns the new name or the raised message; the store becomes exactly what `InsertInto` says; the store invariant is kept |
| Inpatient.Unlinked | inpatient_handler.py:78-79 | the pending rows are no more than the table; none are pending exactly when every row is linked |
| Inpatient.UnlinkedMembers | inpatient_handler.py:78-79 | a row is pending exactly when it is in the table and its `custom_linked_document` is unset |
| Inpatient.PatientSex | inpatient_handler.py:117 | the patient sex is the record's gender when that is set, and "Other" when it is not (`doc.gender or "Other"`) |
| Inpatient.Build | inpatient_handler.py:85-157 | the document built for a row is of the row's own kind (Medication Request, Lab Test, Clinical Procedure), for the record's patient and naming the record |
| Inpatient.MedicationRequestFields | inpatient_handler.py:85-93 | a drug row becomes a Medication Request with the drug name, dosage form, dosage and the record's primary practitioner, patient and name |
| Inpatient.LabTestFields | inpatient_handler.py:117-126 | a lab test row becomes a draft Lab Test with its code as template and the record's gender or "Other" as patient sex |
| Inpatient.ClinicalProcedureFields | inpatient_handler.py:151-157 | a procedure row becomes a draft Clinical Procedure with its name as procedure template |
| Duplicates.KeyField | inpatient_handler.py:46-65 | a stored document has a key field for a service type exactly when the type is the tag of the document's kind; any other type has none (the `existing = []` branch) |
| Duplicates.Matches | inpatient_handler.py:47-63 | a document matches a query only if it is not cancelled (docstatus below 2), belongs to the patient and is of the doctype the service type maps to |
| Duplicates.Exists | inpatient_handler.py:46-67 | the query finds nothing in an empty store, and finds something only for one of the three service type tags |
| Duplicates.CheckDuplicateServices | inpatient_handler.py:42-73 | the result is a subsequence of the candidates, and holds a candidate exactly when a matching, not cancelled document of the mapped kind exists for the patient |
| Duplicates.DuplicateCounts | inpatient_handler.py:67-71 | every occurrence of an existing candidate is kept and no other candidate is: the result is exactly the filter of the input |
| Duplicates.CheckConcat | inpatient_handler.py:42-73 | each candidate is judged on its own: checking a concatenation concatenates the checks |
| Duplicates.UnknownTypeNeverDuplicate | inpatient_handler.py:64-65 | a service type other than "Medication", "Lab Test" and "Procedure" is never reported |
| Duplicates.CancelledDocumentIgnored | inpatient_handler.py:47-51 | a document with docstatus 2 or more never makes a candidate a duplicate |
| Duplicates.BuiltDocumentMatches | inpatient_handler.py:46-63 | the document built for a row matches the query the check runs for that row's tag and name |
| Duplicates.AllExistingKept | inpatient_handler.py:67-71 | when every candidate exists, the check returns the whole candidate list |
| Processing.Failure.Text | inpatient_handler.py:104 | an error line starts with the kind's tag and ends with the message the insert raised |
| Processing.VisitRow | inpatient_handler.py:79-108 | one loop turn: the row keeps its name and item; a linked row is skipped with nothing changed; the old documents stay a prefix of the store, which gains at most one; at most one error, and when there is one the row and store are as before and the error names the row's kind and descriptor |
| Processing.RunTable | inpatient_handler.py:78-108 | the loop over a table, row by row: as many rows out as in, at most one error per row, and the old documents stay a prefix of the store, which grows by at most one document per row |
| Processing.VisitCases | inpatient_handler.py:79-104 | one row step: the row ends up linked with no error added, or stays unlinked and unchanged with exactly one error about it; the store gains the built document exactly when the row gets linked |
| Processing.LinkageForwardOnly | inpatient_handler.py:98 | after a run every row is unchanged, or went from unlinked to linked with only its link field changed |
| Processing.RunTableSplit | inpatient_handler.py:78 | running a table in two parts equals running it whole, the second part starting from the store the first left |
| Processing.FailingRowIsolated | inpatient_handler.py:102-104 | when a row's insert raises, the store is untouched, one error line naming the row is added, and later rows are processed as if the row were absent |
| Processing.LinkedRowSkipped | inpatient_handler.py:105-108 | a linked row creates nothing, changes nothing and adds no error |
| Processing.AllLinkedIsNoOp | inpatient_handler.py:79 | over a fully linked table a processor creates nothing, changes no row and adds no error |
| Processing.ErrorsFollowFailedRows | inpatient_handler.py:102-104 | a run adds one error per row left unlinked, in table order, each naming the row's kind and descriptor |
| Processing.RunTableCreates | inpatient_handler.py:94-98 | the store after a run is the store before plus, in row order, one draft document per newly linked row, built from the row and named as the row now says |
| Processing.RunTableKeepsValid | inpatient_handler.py:94 | a run keeps document names unique |
| Processing.NewlyLinkedRowIsDuplicate | inpatient_handler.py:94-98 | every row a run links is afterwards found by the duplicate check under its own tag and name |
| Processing.VisitInPlace | inpatient_handler.py:79-104 | one loop turn on the array: row `i` and the store become what the row step says, and the error list grows by its errors |
| Processing.ProcessTable | inpatient_handler.py:75-108 | the processor loop leaves the table, the store and the error list exactly as `RunTable` says |
| Processing.ProcessMedications | inpatient_handler.py:75-108 | process_medications runs the loop over drug_prescription |
| Processing.ProcessLabTests | inpatient_handler.py:110-141 | process_lab_tests runs the loop over lab_test_prescription |
| Processing.ProcessProcedures | inpatient_handler.py:143-172 | process_procedures runs the loop over procedure_prescription |
| Processing.JoinLines | inpatient_handler.py:22 | `"\n".join`: lines holding no line break are joined with exactly one line break between each two |
| Processing.SplitJoin | inpatient_handler.py:22 | joining lines that hold no line break with "\n" and splitting again gives the lines back |
| Processing.Summary | inpatient_handler.py:21-33 | the notification is red exactly when the error list is non-empty |
| Processing.SummaryListsErrors | inpatient_handler.py:21-27 | the red message is the heading followed by every error line, one per line, in order |
| Processing.RunAll | inpatient_handler.py:15-19 | the three processors in order over one store and one error list: every table keeps its length, there is at most one error per row, and the old documents stay a prefix of the store |
| Processing.ErrorsGroupedByKind | inpatient_handler.py:15-19 | errors come medications first, then lab tests, then procedures, each group in row order, one per row left unlinked |
| Processing.GreenIffAllLinked | inpatient_handler.py:21-33 | the notification is green exactly when every row of every table is linked after the run |
| Processing.RerunCreatesNothing | inpatient_handler.py:6-33 | running create_services again after a run without errors creates nothing, changes no row and shows the green message |
| Processing.RunAllKeepsValid | inpatient_handler.py:15-19 | a whole run keeps document names unique |
| Processing.RunProcessors | inpatient_handler.py:15-19 | the three processors in order leave the tables, the store and the shared error list as `RunAll` says, and keep the store invariant |
| Processing.CreateServices | inpatient_handler.py:6-33 | create_services: tables and store as `RunAll` says, and the notification summarises the run's errors |
| Form.CandidateOf | comfirm.js:19-24 | a candidate's service type identifies the table's kind, and it carries the row's name and the table's field |
| Form.Collected | comfirm.js:15-27 | no more candidates than rows, none exactly when every row is linked, and every candidate tagged with the table's kind and field |
| Form.ServicesToCheck | comfirm.js:29-32 | the candidates of the three tables together, one per pending row |
| Form.CollectedMirrorsUnlinked | comfirm.js:15-27 | the form collects exactly one candidate per unlinked row, in row order, carrying the table's tag, the row's name field, the row name and the table field |
| Form.CollectServices | comfirm.js:15-27 | the loop appends to the list exactly the candidates of the table's unlinked rows, in row order |
| Form.NothingToCheckIffAllLinked | comfirm.js:29-40 | there is nothing to check exactly when every row of the three tables is linked |
| Form.CollectedFoundAfterRun | comfirm.js:30-32 | after an error-free processor run, every candidate the form had collected from that table exists under the tag the form uses |
| Form.RunKeepsFound | inpatient_handler.py:94-98 | a processor run only adds documents, so a document the duplicate check found stays found |
| Form.CandidateFoundAfterCleanRun | comfirm.js:30-32 | after an error-free create_services run, each candidate collected before it exists in the store under the form's tag and name |
| Form.CleanRunFlagsEveryCandidate | comfirm.js:30-37 | after an error-free create_services run, the duplicate check reports every candidate collected before it |
| Form.InpatientForm.Refresh | comfirm.js:2-5 | refresh clears the flag and nothing else |
| Form.InpatientForm.BeforeSave | comfirm.js:6-41 | with the flag set, nothing happens; otherwise the save goes ahead exactly when there is nothing to check, and the check is requested for the patient with all candidates in table order |
| Form.InpatientForm.SaveWithCheck | comfirm.js:6-78 | a save held for a check: with no duplicates or when the user proceeds, the form saves again and the second `before_save` lets it through (`validated`, no new request); on cancel the save stays held; with the flag already set nothing is requested |
| Form.InpatientForm.OnCheckReply | comfirm.js:55-78 | with no duplicates, or when the user proceeds, the flag is set and the form saves again; on cancel the save stays held and the flag is unchanged |

## Left out

- The Service Request companion document is not modelled. Another revision
  of the handler has every processor also create one per created document.
  The revision modelled here never does, and the model follows its code.
- Logging, error tracebacks, translation of messages and how a notification
  is displayed are left out. The notification is a value (title, message,
  indicator).
- The JSON decoding of a string `services` argument is left out. The
  candidates arrive already parsed, and a candidate always has a type and a
  name.
- The store's internals are abstract.
  - `insert` is an oracle that may raise, plus a naming series.
  - `get_all` with its filters and limit is the `Exists` predicate.
  - Permissions, transactions and the database's string collation are left
    out: names compare exactly.
- `db_update` is assumed to succeed. Setting a row's link is taken as
  persisting it. The case where the insert succeeds but the write-back
  fails is not modelled.
- The error line for a failed row uses that row's own descriptor. In
  Python, a name read inside the `try` could be unbound or stale if the
  failure came before it was assigned; this is not modelled.
- A record that lacks a child table is given an empty table. The source
  returns early when the attribute is missing (hasattr), and the form reads
  it as `[]`. Both behave as an empty table does: nothing is created,
  collected or reported.
- An unset `custom_linked_document` (None or '') is the empty string.
- `collect_services` takes a table field, a tag and a name field as
  strings. The model takes the table's kind, which fixes all three.
- The three tables hold rows of their own kind (`OfKind`,
  `InpatientRecord.WellKinded`). The processor methods and the form-server
  agreement lemmas require this; the record's child table types guarantee it.
- Whether an insert raises depends only on the stored documents and the
  document being inserted, and a rejected insert leaves the store as it
  was. Transient failures, where the same insert fails once and succeeds on
  a retry in the same run (a lock timeout, say), are not modelled: when the
  first of two identical pending rows is rejected, so is the second.
- The form's asynchronous plumbing is reduced to its effect on the flag and
  on `validated`. This covers `frappe.call`, the confirmation dialog and its
  text, `frm.save`, `after_save` and `reload_doc`. The user's answer in the
  dialog is a parameter.
- admit.js, which only toggles display properties, is not part of this
  model.
- Processing.ProcessTable, Processing.VisitInPlace and the three per-table
  processors do not carry the store's name-uniqueness invariant
  themselves. It is proved about whole runs (`RunTableKeepsValid`,
  `RunAllKeepsValid`) and kept by `RunProcessors` and `CreateServices`.
