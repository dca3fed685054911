# Failed-sync queue and radiology orders of the Abershum Odoo modules

This project models two integrations that an Odoo deployment of a clinic runs to reach outside
systems, and proves properties of the model.

**Laboratory side (OpenELIS).** Lab tests (products), test orders (sale orders with lab lines)
and patients (customers) are pushed to OpenELIS over HTTP. A failed push is never lost: it is
filed in the `openelis.failed.event` table, deduplicated per subject, numbered for FIFO retry,
and retried by an operator or by a cron job with a 15-minute-per-attempt backoff. The model
covers:

- the table with its create/write guards;
- `create_or_update_failed_event` with its dedup search and sequence numbers;
- `_call_openelis_api` and the two sync entry points that call it;
- the patient sync and the create/write/age/constraint hooks of the laboratory `res.partner`;
- `_retry_sync`, `action_retry`, `action_retry_selected`, the cron, `action_mark_success` and
  `action_delete`.

**Radiology side (Orthanc).** Confirming a sale order creates one `orthanc.order` (a radiology
report) per radiology line and writes a DICOM Modality Worklist file for it into the folder
Orthanc watches. Cancelling the sale order cancels its reports. A report moves through
draft → signed → completed (or cancelled), and its content is locked outside draft. The
radiology `res.partner` allocates unique patient ids and UUIDs. The model covers:

- the report's actions, `create`, `write` and `unlink`;
- the sale-order confirm and cancel hooks;
- the worklist builder `create_worklist`;
- the partner's onchange, age compute/inverse, `create` and `write`.

Layout, one module per file, following the source's structure:

- `wrappers.dfy`: `Option` and `Result`. A `Result` error carries the Python exception's class and text.
- `seqs.dfy`, `text.dfy`, `dates.dfy`: list filtering, string helpers, and the calendar.
  `dates.dfy` holds the age formula both partner extensions share, and ISO and DICOM date text.
- `domain.dfy`: the records the core reads (partners, products, order lines, sale orders, radiology reports, payloads, HTTP outcomes).
- `event_queue.dfy`: `openelis.failed.event` as a class `EventStore` over a map of rows. The admission
  logic is written as functions on a `Store` value.
- `sync_service.dfy`: `openelis.sync.service`.
- `elis_partner.dfy`: the laboratory `res.partner` extension (class `PartnerBook`).
- `retry.dfy`: the retry paths of the failed-event model.
- `worklist.dfy`: `orthanc.service.create_worklist` (class `WorklistFolder` for the directory on disk).
- `radiology_orders.dfy`: `orthanc.order` (class `OrderTable`).
- `radiology_sales.dfy`: the Orthanc `sale.order` extension.
- `orthanc_partner.dfy`: the Orthanc `res.partner` extension (class `PatientRegistry`).

The outside world becomes parameters:

- The clock is a `now`/`today` value, and one value is used throughout each call.
- `ir.sequence` draws are `SequenceDraw` values. A draw gives a value, gives none, or raises.
- `uuid4()` is a given fresh string, or a function of the partner id.
- The HTTP reply or the exception `requests.post` raises is an `Outcome`.
  A reply's body is a JSON object (its `status` and `message`), another JSON value (only its
  type name, which `.get` on it reports), or text that is not JSON.
- The worklist directory's existence is a set of directories.
- Odoo's transaction rollback is modelled explicitly:
  - a method that can raise after changing rows (the radiology `create`, `write` and
    confirm, the laboratory partner `create` and `write` on their ValidationError, the Orthanc
    partner `write` on the ValueError of its age inverse) saves the
    rows it may change and restores them when the call raises;
  - record ids and sequence draws already taken are not given back;
  - files already written stay on disk.

Where the order of the table (`sequence_number asc, create_date asc`) leaves two rows tied, the
model breaks the tie by record id; PostgreSQL leaves it unspecified.

## Model

| member | source | states |
|---|---|---|
| EventQueue.EventStore.Create | abershum_elis_sync/models/openelis_failed_event.py:27-33 | without the system flag: UserError with the exact message, table unchanged. With it: the row is stored under the next id. |
| EventQueue.EventStore.Write | abershum_elis_sync/models/openelis_failed_event.py:35-40 | without the system flag: UserError, table unchanged. With it: only row `id` changes. |
| EventQueue.EventStore.FindExisting | abershum_elis_sync/models/openelis_failed_event.py:178-191 | the dedup search returns the first matching unresolved event in table order, or none exactly when nothing matches |
| EventQueue.FirstMatch | abershum_elis_sync/models/openelis_failed_event.py:178-191 | none exactly when no stored event matches the domain; otherwise the match that comes first in table order |
| EventQueue.MatchingIds | abershum_elis_sync/models/openelis_failed_event.py:178-189 | exactly the stored events matching the domain: unresolved, same type, and the same partner ref, else partner, else sale order |
| EventQueue.EarliestExists | abershum_elis_sync/models/openelis_failed_event.py:15 | any non-empty set of events has a first element in table order |
| EventQueue.EarliestUnique | abershum_elis_sync/models/openelis_failed_event.py:15 | table order is total: the first element is unique |
| EventQueue.TopExists | abershum_elis_sync/models/openelis_failed_event.py:240 | any set of events has a largest sequence number (0 for none) |
| EventQueue.TopUnique | abershum_elis_sync/models/openelis_failed_event.py:240 | that largest sequence number is unique |
| EventQueue.TopSequence | abershum_elis_sync/models/openelis_failed_event.py:240 | is the top of all stored sequence numbers |
| EventQueue.NextSequence | abershum_elis_sync/models/openelis_failed_event.py:237-243 | at least 1; above every stored sequence number; either 1 or one more than a stored number |
| EventQueue.DeletedTopNumberReturns | abershum_elis_sync/models/openelis_failed_event.py:237-243 | after the event holding the top number is deleted, the next number is at most its number, and equal to it when the number below is still held or it was 1: numbers are reused |
| EventQueue.EventStore.NextSequenceNumber | abershum_elis_sync/models/openelis_failed_event.py:237-243 | the loop over the rows returns `NextSequence` of the table |
| EventQueue.AdmitFrame | abershum_elis_sync/models/openelis_failed_event.py:160-234 | an admission deletes no event, never lowers the next id, and changes no event other than the one it finds |
| EventQueue.RefreshKeepsSubject | abershum_elis_sync/models/openelis_failed_event.py:198-216 | rewriting a matching event with `update_vals` keeps its subject as the dedup key sees it |
| EventQueue.RefreshPreservesInvariant | abershum_elis_sync/models/openelis_failed_event.py:193-217 | the update branch keeps the queue invariant (fresh ids, no success rows, distinct positive sequence numbers, one unresolved event per subject) |
| EventQueue.FreshPreservesInvariant | abershum_elis_sync/models/openelis_failed_event.py:218-234 | the create branch keeps the queue invariant when nothing matched |
| EventQueue.AdmitPreservesInvariant | abershum_elis_sync/models/openelis_failed_event.py:160-234 | `create_or_update_failed_event` keeps the queue invariant |
| EventQueue.AdmitUpdatesExisting | abershum_elis_sync/models/openelis_failed_event.py:193-217 | a found event keeps its id, sequence number and create date, and takes the new payload and error. Its retry count becomes 0, state pending, and both retry dates are cleared. |
| EventQueue.AdmitCreatesNew | abershum_elis_sync/models/openelis_failed_event.py:218-234 | with no match, a pending event with retry count 0 appears under the next id, numbered above every stored event; other events are unchanged |
| EventQueue.KeyedMatchIsUnique | abershum_elis_sync/models/openelis_failed_event.py:178-191 | under the invariant, a keyed admission matches at most one event, so it is the one found |
| EventQueue.AdmitTarget | abershum_elis_sync/models/openelis_failed_event.py:193-234 | the admitted event is stored, matches the admission, is pending with retry count 0 and carries the new payload and error |
| EventQueue.SameKeyMatches | abershum_elis_sync/models/openelis_failed_event.py:178-189 | an event matching a keyed admission also matches any admission with the same key |
| EventQueue.KeyedMatchesShareSubject | abershum_elis_sync/models/openelis_failed_event.py:178-189 | two events matching one keyed admission share a subject |
| EventQueue.RepeatedAdmission | abershum_elis_sync/models/openelis_failed_event.py:160-234 | two failures for one subject leave one unresolved event, keeping the first id and sequence number and carrying the second payload and error |
| EventQueue.SingleLabTestEvent | abershum_elis_sync/models/openelis_failed_event.py:178-191 | lab-test admissions add no key to the domain, so at most one lab-test event is stored after any admission |
| EventQueue.EventStore.CreateOrUpdate | abershum_elis_sync/models/openelis_failed_event.py:160-234 | the table becomes `Admit` of the old table, still valid; the returned id is stored and matches the admission |
| EventQueue.Unlinked | abershum_elis_sync/models/openelis_failed_event.py:398-400 | exactly the rows outside `ids` remain, unchanged |
| EventQueue.WithoutPartner | abershum_elis_sync/models/openelis_failed_event.py:49-55 | cascade delete: exactly the events not referencing the partner remain, unchanged |
| EventQueue.WithoutSaleOrder | abershum_elis_sync/models/openelis_failed_event.py:61-70 | cascade delete: exactly the events not referencing the sale order remain, unchanged |
| EventQueue.RemovalPreservesInvariant | abershum_elis_sync/models/openelis_failed_event.py:393-400 | removing any rows keeps the queue invariant |
| EventQueue.UpdatePreservesInvariant | abershum_elis_sync/models/openelis_failed_event.py:263-267 | writing non-key fields of an event while keeping it unresolved keeps the invariant |
| EventQueue.EventStore.Unlink | abershum_elis_sync/models/openelis_failed_event.py:398-400 | the table becomes `Unlinked(old, ids)`; next id unchanged |
| EventQueue.EventStore.Delete | abershum_elis_sync/models/openelis_failed_event.py:398-400 | `action_delete` removes exactly the selected events and keeps the invariant |
| EventQueue.EventStore.MarkSuccess | abershum_elis_sync/models/openelis_failed_event.py:393-396 | writing success and then unlinking leaves exactly the unselected events; the invariant holds afterwards |
| EventQueue.EventStore.DeletePartner | abershum_elis_sync/models/openelis_failed_event.py:49-55 | deleting a partner deletes exactly its events |
| EventQueue.EventStore.DeleteSaleOrder | abershum_elis_sync/models/openelis_failed_event.py:61-70 | deleting a sale order deletes exactly its events |
| EventQueue.EarliestOf | abershum_elis_sync/models/openelis_failed_event.py:15 | the element of a non-empty set that comes first in table order |
| EventQueue.EventStore.EarliestAmong | abershum_elis_sync/models/openelis_failed_event.py:15 | the scan returns `EarliestOf` the set |
| EventQueue.QueueOrder | abershum_elis_sync/models/openelis_failed_event.py:15 | lists exactly `ids`, each once, strictly in table order |
| EventQueue.EarliestHeadsOrder | abershum_elis_sync/models/openelis_failed_event.py:15 | the first element put in front of an ordered rest gives an ordered list |
| EventQueue.QueueOrderUnfold | abershum_elis_sync/models/openelis_failed_event.py:15 | the ordered list is the first element followed by the ordered rest |
| EventQueue.QueueOrderDistinct | abershum_elis_sync/models/openelis_failed_event.py:15 | an ordered list has no repetition |
| EventQueue.EventStore.OrderedIds | abershum_elis_sync/models/openelis_failed_event.py:384 | sorting a selection yields `QueueOrder` of it |
| SyncService.NormalizeUrl | abershum_elis_sync/models/openelis_sync_service.py:282-284 | the result always has a scheme. A URL with one is kept; otherwise "http://" goes in front of the URL with its leading slashes stripped. |
| SyncService.RequestUrl | abershum_elis_sync/models/openelis_sync_service.py:278-288 | none exactly when no URL is configured; otherwise it ends in the endpoint and begins with the normalised URL minus trailing slashes |
| SyncService.RaisedResult | abershum_elis_sync/models/openelis_sync_service.py:389-502 | request errors re-raise as UserError: "Failed to connect to OpenELIS API: " plus the text for a connection or other request error, "Request to OpenELIS API timed out: " plus the text for a timeout; any other exception propagates with its own class and text |
| SyncService.ApiDecision | abershum_elis_sync/models/openelis_sync_service.py:269-502 | no URL configured: returns the error dict and files nothing. A failure is filed exactly when the reply is not HTTP 200: with its HTTP type, payload and error text under the sale order from the context, else the payload; a non-object JSON body instead raises AttributeError at `.get`, which is filed with that type and re-raised. On 200 it returns the JSON object, the non-object JSON value, or success for a body that is not JSON. |
| SyncService.ReplyOf | abershum_elis_sync/models/openelis_sync_service.py:72-84 | the entry point's dict says success exactly when the call returned status success. Its message is the reply's own, or "Synced successfully" on success and "Unknown error" otherwise when the reply has none; the message of a raised exception is its text, and a returned non-object value gives the AttributeError text of `response.get`. |
| SyncService.NonObjectReplyReported | abershum_elis_sync/models/openelis_sync_service.py:338-353 | a non-object JSON reply: on 200 nothing is filed and the entry point reports the AttributeError; otherwise it is filed and raised as AttributeError |
| SyncService.PanelTestUuids | abershum_elis_sync/models/openelis_sync_service.py:38-47 | empty for a non-panel; for a panel, exactly its components' non-empty uuids |
| SyncService.LabTestGuard | abershum_elis_sync/models/openelis_sync_service.py:23-34 | the call goes ahead exactly for a lab-test or panel product with sync enabled. No product gives the error dict; the other stops give skipped. |
| SyncService.SyncLabTestOutcomes | abershum_elis_sync/models/openelis_sync_service.py:16-84 | guarded stops leave the queue alone and never report success. Otherwise success is reported exactly when the call returned success, and the queue changes only through a filed failure. |
| SyncService.OrderLinesDataDescribeLines | abershum_elis_sync/models/openelis_sync_service.py:131-140 | one entry per line: its `product_uuid` parses back to the line's product id, its type is Panel or Test, its comment the line text |
| SyncService.PayloadNamesSaleOrder | abershum_elis_sync/models/openelis_sync_service.py:116-118 | the payload's `sale_order_id` parses back to the order id, so both fallbacks file a failure under the order |
| SyncService.TestOrderGuard | abershum_elis_sync/models/openelis_sync_service.py:94-112 | the call goes ahead exactly with sync enabled, a customer and at least one lab-or-panel line; otherwise skipped |
| SyncService.TestOrderFiledUnderOrder | abershum_elis_sync/models/openelis_sync_service.py:87-156 | one payload entry per lab-or-panel line; a failure filed with no context order is filed under the order itself |
| SyncService.LabTestLinesAreSent | abershum_elis_sync/models/openelis_sync_service.py:163-178 | every line `_get_lab_test_order_lines` keeps is among the lines the test-order sync sends |
| SyncService.SelectLabOrPanelLines | abershum_elis_sync/models/openelis_sync_service.py:104-108 | the loop keeps exactly the lab-test or panel lines, in order |
| SyncService.GetLabTestOrderLines | abershum_elis_sync/models/openelis_sync_service.py:163-178 | the loop keeps exactly the product lines whose product is a lab test, in order |
| SyncService.BuildOrderLines | abershum_elis_sync/models/openelis_sync_service.py:131-140 | the loop builds `OrderLinesData` of the selected lines |
| SyncService.CallApi | abershum_elis_sync/models/openelis_sync_service.py:269-502 | the queue becomes and the result equals `CallApiSpec` of the old queue; the invariant holds |
| SyncService.SyncLabTest | abershum_elis_sync/models/openelis_sync_service.py:16-84 | the queue and reply equal `SyncLabTestSpec`; the invariant holds |
| SyncService.SyncTestOrder | abershum_elis_sync/models/openelis_sync_service.py:87-156 | the queue and reply equal `SyncTestOrderSpec`; the invariant holds |
| ElisPartner.BirthText | abershum_elis_sync/models/res_partner.py:201-208 | the ISO birthdate if set. Otherwise, for a positive age, 1 January that many years ago, and ValueError when that year is below 1. Otherwise "". |
| ElisPartner.PatientSyncStep | abershum_elis_sync/models/res_partner.py:157-416 | nothing is sent without patient sync or a URL; ValueError exactly when the birthdate text raises. A failure is filed, keyed by partner and ref with the patient payload, exactly on a non-200 outcome or a non-object JSON body: with the HTTP type and text, the AttributeError of `.get`, or the exception's type and text. |
| ElisPartner.NonObjectReplyFiles | abershum_elis_sync/models/res_partner.py:303-410 | a non-object JSON reply, even on 200, files a patient event typed AttributeError with the `.get` message |
| ElisPartner.SyncPatientFrame | abershum_elis_sync/models/res_partner.py:157-416 | a patient sync keeps the queue invariant and deletes no event |
| ElisPartner.FailedPatientSyncKeyedByRef | abershum_elis_sync/models/res_partner.py:331-338 | after a filed failure, a pending patient event under the ref carries this payload and error with retry count 0 |
| ElisPartner.PartnerBook.SyncPatient | abershum_elis_sync/models/res_partner.py:157-416 | the queue and result equal `SyncPatientSpec`; the invariant holds |
| ElisPartner.WithComputedAge | abershum_elis_sync/models/res_partner.py:44-61 | only `age` changes, to `AgeOn(today, birthdate)` (0 without a birthdate) |
| ElisPartner.WithInvertedAge | abershum_elis_sync/models/res_partner.py:69-85 | only `birthdate` changes: to 1 January `age` years ago for a positive age whose year is valid, otherwise it stays (the ValueError is swallowed) |
| ElisPartner.InvertedAgeTwice | abershum_elis_sync/models/res_partner.py:69-85 | the inverse applied to its own result changes nothing more |
| ElisPartner.InversePass | abershum_elis_sync/models/res_partner.py:63-85 | the pass over the partners keeps the set of partners |
| ElisPartner.InversePassOne | abershum_elis_sync/models/res_partner.py:70-85 | the pass over one partner is the single step `InverseSyncStore` |
| ElisPartner.InversePassRecords | abershum_elis_sync/models/res_partner.py:63-85 | after the pass exactly the selected partners are inverted, each as once, and the rest are untouched |
| ElisPartner.InversePassFrame | abershum_elis_sync/models/res_partner.py:63-152 | the nested syncs of the pass keep the queue invariant and delete no event |
| ElisPartner.InversePassQuiet | abershum_elis_sync/models/res_partner.py:71 | without a positive age among the partners the pass changes nothing and syncs nothing |
| ElisPartner.InverseThenComputeAge | abershum_elis_sync/models/res_partner.py:37-85 | setting an age and recomputing gives back that age whenever the inverse could set a birthdate |
| ElisPartner.PartnerBook.ComputeAge | abershum_elis_sync/models/res_partner.py:37-61 | with the skip flag nothing changes; otherwise each selected partner gets its computed age and the rest are untouched |
| ElisPartner.PartnerBook.InverseAge | abershum_elis_sync/models/res_partner.py:63-85 | with the skip flag nothing changes; otherwise the partners and the queue become `InversePass`: each selected partner gets its inverted birthdate, and a moved birthdate of a customer with a ref is synced by the nested `write` unless the birthdate is itself written |
| ElisPartner.PartnerBook.InvertOne | abershum_elis_sync/models/res_partner.py:70-85 | one partner inverted; the queue becomes `InverseSyncStore`, the nested sync of a moved birthdate |
| ElisPartner.PartnerBook.CheckBirthdateOrAge | abershum_elis_sync/models/res_partner.py:87-100 | ValidationError with the exact message exactly when a selected non-company customer has neither birthdate nor positive age |
| ElisPartner.WithPatientId | abershum_elis_sync/models/res_partner.py:110-125 | only the ref changes, exactly when a customer without ref draws a non-empty value, and then to that value; a failing draw is swallowed |
| ElisPartner.CreatedRow | abershum_elis_sync/models/res_partner.py:18-127 | the row `create` stores: the patient id; a positive given age is kept and sets 1 January that many years ago when that is a date; otherwise the birthdate stays and the age is computed from it |
| ElisPartner.CreateRefusesExactlyLacking | abershum_elis_sync/models/res_partner.py:87-100 | corrected: the constraint, reading the given age, refuses the created row exactly when the given values lack birth information |
| ElisPartner.PartnerBook.Create | abershum_elis_sync/models/res_partner.py:102-137 | corrected (the check reads the given age): the next id is used either way. ValidationError with the exact message, rows and queue unchanged, exactly when `CreatedRow` lacks birth information; otherwise that row is stored under the next id and the queue becomes `CreateSyncSpec`: the nested sync of the age inverse, then `create`'s own sync of a customer with a ref |
| ElisPartner.PartnerBook.StoreCreated | abershum_elis_sync/models/res_partner.py:127 | the inherited `create` without its constraint: the row stored under the next id; the queue after the nested sync of the age inverse, unchanged without a positive age |
| ElisPartner.CreateWithAgeSyncsTwice | abershum_elis_sync/models/res_partner.py:82-137 | in the corrected `create`, a customer with a ref created with a positive age whose birthdate differs is sent twice; a failed first delivery stays filed though the second one is delivered |
| ElisPartner.CreateWithAgeSyncsTwiceAsWritten | abershum_elis_sync/models/res_partner.py:82-137 | as written, the same customer given a birthdate passes the check and is sent twice, a failed first delivery staying filed |
| ElisPartner.CheckedOnCreate | abershum_elis_sync/models/res_partner.py:87-127 | the row the check inside the inherited `create` reads: the stored fields with the patient id, and the age computed from the given birthdate |
| ElisPartner.CreateRefusesAsWritten | abershum_elis_sync/models/res_partner.py:87-127 | as written, `create` refuses exactly a non-company customer given no birthdate, whatever its age |
| ElisPartner.AgeOnlyCustomerRefused | abershum_elis_sync/models/res_partner.py:87-127 | a non-company customer given an age and no birthdate is refused as written but accepted by the intended rule |
| ElisPartner.PartnerBook.CreateAsWritten | abershum_elis_sync/models/res_partner.py:102-137 | as written: the next id is used either way. ValidationError with the exact message, rows and queue unchanged, exactly when `CheckedOnCreate` lacks birth information, before any sync; otherwise the row becomes `CreatedRow` and the queue `CreateSyncSpec` |
| ElisPartner.PartnerBook.StoreChecked | abershum_elis_sync/models/res_partner.py:127 | the row `CheckedOnCreate` stored under the next id, the others unchanged |
| ElisPartner.PartnerBook.InverseCreated | abershum_elis_sync/models/res_partner.py:63-85 | the checked row becomes `CreatedRow`; the queue after the nested sync of the inverse, unchanged without a positive age |
| ElisPartner.PartnerBook.FinishCreated | abershum_elis_sync/models/res_partner.py:127-137 | after the check: the row becomes `CreatedRow` and the queue `CreateSyncSpec` |
| ElisPartner.PartnerBook.SyncCreated | abershum_elis_sync/models/res_partner.py:129-135 | `create`'s own sync: the queue becomes `CreateSyncSpec` |
| ElisPartner.RecordsetRank | abershum_elis_sync/models/res_partner.py:146 | reading `customer_rank` on a recordset fails exactly for more than one record |
| ElisPartner.WriteSyncTargetsAsWritten | abershum_elis_sync/models/res_partner.py:139-154 | as written: Ok([]) when no sync field is written or nobody is; the "Expected singleton" ValueError exactly for more than one partner; for one partner, that partner exactly when it is a customer with a ref |
| ElisPartner.WriteSyncTargets | abershum_elis_sync/models/res_partner.py:146-148 | corrected: exactly the written partners that are customers with a ref, when a sync field is written |
| ElisPartner.WriteSyncTargetsAgreeOnOne | abershum_elis_sync/models/res_partner.py:146-148 | on one partner the code as written and the corrected rule choose the same partners |
| ElisPartner.MultiPartnerWriteRaises | abershum_elis_sync/models/res_partner.py:146 | writing the phone of two customers with refs fails as written, while the intended rule syncs both |
| ElisPartner.SyncWrittenPreservesInvariant | abershum_elis_sync/models/res_partner.py:147-152 | the trigger loop keeps the queue invariant and leaves the queue alone when nothing is to be synced |
| ElisPartner.SyncWrittenUntouched | abershum_elis_sync/models/res_partner.py:146 | a write touching no sync field leaves the queue alone |
| ElisPartner.RecordsAt | abershum_elis_sync/models/res_partner.py:147 | the recordset's partners, in order |
| ElisPartner.PartnerBook.WriteRecords | abershum_elis_sync/models/res_partner.py:143 | the partners become `StoredMap`: exactly the selected partners get the written values, the others and the ids are unchanged |
| ElisPartner.PartnerBook.InheritedWrite | abershum_elis_sync/models/res_partner.py:143 | the selected partners become `Applied` and the rest stay; the queue becomes `InverseSynced`, unchanged unless a positive age is written |
| ElisPartner.StoredPart | abershum_elis_sync/models/res_partner.py:143 | only ref, rank, birthdate and age change; the first three take the written values; the age is the written one, or else computed from the stored birthdate |
| ElisPartner.StoredMap | abershum_elis_sync/models/res_partner.py:143 | exactly the selected partners are stored; the others and the ids are unchanged |
| ElisPartner.StoredTwice | abershum_elis_sync/models/res_partner.py:143 | storing the same values twice is storing them once |
| ElisPartner.WrittenAgeSyncsInInverse | abershum_elis_sync/models/res_partner.py:63-152 | writing a positive age that moves the birthdate of one customer with a ref syncs that partner, with its new birthdate, from the nested `write` of the inverse |
| ElisPartner.WrittenKeys | abershum_elis_sync/models/res_partner.py:139-146 | the keys of `vals`: the other keys plus each modelled field that is written |
| ElisPartner.Applied | abershum_elis_sync/models/res_partner.py:18-143 | only ref, rank, birthdate and age change; ref and rank take the written values; a written age is kept and runs the inverse (1 January that many years ago when that is a date, else the written birthdate stays); otherwise the birthdate takes the written value and the age is computed from it |
| ElisPartner.WrittenLacksBirthInfo | abershum_elis_sync/models/res_partner.py:87-100 | a written partner lacks birth information exactly when, with the written rank and birthdate, it is a non-company customer without birthdate and no positive age was written |
| ElisPartner.WrittenAgeReachesPayload | abershum_elis_sync/models/res_partner.py:63-208 | `write({'age': a})` sets the birthdate to 1 January `a` years ago, and that date is the payload birthdate |
| ElisPartner.AppliedTwice | abershum_elis_sync/models/res_partner.py:143 | writing the same values twice is writing them once |
| ElisPartner.PartnerBook.SyncWrittenPartners | abershum_elis_sync/models/res_partner.py:146-152 | the queue becomes `SyncWritten` of the old queue |
| ElisPartner.PartnerBook.Write | abershum_elis_sync/models/res_partner.py:139-154 | ValidationError, rows and queue unchanged, exactly when `vals` names a constrained field and a written partner lacks birth information; otherwise the selected partners become `Applied`, and the queue becomes `InverseSynced` (the nested syncs of the inverse) followed by `SyncWritten` over them |
| Retry.PatientInnerFrame | abershum_elis_sync/models/openelis_failed_event.py:272-280 | the patient branch keeps the invariant and every event, and always ends in an exception |
| Retry.TestOrderInnerFrame | abershum_elis_sync/models/openelis_failed_event.py:282-294 | a missing order raises and changes nothing. Otherwise the queue changes exactly by the admission the sync files, and a filed failure means the branch raises. |
| Retry.LabTestInnerFrame | abershum_elis_sync/models/openelis_failed_event.py:296-311 | the same for the lab-test branch, with the product id read from the payload |
| Retry.InnerSyncFrame | abershum_elis_sync/models/openelis_failed_event.py:269-315 | the try block keeps the invariant and every event; when it does not raise, the queue is unchanged |
| Retry.MarkedRetrying | abershum_elis_sync/models/openelis_failed_event.py:263-267 | state retrying, last retry now, count one more; nothing else changes |
| Retry.RetryingStore | abershum_elis_sync/models/openelis_failed_event.py:263-267 | only event `k` changes, to its retrying form |
| Retry.Backoff | abershum_elis_sync/models/openelis_failed_event.py:335 | a positive multiple of 15 minutes, 15 times the count when that is positive (`or 1` otherwise) |
| Retry.FailedWith | abershum_elis_sync/models/openelis_failed_event.py:329-343 | state failed, the exception's class and text, next retry now plus the backoff read from the record; nothing else changes |
| Retry.AfterInner | abershum_elis_sync/models/openelis_failed_event.py:319-343 | keeps the invariant and every other event; success exactly when nothing raised, which is exactly when the event is gone; a failed event is left in the failed state |
| Retry.RetrySpec | abershum_elis_sync/models/openelis_failed_event.py:253-343 | keeps the invariant and every other event; success exactly when the event is deleted; otherwise it is failed |
| Retry.RetrySteps | abershum_elis_sync/models/openelis_failed_event.py:253-343 | a retry is the retrying write, then the try block, then the success or failure handler |
| Retry.RetrySuccessRemovesEvent | abershum_elis_sync/models/openelis_failed_event.py:319-327 | a successful retry leaves exactly the other events, unchanged |
| Retry.RetryFailureRecordsError | abershum_elis_sync/models/openelis_failed_event.py:329-343 | a failed retry is written by the handler. Without a re-admission the count is one up and the last retry is now. |
| Retry.AfterInnerSucceeded | abershum_elis_sync/models/openelis_failed_event.py:319-327 | the success handler unlinks the event |
| Retry.AfterInnerFailed | abershum_elis_sync/models/openelis_failed_event.py:329-343 | the failure handler writes `FailedWith` onto the record as the try block left it |
| Retry.PatientRetryNeverSucceeds | abershum_elis_sync/models/openelis_failed_event.py:279-280 | the patient sync returns None, so a patient retry always fails and keeps its event |
| Retry.RetryAfterReadmission | abershum_elis_sync/models/openelis_failed_event.py:269-343 | when the retried sync files a failure that matches the event, the handler reads count 0: the event is failed, due 15 minutes out, under its old sequence number |
| Retry.ReadmittedFailure | abershum_elis_sync/models/openelis_failed_event.py:329-343 | after such a re-admission the event is unresolved and the handler leaves it reset |
| Retry.TestOrderReadmissionResetsBackoff | abershum_elis_sync/models/openelis_failed_event.py:282-294 | a test-order retry whose sync fails always resets its own backoff to 15 minutes |
| Retry.TestOrderAdmissionKeyed | abershum_elis_sync/models/openelis_failed_event.py:291 | the retried sync's admission is keyed by the event's own sale order |
| Retry.LabTestReadmissionResetsBackoff | abershum_elis_sync/models/openelis_failed_event.py:296-311 | the same for a lab-test retry, since all lab tests share one event |
| Retry.ReadmissionRefreshes | abershum_elis_sync/models/openelis_failed_event.py:193-217 | an admission whose first match is `k` refreshes `k` in place |
| Retry.LabTestMatchIsUnique | abershum_elis_sync/models/openelis_failed_event.py:178-191 | any stored lab-test event is the one lab-test admissions find |
| Retry.DueIds | abershum_elis_sync/models/openelis_failed_event.py:352-357 | exactly the pending or failed events with no next-retry date or one not after now |
| Retry.CronBatchIsEarliestDue | abershum_elis_sync/models/openelis_failed_event.py:351-360 | at most 50, all due, distinct and in table order. A due event left out comes after the whole full batch. A retrying event is never taken. |
| Retry.RetryAll | abershum_elis_sync/models/openelis_failed_event.py:368-374 | the successive retries keep the invariant and count at most one success each |
| Retry.RetryAllKeepsOthers | abershum_elis_sync/models/openelis_failed_event.py:368-374 | retrying a batch deletes no event outside it |
| Retry.NoStoredSuccess | abershum_elis_sync/models/openelis_failed_event.py:247-249 | under the invariant no stored event is in success, so `action_retry` never raises and `action_retry_selected` skips nothing |
| Retry.RetrySelectedKeepsOthers | abershum_elis_sync/models/openelis_failed_event.py:381-391 | retrying a selection deletes no event outside it |
| Retry.RetrySync | abershum_elis_sync/models/openelis_failed_event.py:253-343 | the queue and result equal `RetrySpec` |
| Retry.MarkRetrying | abershum_elis_sync/models/openelis_failed_event.py:263-267 | the queue becomes `RetryingStore` |
| Retry.FinishRetry | abershum_elis_sync/models/openelis_failed_event.py:319-343 | the queue and result equal `AfterInner` |
| Retry.MarkDone | abershum_elis_sync/models/openelis_failed_event.py:319-326 | writing success and unlinking leaves exactly the other events, and the invariant holds again |
| Retry.MarkFailed | abershum_elis_sync/models/openelis_failed_event.py:337-342 | only the event changes, to `FailedWith` the caught exception |
| Retry.InnerSyncRun | abershum_elis_sync/models/openelis_failed_event.py:269-315 | the queue and the caught exception equal `InnerSync` |
| Retry.RetryNext | abershum_elis_sync/models/openelis_failed_event.py:369-373 | one loop pass advances the fold by one event and keeps the count consistent |
| Retry.RetryEach | abershum_elis_sync/models/openelis_failed_event.py:368-379 | the queue and success count equal `RetryAll` over the events |
| Retry.ActionRetry | abershum_elis_sync/models/openelis_failed_event.py:245-251 | the queue equals `RetryAll` over the recordset |
| Retry.CronBatch | abershum_elis_sync/models/openelis_failed_event.py:360 | at most 50 stored events, none taken twice |
| Retry.CronRetry | abershum_elis_sync/models/openelis_failed_event.py:345-379 | the batch is `CronBatch`; the queue and count equal `RetryAll` over it |
| Retry.ActionRetrySelected | abershum_elis_sync/models/openelis_failed_event.py:381-391 | the queue equals `RetrySelectedSpec` (the selection in table order, each retried once) |
| Dates.AgeOn | abershum_orthanc/models/res_partner.py:61-71 | 0 without a birthdate or before it; otherwise the number of whole years: the `years`-th anniversary has passed and the next has not |
| Dates.AgeIsUnique | abershum_elis_sync/models/res_partner.py:44-61 | any `years` bracketed by anniversaries is the computed age |
| Dates.JanFirstYearsAgo | abershum_orthanc/models/res_partner.py:78-79 | a date exactly when the year is in 1..9999, and then 1 January of that year |
| Dates.AgeOfJanFirstYearsAgo | abershum_orthanc/models/res_partner.py:61-79 | the age on 1 January `a` years ago is `a` |
| Dates.IsoFormat | abershum_elis_sync/models/res_partner.py:203 | `YYYY-MM-DD`: ten characters, dashes at 4 and 7, and the three digit groups denote the year, month and day |
| Dates.DicomDate | abreshum_orthanc/models/orthanc_service.py:60 | eight digits whose groups 4-2-2 denote the year, month and day |
| Dates.IsoFormatInjective | abershum_elis_sync/models/res_partner.py:203 | two dates with the same ISO text are the same date |
| Dates.DicomDateInjective | abreshum_orthanc/models/orthanc_service.py:60 | two dates with the same DICOM text are the same date |
| Dates.DicomDateDropsDashes | abreshum_orthanc/models/orthanc_service.py:60 | the DICOM date is the ISO date without its dashes |
| Text.ParseIntOfIntToString | abershum_elis_sync/models/openelis_sync_service.py:366 | `int(str(n)) == n` |
| Text.DigitsValueAppend | abershum_elis_sync/models/res_partner.py:203 | the digits of `a` followed by those of `b` denote `a` shifted by `|b|` places plus `b` |
| Text.ZerosValue | abershum_elis_sync/models/res_partner.py:203 | a run of zeros denotes 0 |
| Text.ZeroPad | abershum_elis_sync/models/res_partner.py:203 | `'%0*d'`: the digits denote `n`; at least `width` of them, exactly `width` when `n` is below 10^width |
| Worklist.WorklistDir | abreshum_orthanc/models/orthanc_service.py:24-25 | the setting when set, else the mounted default; never empty |
| Worklist.AccessionNumber | abreshum_orthanc/models/orthanc_service.py:43 | `name[:16]`: the first min(|name|, 16) characters of the name |
| Worklist.PrefixedId | abreshum_orthanc/models/orthanc_service.py:78 | `(prefix+name)[:16]`: length min(|prefix|+|name|, 16), the prefix, then the first characters of the name that fit |
| Worklist.RequestedProcedureId | abreshum_orthanc/models/orthanc_service.py:78 | `("RP-"+name)[:16]`: "RP-" followed by the first min(|name|, 13) characters of the name |
| Worklist.ScheduledStepId | abreshum_orthanc/models/orthanc_service.py:96 | `("SPS-"+name)[:16]`: "SPS-" followed by the first min(|name|, 12) characters of the name |
| Worklist.ProcedureIdsDiffer | abreshum_orthanc/models/orthanc_service.py:78-96 | the two procedure ids never coincide |
| Worklist.ShortNamesSurvive | abreshum_orthanc/models/orthanc_service.py:43-96 | an order name of at most 12 characters survives whole in all three identifiers |
| Worklist.ProcedureTerm | abreshum_orthanc/models/orthanc_service.py:76 | the product name, or 'Radiology Order' without a product |
| Worklist.ProcedureDescription | abreshum_orthanc/models/orthanc_service.py:77 | `term[:64]`: the first min(|term|, 64) characters of the term |
| Worklist.PriorityCode | abreshum_orthanc/models/orthanc_service.py:80-85 | STAT exactly for stat, HIGH exactly for urgent, ROUTINE for everything else |
| Worklist.SexCode | abreshum_orthanc/models/orthanc_service.py:62-70 | M exactly for male, F exactly for female, O otherwise |
| Worklist.ReferringPhysician | abreshum_orthanc/models/orthanc_service.py:45-51 | the provider, else the salesperson, else the current user |
| Worklist.PatientTagsOf | abreshum_orthanc/models/orthanc_service.py:53-70 | the name; the id is the ref, or UNKNOWN without one; the birth date is `DicomDate` of the birthdate exactly when there is one; the sex is `SexCode` of the gender |
| Worklist.RStripSpace | abreshum_orthanc/models/orthanc_service.py:101 | drops exactly the trailing whitespace |
| Worklist.SafeName | abreshum_orthanc/models/orthanc_service.py:101 | the `Seqs.Filter` of the name by letters, digits, '-' and '_' (in order, `Seqs.FilterAppend`); each safe character as often as in the name, no other character |
| Worklist.SafeCharsAreNotSpace | abreshum_orthanc/models/orthanc_service.py:101 | the right strip never removes anything from the stem |
| Worklist.FileName | abreshum_orthanc/models/orthanc_service.py:101-102 | `SafeName(name)` followed by ".wl" |
| Worklist.UnsafeCharIgnored | abreshum_orthanc/models/orthanc_service.py:101-103 | a dropped character does not change the file name, so such names collide |
| Worklist.FilterDropsUnsafe | abreshum_orthanc/models/orthanc_service.py:101 | filtering ignores an unsafe character |
| Seqs.FilterCount | abreshum_orthanc/models/orthanc_service.py:101 | an element passing the test is kept as often as it occurs, any other never |
| Worklist.JoinPath | abreshum_orthanc/models/orthanc_service.py:103 | `os.path.join`: the directory, then one '/' unless the directory is empty or already ends with one, then the file |
| Worklist.WorklistOf | abreshum_orthanc/models/orthanc_service.py:29-103 | the SOP class, the character set and the path `JoinPath(WorklistDir, FileName)`. Each tag is its helper's value: the accession number, both procedure ids (which differ), the referring physician, the cut term for both descriptions, the priority of the sale order's key, the patient tags exactly with a patient, and the step date `DicomDate(today)`. Modality CR, station ABERSHUM. |
| Worklist.WorklistFolder.CreateWorklist | abreshum_orthanc/models/orthanc_service.py:17-109 | Exception with the exact message, files unchanged, exactly when the directory is missing; otherwise the file is written at its path |
| RadiologyOrders.StateOfKey | abershum_orthanc/models/orthanc_order.py:29-34 | a state exactly for the four declared keys, and its key reads back |
| RadiologyOrders.StateKeyRoundTrip | abershum_orthanc/models/orthanc_order.py:29-34 | every state's key parses back to it |
| RadiologyOrders.WriteCheck | abershum_orthanc/models/orthanc_order.py:80-89 | a locked write raises UserError naming the first record's state label. An undeclared state key raises ValueError. Otherwise the write succeeds, and an empty recordset always succeeds. |
| RadiologyOrders.Applied | abershum_orthanc/models/orthanc_order.py:80-89 | the id and name are kept; the state becomes the declared written state or stays |
| RadiologyOrders.Written | abershum_orthanc/models/orthanc_order.py:89 | exactly the selected records take the values |
| RadiologyOrders.StateWriteNeverLocked | abershum_orthanc/models/orthanc_order.py:82 | a write with a state never hits the lock: it fails only on an undeclared key, and with a declared key it succeeds |
| RadiologyOrders.DraftsAreEditable | abershum_orthanc/models/orthanc_order.py:82-85 | drafts accept any write with a declared state or none |
| RadiologyOrders.SignLocksResetUnlocks | abershum_orthanc/models/orthanc_order.py:37-52 | after signing, writing findings raises the Signed lock message; after reset it succeeds |
| RadiologyOrders.CompleteCheck | abershum_orthanc/models/orthanc_order.py:54-57 | succeeds exactly for a signed report, else UserError with the exact message |
| RadiologyOrders.CompleteNeedsSignature | abershum_orthanc/models/orthanc_order.py:37-58 | completion succeeds after signing, fails after a reset, and sets the state Completed |
| RadiologyOrders.Removed | abershum_orthanc/models/orthanc_order.py:70 | exactly the records outside `ids` remain, unchanged |
| RadiologyOrders.SignedReportIsFinal | abershum_orthanc/models/orthanc_order.py:37-64 | a signed report is no longer draft, is printable and records the signing time |
| RadiologyOrders.OrderName | abershum_orthanc/models/orthanc_order.py:74-75 | a name other than 'New' is kept. Otherwise: the drawn value when non-empty, 'New' when the draw gives nothing, and an error exactly when the draw raises. |
| RadiologyOrders.NewOrder | abershum_orthanc/models/orthanc_order.py:72-78 | a draft with no signing time for the given sale order and product; the given study UUID or a fresh one |
| RadiologyOrders.OrderTable.Create | abershum_orthanc/models/orthanc_order.py:72-78 | an error, table unchanged, exactly when naming raises; otherwise `NewOrder` is stored under the next id |
| RadiologyOrders.OrderTable.Write | abershum_orthanc/models/orthanc_order.py:80-89 | the result is `WriteCheck`; on success the table is `Written`, otherwise unchanged |
| RadiologyOrders.OrderTable.ActionSignReport | abershum_orthanc/models/orthanc_order.py:37-48 | only this report changes: signed, signed at now |
| RadiologyOrders.OrderTable.ActionResetDraft | abershum_orthanc/models/orthanc_order.py:50-52 | only this report changes: draft, no signing time |
| RadiologyOrders.OrderTable.ActionComplete | abershum_orthanc/models/orthanc_order.py:54-58 | the result is `CompleteCheck`; on success only this report becomes Completed |
| RadiologyOrders.OrderTable.ActionPrintReport | abershum_orthanc/models/orthanc_order.py:60-63 | succeeds exactly when every selected report is signed or completed, else UserError with the exact message |
| RadiologyOrders.OrderTable.Unlink | abershum_orthanc/models/orthanc_order.py:66-70 | succeeds exactly when every selected report is draft, and then removes exactly those; else UserError and nothing changes |
| RadiologyOrders.OrderTable.FindFor | abershum_orthanc/models/sale_order.py:15-18 | true exactly when a report exists for the sale order and product |
| RadiologyOrders.OrderTable.SearchLinked | abershum_orthanc/models/sale_order.py:33-36 | exactly the sale order's reports whose state key differs from the given one, each once |
| RadiologyOrders.OrderTable.SendToOrthanc | abershum_orthanc/models/orthanc_order.py:92-94 | writes the report's worklist file, or raises when the directory is missing |
| RadiologyOrders.OrderTable.Restore | abershum_orthanc/models/sale_order.py:9-42 | the rollback of a raising call puts back the saved rows |
| RadiologySales.CreateReport | abershum_orthanc/models/sale_order.py:20-26 | creating and publishing one report only adds to what exists, and keeps ids below the next id |
| RadiologySales.ConfirmLine | abershum_orthanc/models/sale_order.py:12-26 | one line only adds, and adds at most the report under the next id |
| RadiologySales.CreatedReportFacts | abershum_orthanc/models/sale_order.py:20-24 | a created report is a draft for the sale order and the line's product, and nothing else changes |
| RadiologySales.ConfirmLineCovers | abershum_orthanc/models/sale_order.py:13-26 | after a line that raised nothing, a radiology line has its report |
| RadiologySales.ConfirmLineCreates | abershum_orthanc/models/sale_order.py:13-24 | a report is created only for a radiology line without one, as a draft linked to the order and the product |
| RadiologySales.ConfirmLineKeepsNoDuplicates | abershum_orthanc/models/sale_order.py:14-20 | one line never creates a second report for a sale order and product |
| RadiologySales.ConfirmLines | abershum_orthanc/models/sale_order.py:12-26 | the line loop only adds |
| RadiologySales.ConfirmSales | abershum_orthanc/models/sale_order.py:11-26 | the order loop only adds |
| RadiologySales.LinesAfterError | abershum_orthanc/models/sale_order.py:12-26 | after an exception no further line is processed |
| RadiologySales.SalesAfterError | abershum_orthanc/models/sale_order.py:11-26 | after an exception no further order is processed |
| RadiologySales.LinesKeepNoDuplicates | abershum_orthanc/models/sale_order.py:12-26 | the line loop keeps one report per sale order and product |
| RadiologySales.ConfirmKeepsNoDuplicates | abershum_orthanc/models/sale_order.py:9-27 | confirming keeps one report per sale order and product |
| RadiologySales.GrowsKeepsOrderFor | abershum_orthanc/models/sale_order.py:15-18 | an existing report stays found as the table only grows |
| RadiologySales.GrowsKeepsLinesCovered | abershum_orthanc/models/sale_order.py:12-18 | covered lines stay covered as the table only grows |
| RadiologySales.GrowsKeepsSalesCovered | abershum_orthanc/models/sale_order.py:11-18 | covered orders stay covered as the table only grows |
| RadiologySales.LinesCover | abershum_orthanc/models/sale_order.py:12-26 | without an exception every radiology line of the order has its report |
| RadiologySales.ConfirmCovers | abershum_orthanc/models/sale_order.py:9-27 | without an exception every radiology line of every confirmed order has its report |
| RadiologySales.CoveredLinesUnchanged | abershum_orthanc/models/sale_order.py:14-20 | an order whose lines are all covered is left as it is |
| RadiologySales.CoveredSalesUnchanged | abershum_orthanc/models/sale_order.py:14-20 | confirming covered orders changes nothing |
| RadiologySales.ConfirmTwice | abershum_orthanc/models/sale_order.py:9-27 | confirming again after a confirmation that raised nothing changes nothing |
| RadiologySales.LinesCreateRadiologyDrafts | abershum_orthanc/models/sale_order.py:12-24 | every report the line loop creates is a draft of a radiology line of the orders |
| RadiologySales.NewOrdersFromTrans | abershum_orthanc/models/sale_order.py:11-24 | that property composes over successive steps |
| RadiologySales.ConfirmCreatesRadiologyDrafts | abershum_orthanc/models/sale_order.py:9-27 | every report confirmation creates is a draft of a radiology line of one of the confirmed orders |
| RadiologySales.ConfirmLineStep | abershum_orthanc/models/sale_order.py:13-26 | the table and folder follow `ConfirmLine` |
| RadiologySales.CreateAndSend | abershum_orthanc/models/sale_order.py:21-26 | the table and folder follow `CreateReport` |
| RadiologySales.ConfirmOrder | abershum_orthanc/models/sale_order.py:12-26 | the table, folder and result follow `ConfirmLines` |
| RadiologySales.ActionConfirm | abershum_orthanc/models/sale_order.py:9-27 | the result, next id and files follow `ConfirmSales`; rows follow it on success and are rolled back on an exception |
| RadiologySales.CancelledKeyRaises | abershum_orthanc/models/sale_order.py:38-41 | writing 'cancelled' raises ValueError; the declared 'cancel' is accepted |
| RadiologySales.ActionCancelAsWritten | abershum_orthanc/models/sale_order.py:29-42 | as written: ValueError exactly when some cancelled order has a linked report, and the table is unchanged either way |
| RadiologySales.CancelOne | abershum_orthanc/models/sale_order.py:33-41 | the same records, with the order's reports cancelled |
| RadiologySales.CancelAll | abershum_orthanc/models/sale_order.py:31-41 | the same records |
| RadiologySales.CancelAllAsIntended | abershum_orthanc/models/sale_order.py:29-42 | every linked report ends cancelled, with one of its orders' reasons unless already cancelled. Other reports are untouched, and only state and reason change. |
| RadiologySales.WrittenStep | abershum_orthanc/models/sale_order.py:37-41 | writing the records one at a time equals writing them together |
| RadiologySales.ActionCancel | abershum_orthanc/models/sale_order.py:29-42 | corrected: the table becomes `CancelAll` |
| RadiologySales.CancelOrder | abershum_orthanc/models/sale_order.py:33-41 | corrected: the per-record writes give `CancelOne` |
| OrthancPartner.OnchangeIsCompany | abershum_orthanc/models/res_partner.py:51-59 | only `is_patient` changes, to the negation of `is_company` |
| OrthancPartner.FreeRef | abershum_orthanc/models/res_partner.py:93-109 | uses between 0 and `left` draws |
| OrthancPartner.FreeRefMeaning | abershum_orthanc/models/res_partner.py:93-109 | a found id is the last drawn value, non-empty and not in use, and every earlier draw was in use. Without an id, the draws stopped on an empty value or a raise, or ran out on values in use. |
| OrthancPartner.FreeRefKeepsUnique | abershum_orthanc/models/res_partner.py:100-104 | assigning a found id keeps references unique |
| OrthancPartner.InvertedAge | abershum_orthanc/models/res_partner.py:73-79 | ValueError exactly for a positive age whose year is below 1; else the birthdate is 1 January `age` years ago, or the partner is unchanged |
| OrthancPartner.InverseWritten | abershum_orthanc/models/res_partner.py:73-138 | ValueError exactly where `InvertedAge` raises; a positive age sets the birthdate to 1 January that many years ago and, through the nested `write`, a missing UUID to the given one unless the birthdate is itself written; otherwise the partner is unchanged |
| OrthancPartner.InverseWrittenTwice | abershum_orthanc/models/res_partner.py:73-138 | the inverse applied to its own result changes nothing more |
| OrthancPartner.InverseThenComputeAge | abershum_orthanc/models/res_partner.py:61-79 | the inverse followed by the compute gives back the age |
| OrthancPartner.NewPatient | abershum_orthanc/models/res_partner.py:81-111 | the given or fresh UUID; is_patient defaults to true; the age is computed from the birthdate |
| OrthancPartner.AssignIds | abershum_orthanc/models/res_partner.py:115-131 | only refs change, only of partners without one, using at most 10 draws per partner |
| OrthancPartner.AssignIdsKeepsUnique | abershum_orthanc/models/res_partner.py:115-131 | the id loop keeps references unique |
| OrthancPartner.FillUuids | abershum_orthanc/models/res_partner.py:133-138 | exactly the selected partners without a UUID get one; nothing else changes |
| OrthancPartner.ApplyWrite | abershum_orthanc/models/res_partner.py:140 | the same partners; each selected one becomes `AppliedWrite`, the others are untouched |
| OrthancPartner.AppliedWrite | abershum_orthanc/models/res_partner.py:61-140 | id and rank are kept; every other field takes the written value or keeps its own; the age is the written one, or else computed from the stored birthdate |
| OrthancPartner.StoredWrite | abershum_orthanc/models/res_partner.py:113-140 | the same partners with the same ids; a written age is held by every selected partner |
| OrthancPartner.InverseAll | abershum_orthanc/models/res_partner.py:73-79 | ValueError exactly when some selected partner's year is out of range; otherwise each selected partner becomes `InverseWritten` and the others are untouched |
| OrthancPartner.InverseAllFails | abershum_orthanc/models/res_partner.py:76-79 | one partner whose year is out of range makes the whole pass raise |
| OrthancPartner.InverseAllIs | abershum_orthanc/models/res_partner.py:73-79 | a map that inverts exactly the selected partners is the pass's result |
| OrthancPartner.InverseAllKeepsRefs | abershum_orthanc/models/res_partner.py:73-79 | the pass keeps the partners and their references |
| OrthancPartner.PartnersWritten | abershum_orthanc/models/res_partner.py:113-140 | the same partners; ValueError exactly when a positive age whose year is below 1 is written on at least one partner |
| OrthancPartner.AgeWriteRoundTrip | abershum_orthanc/models/res_partner.py:61-140 | writing a positive age with a valid year but no birthdate succeeds; every written partner is born on 1 January that many years ago, the age computed from it is the written one, and a written truthy UUID or a non-empty nested one leaves it with a UUID |
| OrthancPartner.WriteKeepsRefsUnique | abershum_orthanc/models/res_partner.py:113-140 | a write that sets no ref keeps references unique |
| OrthancPartner.StoredWriteKeepsRefsUnique | abershum_orthanc/models/res_partner.py:113-140 | the stored part of a write that sets no ref keeps references unique |
| OrthancPartner.CreateKeepsRefsUnique | abershum_orthanc/models/res_partner.py:88-111 | a created patient with a drawn id keeps references unique |
| OrthancPartner.PatientRegistry.ComputeAge | abershum_orthanc/models/res_partner.py:61-71 | each selected partner gets `AgeOn` of its birthdate; the rest are untouched |
| OrthancPartner.PatientRegistry.InverseAge | abershum_orthanc/models/res_partner.py:73-79 | ValueError, nothing changed, exactly when `InverseAll` raises; otherwise the partners become `InverseAll`, with the UUID fill of the nested `write` |
| OrthancPartner.PatientRegistry.InvertOne | abershum_orthanc/models/res_partner.py:76-79 | ValueError and nothing changed exactly when `InvertedAge` raises; otherwise one partner becomes `InverseWritten` |
| OrthancPartner.PatientRegistry.DrawFreeRef | abershum_orthanc/models/res_partner.py:93-109 | the loop's id and draw count are `FreeRef` |
| OrthancPartner.PatientRegistry.Create | abershum_orthanc/models/res_partner.py:81-111 | the new partner is stored under the next id; the ref is drawn exactly when `DrawsId` |
| OrthancPartner.PatientRegistry.AssignPatientIds | abershum_orthanc/models/res_partner.py:115-131 | the partners and draw count become `AssignIds` |
| OrthancPartner.PatientRegistry.Write | abershum_orthanc/models/res_partner.py:113-140 | ValueError with the partners rolled back exactly when `PartnersWritten` raises; otherwise the partners become `PartnersWritten`; ids are drawn only when is_patient is written true |
| OrthancPartner.PatientRegistry.StoreWrite | abershum_orthanc/models/res_partner.py:113-140 | the partners become `StoredWrite`; ids are drawn only when is_patient is written true |

## Left out

- HTTP itself (headers, basic auth, `verify=False`, the 30-second timeout) and logging. The
  outcome of the POST is a parameter.
- The Docker host rewrite of the patient sync (`socket.gethostbyname`, lines 231-252 of
  the laboratory `res_partner.py`) is not modelled: it needs name resolution.
- `_build_payload` and `_get_lab_test_category_ids` are never called by the core and are not modelled.
- Most payload content is left out. Only what the queue and the tests read is modelled: ids,
  refs, the birthdate, the test uuids and the order-line entries. Prices, categories, JSON
  indentation and the difference between a null key and an absent key are also left out.
- Python's `int()` accepts more forms than decimal digits (signs, spaces, underscores).
  `ParseInt` accepts plain decimal text only.
- The sale-order search by name after a non-200 reply (`StatusSaleOrder`) reads the
  sale orders as a given `World`, not as a live table.
- The exception branches file `browse(payload['sale_order_id'])` on the string id. The model
  takes it as that order's id.
- Concurrency between the cron and operators, and the absence of locking, are left out.
- ElisPartner.PartnerBook.Write: uses the corrected sync-target rule (see Findings). The
  as-written multi-record failure is captured by `WriteSyncTargetsAsWritten`.
- The non-stored `age` of the laboratory partner is read as Odoo 16's cache gives it within
  one call. A written age is kept as written. A created age reaches the cache only just before
  `_inverse_age` runs. Until then, and in every other case, the age is computed from the
  birthdate. The birthdate the inverse assigns goes through the overridden `write`, except
  inside a `write` whose `vals` also names 'birthdate', where Odoo only stores it.
- `create` always runs `_check_birthdate_or_age`, because `customer_rank` has a default. It runs
  inside the inherited `create`, on the stored fields and before the inverse, so it reads the
  age computed from the given birthdate (see Findings). `write` runs it after the inverse, and
  only when `vals` names one of its fields. The `gender` and `is_company` values of `write` are
  not modelled, but writing `gender` still runs the check.
- ElisPartner.PartnerBook.Create: uses the corrected check, which reads the given age (see
  Findings). The as-written behaviour is `PartnerBook.CreateAsWritten`.
- The two `res.partner` extensions are modelled separately. Their composition in one registry
  (both `create`/`write` overrides in the MRO) is not modelled.
- Retry.RetryAll: the number of retries that succeeded is bounded by the batch size only. That
  it equals the number of batch events that were deleted is not proved.
- Floating-point fields (quantities, prices) are left out.
- `strftime` and `isoformat` are modelled for 4-digit years only (years 1000-9999 for DICOM).
- The form views, `action_send_email`, `action_open_orthanc`, report rendering
  (`report_action`), mail tracking and the cancel-reason wizard are user interface and are left out.
- pydicom details are left out: the file meta, preamble, transfer syntax, generated SOP instance
  and study UIDs, the step start time, and the DICOM encoding itself. A failing `save_as` is
  caught and only logged, so the model always writes the file.
- `orthanc.order`'s `_order = 'id desc'` does not change what any modelled operation
  computes, and is left out.
- The `radiology_priority` field of the sale order is declared outside these files. The model
  reads it as a key string.
- The parent `action_confirm`/`action_cancel` (`super()`) and their return values are left out.
- The age in the values of an Orthanc `create` is left out. The model computes the age from
  the birthdate, which is what the stored compute does, and so leaves out the inverse that a
  created age runs.
- The nested `write` of each Orthanc age inverse that fills a missing UUID draws its own
  `uuid4()`; the model takes it from a given function of the partner id.
- Each nested sync that the laboratory age inverse runs through the overridden `write` has its
  own delivery outcome, given as a parameter next to the outcome of the caller's own sync.
- Archived partners are left out: the ref search sees every partner.
- `str.isalnum` is modelled on ASCII letters and digits only.
- RadiologySales.ActionCancelAsWritten: writes to the first linked report only, because that
  write raises and the whole call rolls back.

## Findings

| source | as written | input that shows it | evidently intended | confidence | as-written member | corrected member |
|---|---|---|---|---|---|---|
| abershum_orthanc/models/sale_order.py:38-41 | `action_cancel` writes `state = 'cancelled'`, which is not a key of the selection declared at abershum_orthanc/models/orthanc_order.py:29-34; the ORM raises ValueError, so cancelling a sale order that has any radiology report fails and rolls back | one sale order with one draft radiology report, cancelled | write the declared key `'cancel'`, so every linked report not yet cancelled becomes Cancelled with the reason | high (not executed) | RadiologySales.ActionCancelAsWritten, RadiologySales.CancelledKeyRaises | RadiologySales.ActionCancel, RadiologySales.CancelAllAsIntended, RadiologySales.CancelOrder |
| abershum_elis_sync/models/res_partner.py:146 | `write` reads `self.customer_rank` on the whole recordset; with two or more partners this raises "Expected singleton" after the write, so nobody is synced and the write rolls back | two customers with refs, written together with a new phone | test each partner's own rank inside the loop, syncing each customer with a ref | high (not executed) | ElisPartner.WriteSyncTargetsAsWritten, ElisPartner.MultiPartnerWriteRaises | ElisPartner.WriteSyncTargets, ElisPartner.WriteSyncTargetsAgreeOnOne |
| abershum_elis_sync/models/res_partner.py:87-127 | the inherited `create` runs `_check_birthdate_or_age` on its stored fields, before the given age reaches the cache and before `_inverse_age`; the check then reads the age computed from no birthdate, 0, and refuses the partner | `create({'name': 'X', 'customer_rank': 1, 'age': 30})` for a non-company partner | accept a customer given only a positive age, as the constraint's message ("either Date of Birth or Age") and the age's help text say, and derive its birthdate from the age | medium (not executed) | ElisPartner.PartnerBook.CreateAsWritten, ElisPartner.AgeOnlyCustomerRefused | ElisPartner.PartnerBook.Create, ElisPartner.CreateRefusesExactlyLacking |
