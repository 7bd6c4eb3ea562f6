/** check_duplicate_services: which of the candidate services already exist,
    unresolved, for the patient. */
module Duplicates {
  import opened Store
  import opened Inpatient

  /** A candidate as the server reads it: its service_type and service_name. */
  datatype ServiceRef = ServiceRef(serviceType: string, serviceName: string)

  /** The key field a service type is matched on, read from a stored
      document; None when the document is not of the type's doctype or the
      type is none of the three known tags. */
  function KeyField(serviceType: string, d: ServiceDoc): (key: Option<string>)
    ensures key.Some? <==> serviceType == KindTag(DocKind(d))
  {
    if serviceType == "Medication" then
      (if d.MedicationRequest? then Some(d.medicationItem) else None)
    else if serviceType == "Lab Test" then
      (if d.LabTest? then Some(d.template) else None)
    else if serviceType == "Procedure" then
      (if d.ClinicalProcedure? then Some(d.procedureTemplate) else None)
    else None
  }

  /** The store filter of one query: the mapped doctype, the same patient,
      the key field equal to the service name, and docstatus below 2. */
  predicate Matches(s: Stored, patient: string, ref: ServiceRef): (m: bool)
    ensures m ==> s.docstatus < 2 && s.doc.patient == patient && ref.serviceType == KindTag(DocKind(s.doc))
  {
    s.docstatus < 2 && s.doc.patient == patient && KeyField(ref.serviceType, s.doc) == Some(ref.serviceName)
  }

  /** Whether the query finds a document: `get_all(..., limit=1)` is
      non-empty. Nothing is found in an empty store, and only under one of
      the three service type tags. */
  predicate Exists(docs: seq<Stored>, patient: string, ref: ServiceRef): (e: bool)
    ensures docs == [] ==> !e
    ensures e ==> exists k :: ref.serviceType == KindTag(k)
  {
    exists i | 0 <= i < |docs| :: Matches(docs[i], patient, ref)
  }

  predicate IsSubsequence<T(==)>(a: seq<T>, b: seq<T>)
  {
    if a == [] then true
    else if b == [] then false
    else if a[0] == b[0] then IsSubsequence(a[1..], b[1..])
    else IsSubsequence(a, b[1..])
  }

  /** Adding documents never hides one that matched. */
  lemma ExistsGrows(docs: seq<Stored>, more: seq<Stored>, patient: string, ref: ServiceRef)
    requires Exists(docs, patient, ref)
    ensures Exists(docs + more, patient, ref)
  {
    var i :| 0 <= i < |docs| && Matches(docs[i], patient, ref);
    assert (docs + more)[i] == docs[i];
  }

  /** The candidates, in input order, that already exist for the patient. */
  function CheckDuplicateServices(patient: string, services: seq<ServiceRef>, docs: seq<Stored>)
    : (duplicates: seq<ServiceRef>)
    ensures IsSubsequence(duplicates, services)
    ensures forall x :: x in duplicates <==> x in services && Exists(docs, patient, x)
  {
    if services == [] then []
    else
      var rest := CheckDuplicateServices(patient, services[1..], docs);
      if Exists(docs, patient, services[0]) then [services[0]] + rest else rest
  }

  /** When every candidate exists, the check hands the whole list back. */
  lemma {:induction false} AllExistingKept(patient: string, services: seq<ServiceRef>, docs: seq<Stored>)
    requires forall x | x in services :: Exists(docs, patient, x)
    ensures CheckDuplicateServices(patient, services, docs) == services
  {
    if services != [] {
      assert services[0] in services;
      forall x | x in services[1..] ensures Exists(docs, patient, x) {
        assert x in services;
      }
      AllExistingKept(patient, services[1..], docs);
      assert [services[0]] + services[1..] == services;
    }
  }

  /** Every occurrence of an existing candidate is kept and every other
      candidate dropped: the result is exactly the filter of the input. */
  lemma {:induction false} DuplicateCounts(patient: string, services: seq<ServiceRef>, docs: seq<Stored>, x: ServiceRef)
    ensures multiset(CheckDuplicateServices(patient, services, docs))[x] ==
            if Exists(docs, patient, x) then multiset(services)[x] else 0
  {
    if services != [] {
      DuplicateCounts(patient, services[1..], docs, x);
      assert services == [services[0]] + services[1..];
    }
  }

  /** The check treats each candidate on its own: checking a concatenation is
      concatenating the checks. */
  lemma {:induction false} CheckConcat(patient: string, a: seq<ServiceRef>, b: seq<ServiceRef>, docs: seq<Stored>)
    ensures CheckDuplicateServices(patient, a + b, docs) ==
            CheckDuplicateServices(patient, a, docs) + CheckDuplicateServices(patient, b, docs)
  {
    if a == [] {
      assert a + b == b;
    } else {
      assert (a + b)[0] == a[0] && (a + b)[1..] == a[1..] + b;
      CheckConcat(patient, a[1..], b, docs);
    }
  }

  /** A service type other than the three known tags is never a duplicate. */
  lemma UnknownTypeNeverDuplicate(patient: string, services: seq<ServiceRef>, docs: seq<Stored>, x: ServiceRef)
    requires x.serviceType != "Medication" && x.serviceType != "Lab Test" && x.serviceType != "Procedure"
    ensures x !in CheckDuplicateServices(patient, services, docs)
  {
  }

  /** A cancelled document (docstatus 2) never makes a candidate a duplicate:
      adding one to the store leaves the answer unchanged. */
  lemma {:induction false} CancelledDocumentIgnored(patient: string, services: seq<ServiceRef>, docs: seq<Stored>, s: Stored)
    requires s.docstatus >= 2
    ensures CheckDuplicateServices(patient, services, docs + [s]) ==
            CheckDuplicateServices(patient, services, docs)
  {
    if services != [] {
      CancelledDocumentIgnored(patient, services[1..], docs, s);
      var x := services[0];
      if Exists(docs + [s], patient, x) {
        var i :| 0 <= i < |docs + [s]| && Matches((docs + [s])[i], patient, x);
        assert i < |docs| && Matches(docs[i], patient, x);
      }
      if Exists(docs, patient, x) {
        var i :| 0 <= i < |docs| && Matches(docs[i], patient, x);
        assert (docs + [s])[i] == docs[i];
      }
    }
  }

  /** The document the handler builds for a prescription is exactly what the
      duplicate check looks for under the prescription's tag and name. */
  lemma BuiltDocumentMatches(h: Header, p: Prescription, name: string)
    ensures Matches(Stored(name, Build(h, p), 0), h.patient, ServiceRef(KindTag(KindOf(p)), ServiceName(p)))
  {
  }
}
