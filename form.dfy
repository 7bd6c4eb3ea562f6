/** The Inpatient Record form script: before a save it collects, from the
    three prescription tables, the rows not yet linked to a service document,
    asks the server which of them already exist for the patient, and holds
    the save until the user has seen the answer. A flag on the form lets the
    save that follows an answered check through without asking again. */
module Form {
  import opened Store
  import opened Inpatient
  import opened Duplicates
  import opened Processing

  /** One entry of services_to_check. */
  datatype Candidate = Candidate(serviceType: string, serviceName: string, rowName: string, childTableField: string)

  /** What the server reads of a candidate: its service_type and service_name. */
  function Ref(c: Candidate): ServiceRef
  {
    ServiceRef(c.serviceType, c.serviceName)
  }

  /** What the server reads of each candidate, in order. */
  function Refs(cs: seq<Candidate>): seq<ServiceRef>
  {
    seq(|cs|, j requires 0 <= j < |cs| => Ref(cs[j]))
  }

  /** The candidate pushed for an unlinked row of the table of kind `k`: the
      table's tag, the row's name field, the row's name and the table's
      field name. */
  function CandidateOf(k: Kind, row: Row): (c: Candidate)
    ensures forall k' | KindTag(k') == c.serviceType :: k' == k
    ensures c.rowName == row.rowName && c.childTableField == TableField(k)
  {
    Candidate(KindTag(k), ServiceName(row.item), row.rowName, TableField(k))
  }

  /** collect_services over the rows of one table, in row order: no more
      candidates than rows, none exactly when every row is linked, and every
      candidate tagged with the table's kind and field. */
  function Collected(rows: seq<Row>, k: Kind): (cs: seq<Candidate>)
    ensures |cs| <= |rows|
    ensures cs == [] <==> AllLinked(rows)
    ensures forall c | c in cs :: c.serviceType == KindTag(k) && c.childTableField == TableField(k)
  {
    if rows == [] then []
    else
      var n := |rows| - 1;
      Collected(rows[..n], k) + (if Linked(rows[n]) then [] else [CandidateOf(k, rows[n])])
  }

  /** The form selects exactly the rows the server will process: one
      candidate per unlinked row, in the same order. */
  lemma {:induction false} CollectedMirrorsUnlinked(rows: seq<Row>, k: Kind)
    ensures |Collected(rows, k)| == |Unlinked(rows)|
    ensures forall j | 0 <= j < |Unlinked(rows)| :: Collected(rows, k)[j] == CandidateOf(k, Unlinked(rows)[j])
  {
    if rows != [] {
      var n := |rows| - 1;
      CollectedMirrorsUnlinked(rows[..n], k);
      var c, u := Collected(rows[..n], k), Unlinked(rows[..n]);
      if !Linked(rows[n]) {
        var c', u' := c + [CandidateOf(k, rows[n])], u + [rows[n]];
        assert Collected(rows, k) == c' && Unlinked(rows) == u';
        forall j | 0 <= j < |u'|
          ensures c'[j] == CandidateOf(k, u'[j])
        {
          if j < |u| {
            assert c'[j] == c[j] && u'[j] == u[j];
          }
        }
      } else {
        assert Collected(rows, k) == c && Unlinked(rows) == u;
      }
    }
  }

  /** collect_services: appends to `services` one candidate per unlinked row
      of `table`, in row order. */
  method CollectServices(table: array<Row>, k: Kind, services: seq<Candidate>) returns (out: seq<Candidate>)
    ensures out == services + Collected(table[..], k)
  {
    out := services;
    for i := 0 to table.Length
      invariant out == services + Collected(table[..i], k)
    {
      var row := table[i];
      assert table[..i + 1][..i] == table[..i];
      if row.linkedDocument == "" {
        AppendAssoc(services, Collected(table[..i], k), [CandidateOf(k, row)]);
        out := out + [Candidate(KindTag(k), ServiceName(row.item), row.rowName, TableField(k))];
      }
    }
    assert table[..table.Length] == table[..];
  }

  /** services_to_check: the drug table's candidates, then the lab test
      table's, then the procedure table's; one per pending row of the three
      tables. */
  function ServicesToCheck(drugs: seq<Row>, labTests: seq<Row>, procedures: seq<Row>): (all: seq<Candidate>)
    ensures |all| == |Unlinked(drugs)| + |Unlinked(labTests)| + |Unlinked(procedures)|
  {
    CollectedMirrorsUnlinked(drugs, Medication);
    CollectedMirrorsUnlinked(labTests, LabTestOrder);
    CollectedMirrorsUnlinked(procedures, ProcedureOrder);
    Collected(drugs, Medication) + Collected(labTests, LabTestOrder) + Collected(procedures, ProcedureOrder)
  }

  /** The form has nothing to check exactly when every row of every table is
      already linked. */
  lemma NothingToCheckIffAllLinked(drugs: seq<Row>, labTests: seq<Row>, procedures: seq<Row>)
    ensures ServicesToCheck(drugs, labTests, procedures) == [] <==>
            AllLinked(drugs) && AllLinked(labTests) && AllLinked(procedures)
  {
    CollectedMirrorsUnlinked(drugs, Medication);
    CollectedMirrorsUnlinked(labTests, LabTestOrder);
    CollectedMirrorsUnlinked(procedures, ProcedureOrder);
  }

  /** Client and server agree on the tags: after a processor run over a table
      of one kind that reported no error, every candidate the form had
      collected from that table is found by the duplicate check in the
      store the run left behind. */
  lemma {:induction false} CollectedFoundAfterRun(h: Header, k: Kind, rows: seq<Row>, db: Db, host: Host)
    requires FreshSupply(host.naming)
    requires OfKind(rows, k)
    requires RunTable(h, k, rows, db, host).errors == []
    ensures forall c | c in Collected(rows, k) :: Exists(RunTable(h, k, rows, db, host).db.docs, h.patient, Ref(c))
  {
    if rows != [] {
      var n := |rows| - 1;
      var prev := RunTable(h, k, rows[..n], db, host);
      var x := rows[n];
      var v := VisitRow(h, k, x, prev.db, host);
      var docs := RunTable(h, k, rows, db, host).db.docs;
      VisitCases(h, k, x, prev.db, host);
      assert OfKind(rows[..n], k);
      CollectedFoundAfterRun(h, k, rows[..n], db, host);
      forall c | c in Collected(rows[..n], k)
        ensures Exists(docs, h.patient, Ref(c))
      {
        ExistsGrows(prev.db.docs, docs[|prev.db.docs|..], h.patient, Ref(c));
        assert prev.db.docs + docs[|prev.db.docs|..] == docs;
      }
      if !Linked(x) {
        var s := Stored(v.row.linkedDocument, Build(h, x.item), 0);
        BuiltDocumentMatches(h, x.item, s.name);
        assert docs[|docs| - 1] == s;
        assert KindOf(x.item) == k;
      }
    }
  }

  /** A processor run never hides a document the duplicate check found. */
  lemma RunKeepsFound(h: Header, k: Kind, rows: seq<Row>, db: Db, host: Host, ref: ServiceRef)
    requires FreshSupply(host.naming)
    requires Exists(db.docs, h.patient, ref)
    ensures Exists(RunTable(h, k, rows, db, host).db.docs, h.patient, ref)
  {
    var r := RunTable(h, k, rows, db, host);
    RunTableCreates(h, k, rows, db, host);
    ExistsGrows(db.docs, Created(h, rows, r.rows), h.patient, ref);
  }

  /** After a create_services run that reported no error, every candidate
      the form had collected before it exists in the store the run left. */
  lemma CandidateFoundAfterCleanRun(h: Header, drugs: seq<Row>, labTests: seq<Row>, procedures: seq<Row>,
                                    db: Db, host: Host, c: Candidate)
    requires FreshSupply(host.naming)
    requires OfKind(drugs, Medication) && OfKind(labTests, LabTestOrder) && OfKind(procedures, ProcedureOrder)
    requires RunAll(h, drugs, labTests, procedures, db, host).errors == []
    requires c in ServicesToCheck(drugs, labTests, procedures)
    ensures Exists(RunAll(h, drugs, labTests, procedures, db, host).db.docs, h.patient, Ref(c))
  {
    var r1 := RunTable(h, Medication, drugs, db, host);
    var r2 := RunTable(h, LabTestOrder, labTests, r1.db, host);
    assert r1.errors == [] && r2.errors == [] && RunTable(h, ProcedureOrder, procedures, r2.db, host).errors == [];
    if c in Collected(drugs, Medication) {
      CollectedFoundAfterRun(h, Medication, drugs, db, host);
      RunKeepsFound(h, LabTestOrder, labTests, r1.db, host, Ref(c));
      RunKeepsFound(h, ProcedureOrder, procedures, r2.db, host, Ref(c));
    } else if c in Collected(labTests, LabTestOrder) {
      CollectedFoundAfterRun(h, LabTestOrder, labTests, r1.db, host);
      RunKeepsFound(h, ProcedureOrder, procedures, r2.db, host, Ref(c));
    } else {
      CollectedFoundAfterRun(h, ProcedureOrder, procedures, r2.db, host);
    }
  }

  /** The form and the server agree end to end: after a create_services run
      that reported no error, over tables that each hold rows of their own
      kind, the duplicate check reports every candidate the form had
      collected before the run. */
  lemma {:induction false} CleanRunFlagsEveryCandidate(h: Header, drugs: seq<Row>, labTests: seq<Row>, procedures: seq<Row>,
                                                       db: Db, host: Host)
    requires FreshSupply(host.naming)
    requires OfKind(drugs, Medication) && OfKind(labTests, LabTestOrder) && OfKind(procedures, ProcedureOrder)
    requires RunAll(h, drugs, labTests, procedures, db, host).errors == []
    ensures var refs := Refs(ServicesToCheck(drugs, labTests, procedures));
            CheckDuplicateServices(h.patient, refs, RunAll(h, drugs, labTests, procedures, db, host).db.docs) == refs
  {
    var all := ServicesToCheck(drugs, labTests, procedures);
    var refs := Refs(all);
    var docs := RunAll(h, drugs, labTests, procedures, db, host).db.docs;
    forall x | x in refs
      ensures Exists(docs, h.patient, x)
    {
      var j :| 0 <= j < |refs| && refs[j] == x;
      CandidateFoundAfterCleanRun(h, drugs, labTests, procedures, db, host, all[j]);
    }
    AllExistingKept(h.patient, refs, docs);
  }

  /** The request the form sends to check_duplicate_services. */
  datatype CheckRequest = CheckRequest(patient: string, services: seq<Candidate>)

  /** The Inpatient Record form: the record it shows, the "duplicate check
      already performed" flag, and frappe.validated, which decides whether
      the save in progress goes ahead. */
  class InpatientForm {
    const doc: InpatientRecord
    var isDuplicateCheckPerformed: bool
    var validated: bool

    constructor (doc: InpatientRecord, validated: bool)
      ensures this.doc == doc && !isDuplicateCheckPerformed && this.validated == validated
    {
      this.doc := doc;
      isDuplicateCheckPerformed := false;
      this.validated := validated;
    }

    /** refresh: forget that a check was performed. */
    method Refresh()
      modifies this
      ensures !isDuplicateCheckPerformed && validated == old(validated)
    {
      isDuplicateCheckPerformed := false;
    }

    /** before_save: unless a check was already performed, collect the
        candidates; with none the save goes ahead, otherwise the save is held
        and the duplicate check is requested for them. */
    method BeforeSave() returns (request: Option<CheckRequest>)
      modifies this
      ensures isDuplicateCheckPerformed == old(isDuplicateCheckPerformed)
      ensures old(isDuplicateCheckPerformed) ==> request == None && validated == old(validated)
      ensures !old(isDuplicateCheckPerformed) ==>
              var all := ServicesToCheck(doc.drugPrescription[..], doc.labTestPrescription[..],
                                         doc.procedurePrescription[..]);
              (validated <==> all == []) &&
              request == (if all == [] then None else Some(CheckRequest(doc.header.patient, all)))
    {
      if isDuplicateCheckPerformed {
        return None;
      }
      var services: seq<Candidate> := [];
      services := CollectServices(doc.drugPrescription, Medication, services);
      assert services == Collected(doc.drugPrescription[..], Medication);
      services := CollectServices(doc.labTestPrescription, LabTestOrder, services);
      services := CollectServices(doc.procedurePrescription, ProcedureOrder, services);
      assert services == ServicesToCheck(doc.drugPrescription[..], doc.labTestPrescription[..],
                                         doc.procedurePrescription[..]);
      if |services| > 0 {
        validated := false;
        request := Some(CheckRequest(doc.header.patient, services));
      } else {
        validated := true;
        request := None;
      }
    }

    /** The reply of the duplicate check, and the user's answer to the
        confirmation it raises when it lists duplicates (`proceed`, consulted
        only then). With no duplicates, or when the user proceeds, the flag
        is set, the save goes ahead and the form saves again; when the user
        cancels, the save stays held and the flag is left as it was. */
    method OnCheckReply(duplicates: seq<ServiceRef>, proceed: bool) returns (save: bool)
      modifies this
      ensures duplicates == [] || proceed ==> isDuplicateCheckPerformed && validated && save
      ensures duplicates != [] && !proceed ==>
              isDuplicateCheckPerformed == old(isDuplicateCheckPerformed) && !validated && !save
    {
      if |duplicates| > 0 {
        if proceed {
          isDuplicateCheckPerformed := true;
          validated := true;
          save := true;
        } else {
          validated := false;
          save := false;
        }
      } else {
        isDuplicateCheckPerformed := true;
        validated := true;
        save := true;
      }
    }

    /** A save that needs a duplicate check, end to end: before_save holds
        it and requests the check; the reply (`duplicates`, the server's
        answer) and the user's choice decide whether the form saves again;
        and the second before_save lets that save through without asking
        again (`again` is its request). */
    method SaveWithCheck(duplicates: seq<ServiceRef>, proceed: bool)
      returns (request: Option<CheckRequest>, resave: bool, again: Option<CheckRequest>)
      modifies this
      ensures old(isDuplicateCheckPerformed) ==> request == None && !resave && validated == old(validated)
      ensures !old(isDuplicateCheckPerformed) && request == None ==> validated && !resave
      ensures request.Some? && (duplicates == [] || proceed) ==>
              resave && again == None && validated && isDuplicateCheckPerformed
      ensures request.Some? && duplicates != [] && !proceed ==>
              !resave && !validated && !isDuplicateCheckPerformed
    {
      request := BeforeSave();
      resave, again := false, None;
      if request.Some? {
        resave := OnCheckReply(duplicates, proceed);
        if resave {
          again := BeforeSave();
        }
      }
    }
  }
}
