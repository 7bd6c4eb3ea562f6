/** The server side of the handler: the three per-kind processors, which walk
    one child table each, create a service document for every row not yet
    linked and write its name back into the row, and create_services, which
    runs them in order and reports the collected errors in one notification. */
module Processing {
  import opened Store
  import opened Inpatient
  import opened Duplicates

  /** One entry of the shared error list: the kind of the processor, the
      row's descriptor and the message the insert raised with. */
  datatype Failure = Failure(kind: Kind, descriptor: string, message: string) {
    /** The line as the processors format it: "<Kind> '<descriptor>': <error>".
        It opens with the kind's tag and closes with the raised message. */
    function Text(): (line: string)
      ensures |KindTag(kind)| <= |line| && line[..|KindTag(kind)|] == KindTag(kind)
      ensures |message| <= |line| && line[|line| - |message|..] == message
    {
      KindTag(kind) + " '" + descriptor + "': " + message
    }
  }

  /** `f` is an error entry about prescription `p` in the table of kind `k`. */
  predicate FailureFor(f: Failure, k: Kind, p: Prescription)
  {
    f.kind == k && f.descriptor == ServiceName(p)
  }

  datatype Visit = Visit(row: Row, db: Db, errors: seq<Failure>)

  /** One turn of a processor's loop: a linked row is skipped; otherwise the
      row's document is inserted and its name written into the row, or the
      insert raises and one error line is produced. */
  function VisitRow(h: Header, k: Kind, row: Row, db: Db, host: Host): (v: Visit)
    ensures v.row.rowName == row.rowName && v.row.item == row.item
    ensures Linked(row) ==> v == Visit(row, db, [])
    ensures db.docs <= v.db.docs && |v.db.docs| <= |db.docs| + 1
    ensures |v.errors| <= 1
    ensures v.errors != [] ==> v.row == row && v.db == db && FailureFor(v.errors[0], k, row.item)
  {
    if Linked(row) then Visit(row, db, [])
    else
      match InsertInto(db, Build(h, row.item), host)
      case Accepted(db', name) => Visit(row.(linkedDocument := name), db', [])
      case Rejected(e) => Visit(row, db, [Failure(k, ServiceName(row.item), e)])
  }

  datatype Run = Run(rows: seq<Row>, db: Db, errors: seq<Failure>)

  /** A processor's loop over a whole table, row by row in table order. */
  function RunTable(h: Header, k: Kind, rows: seq<Row>, db: Db, host: Host): (r: Run)
    ensures |r.rows| == |rows|
    ensures |r.errors| <= |rows|
    ensures db.docs <= r.db.docs && |r.db.docs| <= |db.docs| + |rows|
  {
    if rows == [] then Run([], db, [])
    else
      var prev := RunTable(h, k, rows[..|rows| - 1], db, host);
      var v := VisitRow(h, k, rows[|rows| - 1], prev.db, host);
      Run(prev.rows + [v.row], v.db, prev.errors + v.errors)
  }

  /** The linkage invariant: every row keeps its name and its item, a linked
      row is left exactly as it was, and an unlinked row either stays as it
      was or gets linked; linkage only ever goes from unset to set. */
  lemma {:induction false} LinkageForwardOnly(h: Header, k: Kind, rows: seq<Row>, db: Db, host: Host, i: nat)
    requires FreshSupply(host.naming)
    requires i < |rows|
    ensures var after := RunTable(h, k, rows, db, host).rows[i];
            after == rows[i] ||
            (!Linked(rows[i]) && Linked(after) && after == rows[i].(linkedDocument := after.linkedDocument))
  {
    var n := |rows| - 1;
    if i < n {
      LinkageForwardOnly(h, k, rows[..n], db, host, i);
    }
  }

  /** The loop's step: running one more row of the table. */
  lemma {:induction false} RunTablePrefix(h: Header, k: Kind, rows: seq<Row>, i: nat, db: Db, host: Host)
    requires i < |rows|
    ensures var prev := RunTable(h, k, rows[..i], db, host);
            var v := VisitRow(h, k, rows[i], prev.db, host);
            RunTable(h, k, rows[..i + 1], db, host) == Run(prev.rows + [v.row], v.db, prev.errors + v.errors)
  {
    assert rows[..i + 1][..i] == rows[..i];
  }

  lemma AppendAssoc<T>(a: seq<T>, b: seq<T>, c: seq<T>)
    ensures (a + b) + c == a + (b + c)
  {
  }

  /** Running a table in two parts is running it whole: the second part
      starts from the store the first part left behind, whatever errors the
      first part collected. */
  lemma {:induction false} RunTableSplit(h: Header, k: Kind, a: seq<Row>, b: seq<Row>, db: Db, host: Host)
    ensures var ra := RunTable(h, k, a, db, host);
            var rb := RunTable(h, k, b, ra.db, host);
            RunTable(h, k, a + b, db, host) == Run(ra.rows + rb.rows, rb.db, ra.errors + rb.errors)
    decreases |b|
  {
    if b == [] {
      assert a + b == a;
    } else {
      var b' := b[..|b| - 1];
      assert (a + b)[..|a + b| - 1] == a + b';
      assert (a + b)[|a + b| - 1] == b[|b| - 1];
      RunTableSplit(h, k, a, b', db, host);
      var ra := RunTable(h, k, a, db, host);
      var rb' := RunTable(h, k, b', ra.db, host);
      var v := VisitRow(h, k, b[|b| - 1], rb'.db, host);
      AppendAssoc(ra.rows, rb'.rows, [v.row]);
      AppendAssoc(ra.errors, rb'.errors, v.errors);
    }
  }

  /** Error isolation: when creating the document of row `x` raises, the store
      is left as it was, exactly one error line naming the row is added, and
      the rows after it are processed exactly as if `x` were not there. */
  lemma {:induction false} FailingRowIsolated(h: Header, k: Kind, pre: seq<Row>, x: Row, post: seq<Row>, db: Db,
                           host: Host, e: string)
    requires !Linked(x)
    requires host.rejects(RunTable(h, k, pre, db, host).db.docs, Build(h, x.item)) == Some(e)
    ensures var rp := RunTable(h, k, pre, db, host);
            var rq := RunTable(h, k, post, rp.db, host);
            RunTable(h, k, pre + [x] + post, db, host) ==
            Run(rp.rows + [x] + rq.rows, rq.db, rp.errors + [Failure(k, ServiceName(x.item), e)] + rq.errors)
  {
    var rp := RunTable(h, k, pre, db, host);
    RunTableSplit(h, k, pre + [x], post, db, host);
    RunTableSplit(h, k, pre, [x], db, host);
    assert [x][..0] == [];
  }

  /** A linked row is skipped: it creates nothing, changes nothing and adds
      no error, and the rows after it are processed as if it were not there. */
  lemma {:induction false} LinkedRowSkipped(h: Header, k: Kind, pre: seq<Row>, x: Row, post: seq<Row>, db: Db, host: Host)
    requires Linked(x)
    ensures var rp := RunTable(h, k, pre, db, host);
            var rq := RunTable(h, k, post, rp.db, host);
            RunTable(h, k, pre + [x] + post, db, host) == Run(rp.rows + [x] + rq.rows, rq.db, rp.errors + rq.errors)
  {
    var rp := RunTable(h, k, pre, db, host);
    var rx := RunTable(h, k, pre + [x], db, host);
    RunTableSplit(h, k, pre, [x], db, host);
    RunTableSingle(h, k, x, rp.db, host);
    assert rx == Run(rp.rows + [x], rp.db, rp.errors + []);
    assert rp.errors + [] == rp.errors;
    RunTableSplit(h, k, pre + [x], post, db, host);
  }

  lemma {:induction false} RunTableSingle(h: Header, k: Kind, x: Row, db: Db, host: Host)
    ensures var v := VisitRow(h, k, x, db, host);
            RunTable(h, k, [x], db, host) == Run([v.row], v.db, v.errors)
  {
    assert [x][..0] == [];
  }

  /** Idempotence: over a table whose rows are all linked a processor creates
      nothing, changes nothing and reports nothing. */
  lemma {:induction false} AllLinkedIsNoOp(h: Header, k: Kind, rows: seq<Row>, db: Db, host: Host)
    requires AllLinked(rows)
    ensures RunTable(h, k, rows, db, host) == Run(rows, db, [])
  {
    if rows != [] {
      AllLinkedIsNoOp(h, k, rows[..|rows| - 1], db, host);
      assert rows[..|rows| - 1] + [rows[|rows| - 1]] == rows;
    }
  }

  /** What one visit does: the row keeps its name and item; either it ends
      up linked and no error is added, or it stays as it was, unlinked, and
      exactly one error entry about it is added. The store gains a document,
      built from the row and named as the row now says, exactly when the
      visit links the row. */
  lemma {:induction false} VisitCases(h: Header, k: Kind, row: Row, db: Db, host: Host)
    requires FreshSupply(host.naming)
    ensures var v := VisitRow(h, k, row, db, host);
            v.row.rowName == row.rowName && v.row.item == row.item &&
            (if Linked(v.row) then v.errors == []
             else v.row == row && |v.errors| == 1 && FailureFor(v.errors[0], k, row.item)) &&
            v.db.docs == db.docs +
              (if !Linked(row) && Linked(v.row) then [Stored(v.row.linkedDocument, Build(h, row.item), 0)] else [])
  {
  }

  /** `errors` has one entry per pending row, in order, each about that row. */
  predicate Accounts(errors: seq<Failure>, pending: seq<Row>, k: Kind)
  {
    |errors| == |pending| &&
    forall j | 0 <= j < |errors| :: FailureFor(errors[j], k, pending[j].item)
  }

  lemma {:induction false} AccountsAppend(e1: seq<Failure>, u1: seq<Row>, e2: seq<Failure>, u2: seq<Row>, k: Kind)
    requires Accounts(e1, u1, k) && Accounts(e2, u2, k)
    ensures Accounts(e1 + e2, u1 + u2, k)
  {
    forall j | 0 <= j < |e1 + e2|
      ensures FailureFor((e1 + e2)[j], k, (u1 + u2)[j].item)
    {
      if j >= |e1| {
        assert (e1 + e2)[j] == e2[j - |e1|] && (u1 + u2)[j] == u2[j - |e1|];
      }
    }
  }

  /** One error entry per row that is still unlinked after the run, in table
      order, each naming that row's kind and descriptor. */
  lemma {:induction false} ErrorsFollowFailedRows(h: Header, k: Kind, rows: seq<Row>, db: Db, host: Host)
    requires FreshSupply(host.naming)
    ensures var r := RunTable(h, k, rows, db, host);
            Accounts(r.errors, Unlinked(r.rows), k)
  {
    if rows != [] {
      var n := |rows| - 1;
      var r := RunTable(h, k, rows, db, host);
      var prev := RunTable(h, k, rows[..n], db, host);
      var v := VisitRow(h, k, rows[n], prev.db, host);
      ErrorsFollowFailedRows(h, k, rows[..n], db, host);
      VisitCases(h, k, rows[n], prev.db, host);
      assert r.rows[..n] == prev.rows && r.rows[n] == v.row;
      var u2 := if Linked(v.row) then [] else [v.row];
      assert Unlinked(r.rows) == Unlinked(prev.rows) + u2;
      AccountsAppend(prev.errors, Unlinked(prev.rows), v.errors, u2, k);
    }
  }

  /** The documents created for the rows that went from unlinked to linked,
      in table order, each under the name written into its row. */
  function Created(h: Header, rows: seq<Row>, after: seq<Row>): seq<Stored>
    requires |rows| == |after|
  {
    if rows == [] then []
    else
      var n := |rows| - 1;
      Created(h, rows[..n], after[..n]) +
      (if !Linked(rows[n]) && Linked(after[n])
       then [Stored(after[n].linkedDocument, Build(h, rows[n].item), 0)] else [])
  }

  /** The store after a run is the store before it plus, in row order, one
      draft document per newly linked row, built from that row and named as
      the row now says. */
  lemma {:induction false} RunTableCreates(h: Header, k: Kind, rows: seq<Row>, db: Db, host: Host)
    requires FreshSupply(host.naming)
    ensures var r := RunTable(h, k, rows, db, host);
            r.db.docs == db.docs + Created(h, rows, r.rows)
  {
    if rows != [] {
      var n := |rows| - 1;
      var r := RunTable(h, k, rows, db, host);
      var prev := RunTable(h, k, rows[..n], db, host);
      RunTableCreates(h, k, rows[..n], db, host);
      VisitCases(h, k, rows[n], prev.db, host);
      assert r.rows[..n] == prev.rows;
    }
  }

  lemma {:induction false} CreatedHasRow(h: Header, rows: seq<Row>, after: seq<Row>, i: nat)
    requires |rows| == |after| && i < |rows|
    requires !Linked(rows[i]) && Linked(after[i])
    ensures Stored(after[i].linkedDocument, Build(h, rows[i].item), 0) in Created(h, rows, after)
  {
    var n := |rows| - 1;
    if i < n {
      CreatedHasRow(h, rows[..n], after[..n], i);
    }
  }

  /** A run keeps the store's names unique. */
  lemma {:induction false} RunTableKeepsValid(h: Header, k: Kind, rows: seq<Row>, db: Db, host: Host)
    requires FreshSupply(host.naming) && WellNamed(db, host.naming)
    ensures WellNamed(RunTable(h, k, rows, db, host).db, host.naming)
  {
    if rows != [] {
      var prev := RunTable(h, k, rows[..|rows| - 1], db, host);
      var row := rows[|rows| - 1];
      RunTableKeepsValid(h, k, rows[..|rows| - 1], db, host);
      if !Linked(row) && InsertInto(prev.db, Build(h, row.item), host).Accepted? {
        InsertKeepsValid(prev.db, Build(h, row.item), host);
      }
    }
  }

  /** Every row a run links is, afterwards, reported by the duplicate check
      under its own tag and name: the document it created is what the check
      looks for. */
  lemma {:induction false} NewlyLinkedRowIsDuplicate(h: Header, k: Kind, rows: seq<Row>, db: Db, host: Host, i: nat)
    requires FreshSupply(host.naming)
    requires i < |rows|
    requires !Linked(rows[i]) && Linked(RunTable(h, k, rows, db, host).rows[i])
    ensures var ref := ServiceRef(KindTag(KindOf(rows[i].item)), ServiceName(rows[i].item));
            Exists(RunTable(h, k, rows, db, host).db.docs, h.patient, ref)
  {
    var r := RunTable(h, k, rows, db, host);
    var s := Stored(r.rows[i].linkedDocument, Build(h, rows[i].item), 0);
    RunTableCreates(h, k, rows, db, host);
    CreatedHasRow(h, rows, r.rows, i);
    BuiltDocumentMatches(h, rows[i].item, s.name);
    var c := Created(h, rows, r.rows);
    var j :| 0 <= j < |c| && c[j] == s;
    assert r.db.docs[|db.docs| + j] == s;
  }

  lemma ReplaceAt<T>(a: seq<T>, b: seq<T>, x: T)
    requires b != []
    ensures (a + b)[|a| := x] == a + [x] + b[1..]
  {
  }

  /** One turn of a processor's loop, on row `i` of the table in place. */
  method VisitInPlace(h: Header, k: Kind, table: array<Row>, i: nat, store: DocumentStore, errors: seq<Failure>)
    returns (errs: seq<Failure>)
    requires i < table.Length
    modifies table, store
    ensures var v := VisitRow(h, k, old(table[i]), old(store.db), store.host);
            table[..] == old(table[..])[i := v.row] && store.db == v.db && errs == errors + v.errors
  {
    errs := errors;
    var row := table[i];
    if row.linkedDocument == "" {
      var result := store.Insert(Build(h, row.item));
      match result
      case Ok(name) =>
        table[i] := row.(linkedDocument := name);
      case Err(e) =>
        errs := errs + [Failure(k, ServiceName(row.item), e)];
    }
  }

  /** The processor loop over one child table (process_medications,
      process_lab_tests and process_procedures differ only in the table they
      walk, the document they build and the kind named in error lines). */
  method ProcessTable(h: Header, k: Kind, table: array<Row>, store: DocumentStore, errors: seq<Failure>)
    returns (errs: seq<Failure>)
    requires OfKind(table[..], k)
    modifies table, store
    ensures var r := RunTable(h, k, old(table[..]), old(store.db), store.host);
            table[..] == r.rows && store.db == r.db && errs == errors + r.errors
  {
    errs := errors;
    ghost var rows, db, host := table[..], store.db, store.host;
    ghost var run := Run([], db, []);
    var i := 0;
    while i < table.Length
      invariant 0 <= i <= table.Length
      invariant run == RunTable(h, k, rows[..i], db, host)
      invariant table[..] == run.rows + rows[i..]
      invariant store.db == run.db && errs == errors + run.errors
      invariant store.host == host
    {
      RunTablePrefix(h, k, rows, i, db, host);
      ghost var v := VisitRow(h, k, rows[i], run.db, host);
      assert table[i] == rows[i];
      errs := VisitInPlace(h, k, table, i, store, errs);
      ReplaceAt(run.rows, rows[i..], v.row);
      assert rows[i..][1..] == rows[i + 1..];
      AppendAssoc(errors, run.errors, v.errors);
      run := Run(run.rows + [v.row], v.db, run.errors + v.errors);
      i := i + 1;
    }
    assert rows[..i] == rows && rows[i..] == [];
    assert table[..] == run.rows;
  }

  method ProcessMedications(rec: InpatientRecord, store: DocumentStore, errors: seq<Failure>)
    returns (errs: seq<Failure>)
    requires OfKind(rec.drugPrescription[..], Medication)
    modifies rec.drugPrescription, store
    ensures var r := RunTable(rec.header, Medication, old(rec.drugPrescription[..]), old(store.db), store.host);
            rec.drugPrescription[..] == r.rows && store.db == r.db && errs == errors + r.errors
  {
    errs := ProcessTable(rec.header, Medication, rec.drugPrescription, store, errors);
  }

  method ProcessLabTests(rec: InpatientRecord, store: DocumentStore, errors: seq<Failure>)
    returns (errs: seq<Failure>)
    requires OfKind(rec.labTestPrescription[..], LabTestOrder)
    modifies rec.labTestPrescription, store
    ensures var r := RunTable(rec.header, LabTestOrder, old(rec.labTestPrescription[..]), old(store.db), store.host);
            rec.labTestPrescription[..] == r.rows && store.db == r.db && errs == errors + r.errors
  {
    errs := ProcessTable(rec.header, LabTestOrder, rec.labTestPrescription, store, errors);
  }

  method ProcessProcedures(rec: InpatientRecord, store: DocumentStore, errors: seq<Failure>)
    returns (errs: seq<Failure>)
    requires OfKind(rec.procedurePrescription[..], ProcedureOrder)
    modifies rec.procedurePrescription, store
    ensures var r := RunTable(rec.header, ProcedureOrder, old(rec.procedurePrescription[..]), old(store.db), store.host);
            rec.procedurePrescription[..] == r.rows && store.db == r.db && errs == errors + r.errors
  {
    errs := ProcessTable(rec.header, ProcedureOrder, rec.procedurePrescription, store, errors);
  }

  // ---------------------------------------------------------------------
  // The notification

  /** "\n".join(lines): lines that hold no line break are joined with
      exactly one line break between each two. */
  function JoinLines(lines: seq<string>): (s: string)
    ensures (forall j | 0 <= j < |lines| :: '\n' !in lines[j]) ==>
            multiset(s)['\n'] == if lines == [] then 0 else |lines| - 1
  {
    if lines == [] then ""
    else if |lines| == 1 then lines[0]
    else lines[0] + "\n" + JoinLines(lines[1..])
  }

  /** s.split("\n") */
  function SplitLines(s: string): (lines: seq<string>)
    ensures |lines| >= 1
  {
    if s == [] then [""]
    else
      var rest := SplitLines(s[1..]);
      if s[0] == '\n' then [""] + rest else [[s[0]] + rest[0]] + rest[1..]
  }

  lemma {:induction false} SplitLineBreak(x: string, t: string)
    requires '\n' !in x
    ensures SplitLines(x + "\n" + t) == [x] + SplitLines(t)
  {
    if x == [] {
      assert x + "\n" + t == "\n" + t;
      assert ("\n" + t)[1..] == t;
    } else {
      SplitLineBreak(x[1..], t);
      assert (x + "\n" + t)[1..] == x[1..] + "\n" + t;
      assert [x[0]] + x[1..] == x;
    }
  }

  lemma {:induction false} SplitSingleLine(x: string)
    requires '\n' !in x
    ensures SplitLines(x) == [x]
  {
    if x != [] {
      SplitSingleLine(x[1..]);
      assert [x[0]] + x[1..] == x;
    }
  }

  /** Joining lines that hold no line break and splitting again gives the
      lines back. */
  lemma {:induction false} SplitJoin(lines: seq<string>)
    requires lines != []
    requires forall j | 0 <= j < |lines| :: '\n' !in lines[j]
    ensures SplitLines(JoinLines(lines)) == lines
  {
    if |lines| == 1 {
      SplitSingleLine(lines[0]);
    } else {
      SplitJoin(lines[1..]);
      SplitLineBreak(lines[0], JoinLines(lines[1..]));
    }
  }

  datatype Indicator = Red | Green

  datatype Notification = Notification(title: string, message: string, indicator: Indicator)

  const ErrorHeading := "Errors occurred while creating services:"

  /** The text of every entry, in order. */
  function Texts(errors: seq<Failure>): (lines: seq<string>)
    ensures |lines| == |errors|
    ensures forall j | 0 <= j < |errors| :: lines[j] == errors[j].Text()
  {
    seq(|errors|, j requires 0 <= j < |errors| => errors[j].Text())
  }

  /** The one message create_services shows at the end of a run. */
  function Summary(errors: seq<Failure>): (n: Notification)
    ensures n.indicator == Red <==> errors != []
  {
    if errors != [] then
      Notification("Service Creation Errors", ErrorHeading + "\n" + JoinLines(Texts(errors)), Red)
    else
      Notification("Service Creation", "Services have been successfully created.", Green)
  }

  lemma HeadingIsOneLine()
    ensures '\n' !in ErrorHeading
  {
    forall i | 0 <= i < |ErrorHeading| ensures ErrorHeading[i] != '\n' {
    }
  }

  /** The red message lists the text of every collected error, one per line,
      in order, under its heading. */
  lemma {:induction false} SummaryListsErrors(errors: seq<Failure>)
    requires errors != []
    requires forall j | 0 <= j < |errors| :: '\n' !in errors[j].Text()
    ensures SplitLines(Summary(errors).message) == [ErrorHeading] + Texts(errors)
  {
    SplitJoin(Texts(errors));
    HeadingIsOneLine();
    SplitLineBreak(ErrorHeading, JoinLines(Texts(errors)));
  }

  // ---------------------------------------------------------------------
  // The orchestrator

  datatype Outcome = Outcome(drugs: seq<Row>, labTests: seq<Row>, procedures: seq<Row>, db: Db, errors: seq<Failure>)

  /** What create_services does to the three tables and the store: the three
      processors in the fixed order medications, lab tests, procedures, each
      starting from the store the previous one left, sharing one error list. */
  function RunAll(h: Header, drugs: seq<Row>, labTests: seq<Row>, procedures: seq<Row>, db: Db, host: Host)
    : (o: Outcome)
    ensures |o.drugs| == |drugs| && |o.labTests| == |labTests| && |o.procedures| == |procedures|
    ensures |o.errors| <= |drugs| + |labTests| + |procedures|
    ensures db.docs <= o.db.docs
  {
    var r1 := RunTable(h, Medication, drugs, db, host);
    var r2 := RunTable(h, LabTestOrder, labTests, r1.db, host);
    var r3 := RunTable(h, ProcedureOrder, procedures, r2.db, host);
    Outcome(r1.rows, r2.rows, r3.rows, r3.db, r1.errors + r2.errors + r3.errors)
  }

  /** `errors` holds one entry per pending medication row, then one per
      pending lab test row, then one per pending procedure row, each in table
      order and each naming its kind and its row's descriptor. */
  predicate GroupedByKind(errors: seq<Failure>, u1: seq<Row>, u2: seq<Row>, u3: seq<Row>)
  {
    |errors| == |u1| + |u2| + |u3| &&
    (forall j | 0 <= j < |u1| :: FailureFor(errors[j], Medication, u1[j].item)) &&
    (forall j | 0 <= j < |u2| :: FailureFor(errors[|u1| + j], LabTestOrder, u2[j].item)) &&
    (forall j | 0 <= j < |u3| :: FailureFor(errors[|u1| + |u2| + j], ProcedureOrder, u3[j].item))
  }

  /** The errors of a run come grouped by kind, medications first, then lab
      tests, then procedures, and within a kind in table order: one entry per
      row left unlinked. */
  lemma {:induction false} ErrorsGroupedByKind(h: Header, drugs: seq<Row>, labTests: seq<Row>, procedures: seq<Row>, db: Db, host: Host)
    requires FreshSupply(host.naming)
    ensures var o := RunAll(h, drugs, labTests, procedures, db, host);
            GroupedByKind(o.errors, Unlinked(o.drugs), Unlinked(o.labTests), Unlinked(o.procedures))
  {
    var r1 := RunTable(h, Medication, drugs, db, host);
    var r2 := RunTable(h, LabTestOrder, labTests, r1.db, host);
    var r3 := RunTable(h, ProcedureOrder, procedures, r2.db, host);
    ErrorsFollowFailedRows(h, Medication, drugs, db, host);
    ErrorsFollowFailedRows(h, LabTestOrder, labTests, r1.db, host);
    ErrorsFollowFailedRows(h, ProcedureOrder, procedures, r2.db, host);
    ConcatErrorLines(r1.errors, r2.errors, r3.errors, Unlinked(r1.rows), Unlinked(r2.rows), Unlinked(r3.rows));
  }

  lemma {:induction false} ConcatErrorLines(e1: seq<Failure>, e2: seq<Failure>, e3: seq<Failure>, u1: seq<Row>, u2: seq<Row>, u3: seq<Row>)
    requires Accounts(e1, u1, Medication) && Accounts(e2, u2, LabTestOrder) && Accounts(e3, u3, ProcedureOrder)
    ensures GroupedByKind(e1 + e2 + e3, u1, u2, u3)
  {
    var all := e1 + e2 + e3;
    forall j | 0 <= j < |u2| ensures FailureFor(all[|u1| + j], LabTestOrder, u2[j].item) {
      assert all[|u1| + j] == e2[j];
    }
    forall j | 0 <= j < |u3| ensures FailureFor(all[|u1| + |u2| + j], ProcedureOrder, u3[j].item) {
      assert all[|u1| + |u2| + j] == e3[j];
    }
  }

  /** The notification is green exactly when every row of every table is
      linked after the run. */
  lemma {:induction false} GreenIffAllLinked(h: Header, drugs: seq<Row>, labTests: seq<Row>, procedures: seq<Row>, db: Db, host: Host)
    requires FreshSupply(host.naming)
    ensures var o := RunAll(h, drugs, labTests, procedures, db, host);
            Summary(o.errors).indicator == Green <==>
            AllLinked(o.drugs) && AllLinked(o.labTests) && AllLinked(o.procedures)
  {
    ErrorsGroupedByKind(h, drugs, labTests, procedures, db, host);
  }

  /** Idempotence: running create_services again after a run that reported
      no error creates nothing, changes no row and shows the green message. */
  lemma {:induction false} RerunCreatesNothing(h: Header, drugs: seq<Row>, labTests: seq<Row>, procedures: seq<Row>, db: Db, host: Host)
    requires FreshSupply(host.naming)
    requires RunAll(h, drugs, labTests, procedures, db, host).errors == []
    ensures var o := RunAll(h, drugs, labTests, procedures, db, host);
            RunAll(h, o.drugs, o.labTests, o.procedures, o.db, host) ==
            Outcome(o.drugs, o.labTests, o.procedures, o.db, []) &&
            Summary([]).indicator == Green
  {
    var o := RunAll(h, drugs, labTests, procedures, db, host);
    GreenIffAllLinked(h, drugs, labTests, procedures, db, host);
    AllLinkedIsNoOp(h, Medication, o.drugs, o.db, host);
    AllLinkedIsNoOp(h, LabTestOrder, o.labTests, o.db, host);
    AllLinkedIsNoOp(h, ProcedureOrder, o.procedures, o.db, host);
  }

  /** A run keeps the store's names unique, so the names written into newly
      linked rows are fresh. */
  lemma {:induction false} RunAllKeepsValid(h: Header, drugs: seq<Row>, labTests: seq<Row>, procedures: seq<Row>, db: Db, host: Host)
    requires FreshSupply(host.naming) && WellNamed(db, host.naming)
    ensures WellNamed(RunAll(h, drugs, labTests, procedures, db, host).db, host.naming)
  {
    var r1 := RunTable(h, Medication, drugs, db, host);
    var r2 := RunTable(h, LabTestOrder, labTests, r1.db, host);
    RunTableKeepsValid(h, Medication, drugs, db, host);
    RunTableKeepsValid(h, LabTestOrder, labTests, r1.db, host);
    RunTableKeepsValid(h, ProcedureOrder, procedures, r2.db, host);
  }

  /** The three processors in order over one shared error list. */
  method RunProcessors(rec: InpatientRecord, store: DocumentStore) returns (errors: seq<Failure>)
    requires rec.TablesDistinct() && rec.WellKinded()
    requires store.Valid()
    modifies rec.drugPrescription, rec.labTestPrescription, rec.procedurePrescription, store
    ensures store.Valid()
    ensures var o := RunAll(rec.header, old(rec.drugPrescription[..]), old(rec.labTestPrescription[..]),
                            old(rec.procedurePrescription[..]), old(store.db), store.host);
            rec.drugPrescription[..] == o.drugs &&
            rec.labTestPrescription[..] == o.labTests &&
            rec.procedurePrescription[..] == o.procedures &&
            store.db == o.db &&
            errors == o.errors
  {
    ghost var h, host := rec.header, store.host;
    ghost var drugs, labTests, procedures := rec.drugPrescription[..], rec.labTestPrescription[..],
                                             rec.procedurePrescription[..];
    ghost var db := store.db;
    ghost var r1 := RunTable(h, Medication, drugs, db, host);
    errors := [];
    errors := ProcessMedications(rec, store, errors);
    assert errors == r1.errors;
    assert rec.labTestPrescription[..] == labTests && rec.procedurePrescription[..] == procedures;
    ghost var r2 := RunTable(h, LabTestOrder, labTests, r1.db, host);
    errors := ProcessLabTests(rec, store, errors);
    assert rec.drugPrescription[..] == r1.rows && rec.procedurePrescription[..] == procedures;
    ghost var r3 := RunTable(h, ProcedureOrder, procedures, r2.db, host);
    errors := ProcessProcedures(rec, store, errors);
    assert rec.drugPrescription[..] == r1.rows && rec.labTestPrescription[..] == r2.rows;
    assert errors == r1.errors + r2.errors + r3.errors;
    RunAllKeepsValid(h, drugs, labTests, procedures, db, host);
  }

  /** create_services: the after-save hook of the Inpatient Record. */
  method CreateServices(rec: InpatientRecord, store: DocumentStore) returns (n: Notification)
    requires rec.TablesDistinct() && rec.WellKinded()
    requires store.Valid()
    modifies rec.drugPrescription, rec.labTestPrescription, rec.procedurePrescription, store
    ensures store.Valid()
    ensures var o := RunAll(rec.header, old(rec.drugPrescription[..]), old(rec.labTestPrescription[..]),
                            old(rec.procedurePrescription[..]), old(store.db), store.host);
            rec.drugPrescription[..] == o.drugs &&
            rec.labTestPrescription[..] == o.labTests &&
            rec.procedurePrescription[..] == o.procedures &&
            store.db == o.db &&
            n == Summary(o.errors)
  {
    var errors := RunProcessors(rec, store);
    n := Summary(errors);
  }
}
