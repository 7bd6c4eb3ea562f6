/** The host document store, seen only through what the inpatient handler uses
    of it: inserting a new service document (which may raise) and listing the
    documents it already holds. Documents get their names from a counter, the
    way a naming series does; whether an insert raises is decided by an oracle
    that may look at the stored documents and at the document being inserted. */
module Store {

  datatype Option<T> = None | Some(value: T)

  datatype Result<T, E> = Ok(value: T) | Err(error: E)

  /** The three kinds of service document the handler creates, with the
      fields it fills in. */
  datatype ServiceDoc =
    | MedicationRequest(patient: string, inpatientRecord: string, medicationItem: string,
                        practitioner: string, dosageForm: string, dosage: string)
    | LabTest(patient: string, inpatientRecord: string, template: string,
              patientSex: string, status: string)
    | ClinicalProcedure(patient: string, inpatientRecord: string, procedureTemplate: string,
                        status: string)

  /** A document as the store holds it: its name, its fields and its workflow
      status (0 draft, 1 submitted, 2 cancelled). */
  datatype Stored = Stored(name: string, doc: ServiceDoc, docstatus: nat)

  /** The store's state: the documents in insertion order and the next number
      of the naming series. */
  datatype Db = Db(docs: seq<Stored>, serial: nat)

  /** Decides whether inserting a document raises, and with what message. */
  type Oracle = (seq<Stored>, ServiceDoc) -> Option<string>

  /** The naming series: the name given to the n-th document. */
  type Naming = nat -> string

  /** How the host store behaves: when inserts raise, and how it names what
      it inserts. */
  datatype Host = Host(rejects: Oracle, naming: Naming)

  /** A naming series hands out non-empty names, and never the same name
      twice. */
  ghost predicate FreshSupply(naming: Naming)
  {
    (forall n :: naming(n) != "") &&
    (forall a, b | a != b :: naming(a) != naming(b))
  }

  function DigitChar(d: nat): (c: char)
    requires d < 10
  {
    ('0' as int + d) as char
  }

  /* The decimal series below is not the host's own naming series, which
     this model leaves abstract: it only shows that `FreshSupply` can be
     met, so the lemmas that require it are not vacuous. */

  /** Decimal rendering of a counter value. */
  function Digits(n: nat): (s: string)
    ensures 1 <= |s|
    ensures |s| == 1 <==> n < 10
  {
    if n < 10 then [DigitChar(n)] else Digits(n / 10) + [DigitChar(n % 10)]
  }

  /** Distinct counter values render differently. */
  lemma {:induction false} DigitsInjective(a: nat, b: nat)
    requires Digits(a) == Digits(b)
    ensures a == b
  {
    if 10 <= a {
      var s := Digits(a);
      assert s[|s| - 1] == DigitChar(a % 10) == DigitChar(b % 10);
      assert s[..|s| - 1] == Digits(a / 10) == Digits(b / 10);
      DigitsInjective(a / 10, b / 10);
    } else {
      assert Digits(a)[0] == DigitChar(a) == DigitChar(b);
    }
  }

  /** A decimal naming series, "SRV-0", "SRV-1", ... */
  function SeriesName(n: nat): string
  {
    "SRV-" + Digits(n)
  }

  lemma SeriesNameInjective(a: nat, b: nat)
    requires SeriesName(a) == SeriesName(b)
    ensures a == b
  {
    assert SeriesName(a)[4..] == Digits(a);
    assert SeriesName(b)[4..] == Digits(b);
    DigitsInjective(a, b);
  }

  /** The decimal series is a valid naming series, so some naming series
      satisfies `FreshSupply`. */
  lemma SeriesNameIsFresh()
    ensures FreshSupply(SeriesName)
  {
    forall a: nat, b: nat | a != b
      ensures SeriesName(a) != SeriesName(b)
    {
      if SeriesName(a) == SeriesName(b) {
        SeriesNameInjective(a, b);
      }
    }
  }

  /** The store's invariant: document names are unique, and the naming series
      has not yet handed out any name from the counter onward. */
  ghost predicate WellNamed(db: Db, naming: Naming)
  {
    (forall i, j | 0 <= i < j < |db.docs| :: db.docs[i].name != db.docs[j].name) &&
    (forall i, k | 0 <= i < |db.docs| && db.serial <= k :: db.docs[i].name != naming(k))
  }

  predicate HasName(docs: seq<Stored>, name: string)
  {
    exists i | 0 <= i < |docs| :: docs[i].name == name
  }

  datatype InsertOutcome = Accepted(db: Db, name: string) | Rejected(error: string)

  /** What inserting `d` does to the store: either the oracle raises and the
      store is unchanged, or `d` is appended as a draft under the next
      series name. */
  function InsertInto(db: Db, d: ServiceDoc, host: Host): (r: InsertOutcome)
    ensures r.Rejected? <==> host.rejects(db.docs, d).Some?
    ensures r.Accepted? ==> r.db.docs == db.docs + [Stored(r.name, d, 0)]
    ensures r.Accepted? ==> r.name == host.naming(db.serial) && r.db.serial == db.serial + 1
    ensures r.Rejected? ==> Some(r.error) == host.rejects(db.docs, d)
  {
    match host.rejects(db.docs, d)
    case Some(e) => Rejected(e)
    case None =>
      var name := host.naming(db.serial);
      Accepted(Db(db.docs + [Stored(name, d, 0)], db.serial + 1), name)
  }

  /** An accepted insert keeps the store valid, and the name it hands out was
      not in use before. */
  lemma InsertKeepsValid(db: Db, d: ServiceDoc, host: Host)
    requires FreshSupply(host.naming) && WellNamed(db, host.naming)
    requires InsertInto(db, d, host).Accepted?
    ensures WellNamed(InsertInto(db, d, host).db, host.naming)
    ensures !HasName(db.docs, InsertInto(db, d, host).name)
  {
    var r := InsertInto(db, d, host);
    assert r.name == host.naming(db.serial);
  }

  /** The store as a mutable object shared by every processor of one run. */
  class DocumentStore {
    var db: Db
    const host: Host

    ghost predicate Valid()
      reads this
    {
      FreshSupply(host.naming) && WellNamed(db, host.naming)
    }

    constructor (existing: Db, host: Host)
      requires FreshSupply(host.naming) && WellNamed(existing, host.naming)
      ensures Valid() && db == existing && this.host == host
    {
      db := existing;
      this.host := host;
    }

    /** Inserts `d`; returns the new document's name, or the message the
        insert raised with. */
    method Insert(d: ServiceDoc) returns (r: Result<string, string>)
      modifies this
      ensures old(Valid()) ==> Valid()
      ensures match InsertInto(old(db), d, host)
              case Accepted(db', name) => r == Ok(name) && db == db'
              case Rejected(e) => r == Err(e) && db == old(db)
    {
      var outcome := InsertInto(db, d, host);
      match outcome
      case Accepted(db', name) =>
        if Valid() {
          InsertKeepsValid(db, d, host);
        }
        db := db';
        r := Ok(name);
      case Rejected(e) =>
        r := Err(e);
    }
  }
}
