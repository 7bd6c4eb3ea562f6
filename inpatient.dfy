/** The Inpatient Record as the handler and the form see it: its header
    fields and its three prescription child tables, and the service document
    each kind of prescription row turns into. */
module Inpatient {
  import opened Store

  /** The three kinds of prescription, one per child table. */
  datatype Kind = Medication | LabTestOrder | ProcedureOrder

  /** The service type tag of a kind: the tag the form sends to the duplicate
      check and the prefix of an error line on the server. */
  function KindTag(k: Kind): (t: string)
  {
    match k
    case Medication => "Medication"
    case LabTestOrder => "Lab Test"
    case ProcedureOrder => "Procedure"
  }

  /** The name of the child table that holds prescriptions of a kind. */
  function TableField(k: Kind): string
  {
    match k
    case Medication => "drug_prescription"
    case LabTestOrder => "lab_test_prescription"
    case ProcedureOrder => "procedure_prescription"
  }

  /** What a prescription row orders. */
  datatype Prescription =
    | Drug(drugName: string, dosageForm: string, dosage: string)
    | LabTestCode(labTestCode: string)
    | ProcedureName(procedureName: string)

  function KindOf(p: Prescription): Kind
  {
    match p
    case Drug(_, _, _) => Medication
    case LabTestCode(_) => LabTestOrder
    case ProcedureName(_) => ProcedureOrder
  }

  /** The field that names what is ordered: drug_name, lab_test_code or
      procedure_name. */
  function ServiceName(p: Prescription): string
  {
    match p
    case Drug(name, _, _) => name
    case LabTestCode(code) => code
    case ProcedureName(name) => name
  }

  /** A child-table row; `linkedDocument` is custom_linked_document, with the
      empty string standing for an unset value. */
  datatype Row = Row(rowName: string, item: Prescription, linkedDocument: string)

  predicate Linked(row: Row)
  {
    row.linkedDocument != ""
  }

  predicate AllLinked(rows: seq<Row>)
  {
    forall i | 0 <= i < |rows| :: Linked(rows[i])
  }

  /** The rows still waiting for a service document, in table order. */
  function Unlinked(rows: seq<Row>): (pending: seq<Row>)
    ensures |pending| <= |rows|
    ensures pending == [] <==> AllLinked(rows)
  {
    if rows == [] then []
    else
      var last := rows[|rows| - 1];
      Unlinked(rows[..|rows| - 1]) + (if Linked(last) then [] else [last])
  }

  /** The pending rows are exactly the unlinked rows of the table. */
  lemma {:induction false} UnlinkedMembers(rows: seq<Row>, x: Row)
    ensures x in Unlinked(rows) <==> x in rows && !Linked(x)
  {
    if rows != [] {
      var n := |rows| - 1;
      UnlinkedMembers(rows[..n], x);
      assert rows == rows[..n] + [rows[n]];
    }
  }

  /** The fields of the Inpatient Record the handler copies into documents;
      an unset gender is the empty string. */
  datatype Header = Header(name: string, patient: string, primaryPractitioner: string, gender: string)

  /** `doc.gender or "Other"`. */
  function PatientSex(gender: string): (sex: string)
    ensures sex != ""
    ensures gender != "" ==> sex == gender
    ensures gender == "" ==> sex == "Other"
  {
    if gender != "" then gender else "Other"
  }

  /** The kind of prescription a service document serves. */
  function DocKind(d: ServiceDoc): Kind
  {
    match d
    case MedicationRequest(_, _, _, _, _, _) => Medication
    case LabTest(_, _, _, _, _) => LabTestOrder
    case ClinicalProcedure(_, _, _, _) => ProcedureOrder
  }

  /** The document created for an unlinked row: a document of the row's
      kind, for the record's patient and naming the record. */
  function Build(h: Header, p: Prescription): (d: ServiceDoc)
    ensures DocKind(d) == KindOf(p)
    ensures d.patient == h.patient && d.inpatientRecord == h.name
  {
    match p
    case Drug(drugName, dosageForm, dosage) =>
      MedicationRequest(h.patient, h.name, drugName, h.primaryPractitioner, dosageForm, dosage)
    case LabTestCode(code) =>
      LabTest(h.patient, h.name, code, PatientSex(h.gender), "Draft")
    case ProcedureName(name) =>
      ClinicalProcedure(h.patient, h.name, name, "Draft")
  }

  /** A drug row becomes a Medication Request for the record's patient, from
      the record, with the row's drug name as medication item, its dosage
      form and dosage, and the record's primary practitioner. */
  lemma MedicationRequestFields(h: Header, drugName: string, dosageForm: string, dosage: string)
    ensures var d := Build(h, Drug(drugName, dosageForm, dosage));
            d.MedicationRequest? && d.patient == h.patient && d.inpatientRecord == h.name &&
            d.medicationItem == drugName && d.dosageForm == dosageForm && d.dosage == dosage &&
            d.practitioner == h.primaryPractitioner
  {
  }

  /** A lab test row becomes a draft Lab Test for the record's patient, from
      the record, with the row's code as template and the record's gender,
      or "Other" when it is unset, as patient sex. */
  lemma LabTestFields(h: Header, code: string)
    ensures var d := Build(h, LabTestCode(code));
            d.LabTest? && d.patient == h.patient && d.inpatientRecord == h.name &&
            d.template == code && d.status == "Draft" &&
            d.patientSex == (if h.gender == "" then "Other" else h.gender)
  {
  }

  /** A procedure row becomes a draft Clinical Procedure for the record's
      patient, from the record, with the row's procedure name as template. */
  lemma ClinicalProcedureFields(h: Header, name: string)
    ensures var d := Build(h, ProcedureName(name));
            d.ClinicalProcedure? && d.patient == h.patient && d.inpatientRecord == h.name &&
            d.procedureTemplate == name && d.status == "Draft"
  {
  }

  /** All rows of the table are prescriptions of kind `k`. */
  predicate OfKind(rows: seq<Row>, k: Kind)
  {
    forall i | 0 <= i < |rows| :: KindOf(rows[i].item) == k
  }

  /** An Inpatient Record with its three child tables; a table the record
      does not have is an empty one (see README). */
  class InpatientRecord {
    const header: Header
    const drugPrescription: array<Row>
    const labTestPrescription: array<Row>
    const procedurePrescription: array<Row>

    /** The three child tables are distinct objects. */
    predicate TablesDistinct()
      reads this
    {
      drugPrescription != labTestPrescription &&
      drugPrescription != procedurePrescription &&
      labTestPrescription != procedurePrescription
    }

    /** Every child table holds prescriptions of its own kind. */
    predicate WellKinded()
      reads this, drugPrescription, labTestPrescription, procedurePrescription
    {
      OfKind(drugPrescription[..], Medication) &&
      OfKind(labTestPrescription[..], LabTestOrder) &&
      OfKind(procedurePrescription[..], ProcedureOrder)
    }

    constructor (header: Header, drug: array<Row>, lab: array<Row>, procedure: array<Row>)
      ensures this.header == header
      ensures drugPrescription == drug && labTestPrescription == lab && procedurePrescription == procedure
    {
      this.header := header;
      drugPrescription := drug;
      labTestPrescription := lab;
      procedurePrescription := procedure;
    }
  }
}
