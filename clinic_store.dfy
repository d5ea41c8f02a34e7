/**
 * The part of the clinic database the booking flow reads and writes: the
 * Appointment table's status column, the Patient table, and the statements
 * sent through executeUpdate (DBproject.java lines 66-75).
 */
module ClinicStore {

  /** A Patient row: patient_ID, name, gtype, age, address, number_of_appts. */
  datatype Patient = Patient(id: int, name: string, gender: string, age: int, address: string, appointments: int)

  /** The two mutating statements the booking flow sends, as typed values. */
  datatype Statement =
    | UpdateStatus(apptId: string, status: string)   // UPDATE Appointment SET status = ... WHERE appnt_ID = ...
    | InsertPatient(patient: Patient)                 // INSERT INTO Patient (...) VALUES (...)

  /**
   * Whether the store accepts the statement: `fault` stands for every
   * rejection the model does not derive (lost connection, other
   * constraints); an insert also fails on a patient_ID already present.
   */
  predicate Accepts(patients: map<int, Patient>, st: Statement, fault: bool)
  {
    !fault && (st.InsertPatient? ==> st.patient.id !in patients)
  }

  /** An accepted UPDATE rewrites the status of the row with that id, if there is one. */
  function ApplyToAppointments(table: map<string, string>, st: Statement): (t: map<string, string>)
    ensures t.Keys == table.Keys
  {
    match st
    case UpdateStatus(id, status) => if id in table then table[id := status] else table
    case InsertPatient(_) => table
  }

  function ApplyToPatients(patients: map<int, Patient>, st: Statement): map<int, Patient>
  {
    match st
    case UpdateStatus(_, _) => patients
    case InsertPatient(p) => patients[p.id := p]
  }

  /** A status update touches the one row it names and no other. */
  lemma UpdateTouchesOneRow(table: map<string, string>, id: string, status: string)
    ensures var t := ApplyToAppointments(table, UpdateStatus(id, status));
      && t.Keys == table.Keys
      && (id in table ==> t[id] == status)
      && forall other :: other in table && other != id ==> t[other] == table[other]
  {
  }

  class Store {
    var appointments: map<string, string>
    var patients: map<int, Patient>
    /** Every statement sent through executeUpdate, accepted or not, in order. */
    var log: seq<Statement>

    constructor (appointments: map<string, string>, patients: map<int, Patient>)
      ensures this.appointments == appointments && this.patients == patients && log == []
    {
      this.appointments := appointments;
      this.patients := patients;
      log := [];
    }

    /** `SELECT * FROM Patient WHERE patient_ID = id`: at most one row, since the id is the key. */
    function FindPatient(id: int): (rows: seq<Patient>)
      reads this
      ensures |rows| <= 1
      ensures rows != [] <==> id in patients
      ensures forall k :: 0 <= k < |rows| ==> rows[k] == patients[id]
    {
      if id in patients then [patients[id]] else []
    }

    /** executeUpdate: sends the statement once; it takes effect only if the store accepts it. */
    method ExecuteUpdate(st: Statement, fault: bool) returns (ok: bool)
      modifies this
      ensures log == old(log) + [st]
      ensures ok == Accepts(old(patients), st, fault)
      ensures appointments == if ok then ApplyToAppointments(old(appointments), st) else old(appointments)
      ensures patients == if ok then ApplyToPatients(old(patients), st) else old(patients)
    {
      log := log + [st];
      ok := Accepts(patients, st, fault);
      if ok {
        appointments := ApplyToAppointments(appointments, st);
        patients := ApplyToPatients(patients, st);
      }
    }
  }
}
