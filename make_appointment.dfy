/**
 * MakeAppointment (DBproject.java lines 514-727): find or add the patient,
 * list the chosen doctor's bookable appointments, let the operator pick one
 * by its ordinal and advance its status. Console answers arrive as
 * already-parsed values; the SQL of the two queries is the database's
 * business, so their results arrive as cursors.
 */
module MakeAppointment {
  import opened Wrappers
  import opened JavaString
  import opened Validation
  import opened QueryExecutor
  import opened AppointmentStatus
  import opened ClinicStore

  /**
   * Columns of the bookable-appointment query (line 645): doctor_ID, name,
   * appnt_ID, adate, time_slot, status, hospital name, hospital_ID.
   */
  const BookableColumns: nat := 8
  const ApptIdColumn: nat := 2
  const StatusColumn: nat := 5
  const HospitalColumn: nat := 6

  /** The statuses the bookable-appointment query keeps (line 651). */
  const BookableStatuses: set<string> := {"AC", "AV", "WL"}

  /** One line the operator types at the ordinal prompt (line 678). */
  datatype OrdinalInput = NotAnInteger | Ordinal(n: int)

  /** What the bookable-appointment query gave: it threw, or it returned a cursor. */
  datatype Listing = ListingFailed | Listing(cursor: seq<Row>)

  /** One pass of the doctor prompt (lines 634-723). */
  datatype DoctorAttempt = DoctorAttempt(
    doctorId: int,
    listing: Listing,
    ordinals: seq<OrdinalInput>,
    updateFault: bool)

  /** The answers to the new-patient form (lines 571-613). */
  datatype PatientForm = PatientForm(id: int, name: string, genders: seq<string>, age: int, address: string)

  /** Everything one call reads from the operator and from the failures of the store. */
  datatype Session = Session(
    patientId: int,
    lookupFault: bool,
    confirmAnswers: seq<string>,
    addAnswers: seq<string>,
    form: PatientForm,
    insertFault: bool,
    attempts: seq<DoctorAttempt>)

  /** How a call ends, with what it reports to the operator. */
  datatype Outcome =
    | Declined                                                            // no patient to book for (line 628)
    | NoAppointments(doctorId: int)                                       // lines 658-661
    | Booked(hospital: string, patientId: int, apptId: string, status: string)
    | UpdateFailed(apptId: string)                                        // lines 701-703, 715-717
    | NotBookable(apptId: string)                                         // neither branch taken (line 718)
    | InputExhausted                                                      // the operator's answers ran out

  /** Every listing the flow may see has the query's eight columns. */
  ghost predicate WellFormed(attempts: seq<DoctorAttempt>)
  {
    forall k :: 0 <= k < |attempts| && attempts[k].listing.Listing? ==>
      Rectangular(attempts[k].listing.cursor, BookableColumns)
  }

  // ---------------------------------------------------------------------
  // Patient onboarding (lines 540-632)
  // ---------------------------------------------------------------------

  datatype Onboarding = Proceed(patientId: int, insert: Option<Patient>) | Halt(outcome: Outcome)

  /** The row inserted for a new patient: number_of_appts is always 0 (line 616). */
  function NewPatient(form: PatientForm, gender: string): Patient
  {
    Patient(form.id, form.name, gender, form.age, form.address, 0)
  }

  /**
   * The onboarding decision. `found` says whether the patient lookup
   * returned a row. A lookup that throws skips onboarding (line 630);
   * otherwise a found patient is confirmed with Y, and when nothing was found
   * or the answer was N, the operator either adds a patient or, with N,
   * ends the call.
   */
  function Onboard(found: bool, s: Session): Onboarding
  {
    if s.lookupFault then Proceed(s.patientId, None)
    else
      var confirm := if found then FirstValid(s.confirmAnswers, IsYesNo) else None;
      if found && confirm.None? then Halt(InputExhausted)
      else if found && s.confirmAnswers[confirm.value] == "Y" then Proceed(s.patientId, None)
      else match FirstValid(s.addAnswers, IsYesNo)
        case None => Halt(InputExhausted)
        case Some(k) =>
          if s.addAnswers[k] == "Y" then
            match FirstValid(s.form.genders, IsGender)
            case None => Halt(InputExhausted)
            case Some(g) => Proceed(s.form.id, Some(NewPatient(s.form, s.form.genders[g])))
          else Halt(Declined)
  }

  function InsertOf(ob: Onboarding): seq<Statement>
  {
    if ob.Proceed? && ob.insert.Some? then [InsertPatient(ob.insert.value)] else []
  }

  /** The Patient table after onboarding: the insert lands only if the store accepts it. */
  function PatientsAfter(patients: map<int, Patient>, ob: Onboarding, fault: bool): map<int, Patient>
  {
    if ob.Proceed? && ob.insert.Some? && Accepts(patients, InsertPatient(ob.insert.value), fault)
    then ApplyToPatients(patients, InsertPatient(ob.insert.value))
    else patients
  }

  method OnboardPatient(db: Store, s: Session) returns (ob: Onboarding)
    modifies db
    ensures ob == Onboard(old(s.patientId in db.patients), s)
    ensures db.log == old(db.log) + InsertOf(ob)
    ensures db.patients == PatientsAfter(old(db.patients), ob, s.insertFault)
    ensures db.appointments == old(db.appointments)
  {
    if s.lookupFault {
      return Proceed(s.patientId, None);
    }
    var rows := db.FindPatient(s.patientId);
    var yn := "Y";
    if |rows| != 0 {
      var k := Prompt(s.confirmAnswers, IsYesNo);
      if k.None? {
        return Halt(InputExhausted);
      }
      yn := s.confirmAnswers[k.value];
    }
    if |rows| == 0 || yn == "N" {
      var k := Prompt(s.addAnswers, IsYesNo);
      if k.None? {
        return Halt(InputExhausted);
      }
      yn := s.addAnswers[k.value];
      if yn == "Y" {
        var g := Prompt(s.form.genders, IsGender);
        if g.None? {
          return Halt(InputExhausted);
        }
        var p := NewPatient(s.form, s.form.genders[g.value]);
        // A rejected insert is reported (line 626) and the flow goes on to the doctor prompt.
        var _ := db.ExecuteUpdate(InsertPatient(p), s.insertFault);
        return Proceed(s.form.id, Some(p));
      } else {
        return Halt(Declined);
      }
    }
    return Proceed(s.patientId, None);
  }

  // ---------------------------------------------------------------------
  // Choosing the appointment (lines 633-687, 721-725)
  // ---------------------------------------------------------------------

  /**
   * The ordinal check at line 679: any integer up to the list's length is
   * taken; there is no lower bound.
   */
  function AcceptsOrdinal(size: nat): OrdinalInput -> bool
  {
    (x: OrdinalInput) => x.Ordinal? && x.n <= size
  }

  lemma OrdinalAcceptedIffAtMostSize(n: int, size: nat)
    ensures AcceptsOrdinal(size)(Ordinal(n)) <==> n <= size
    ensures !AcceptsOrdinal(size)(NotAnInteger)
  {
  }

  datatype Selection =
    | Exhausted
    | Empty(doctorId: int)
    | Chosen(attempt: nat, ordinal: int, row: Row, updateFault: bool)

  /**
   * The doctor loop from attempt `i` on. A listing query that throws, or an
   * ordinal <= 0 (whose `get(tmp-1)` at line 689 throws), is caught at
   * line 721 and restarts the doctor prompt; an empty listing ends the call.
   */
  function SelectFrom(attempts: seq<DoctorAttempt>, i: nat): (sel: Selection)
    requires i <= |attempts|
    ensures sel.Chosen? ==>
      && i <= sel.attempt < |attempts|
      && attempts[sel.attempt].listing.Listing?
      && 1 <= sel.ordinal <= |attempts[sel.attempt].listing.cursor|
      && sel.row == attempts[sel.attempt].listing.cursor[sel.ordinal - 1]
      && sel.updateFault == attempts[sel.attempt].updateFault
    ensures sel.Empty? ==> exists k :: i <= k < |attempts| && attempts[k].doctorId == sel.doctorId && attempts[k].listing == Listing([])
    decreases |attempts| - i
  {
    if i == |attempts| then Exhausted
    else
      var a := attempts[i];
      match a.listing
      case ListingFailed => SelectFrom(attempts, i + 1)
      case Listing(cursor) =>
        if cursor == [] then Empty(a.doctorId)
        else match FirstValid(a.ordinals, AcceptsOrdinal(|cursor|))
          case None => Exhausted
          case Some(k) =>
            var n := a.ordinals[k].n;
            if n <= 0 then SelectFrom(attempts, i + 1)
            else Chosen(i, n, cursor[n - 1], a.updateFault)
  }

  method ChooseAppointment(attempts: seq<DoctorAttempt>) returns (sel: Selection)
    requires WellFormed(attempts)
    ensures sel == SelectFrom(attempts, 0)
  {
    var i := 0;
    while i < |attempts|
      invariant 0 <= i <= |attempts|
      invariant SelectFrom(attempts, i) == SelectFrom(attempts, 0)
    {
      var a := attempts[i];
      if a.listing.ListingFailed? {
        i := i + 1;
        continue;
      }
      var rows := ExecuteQueryAndReturnResult(a.listing.cursor, BookableColumns);
      if |rows| == 0 {
        return Empty(a.doctorId);
      }
      var k := Prompt(a.ordinals, AcceptsOrdinal(|rows|));
      if k.None? {
        return Exhausted;
      }
      var tmp := a.ordinals[k.value].n;
      if tmp <= 0 {
        i := i + 1;
        continue;
      }
      return Chosen(i, tmp, rows[tmp - 1], a.updateFault);
    }
    return Exhausted;
  }

  // ---------------------------------------------------------------------
  // The booking step (lines 688-720)
  // ---------------------------------------------------------------------

  /** The one UPDATE the chosen row calls for, if any. */
  function BookingUpdate(row: Row): (u: Option<Statement>)
    requires |row| == BookableColumns
  {
    match NextStatus(row[StatusColumn])
    case None => None
    case Some(status) => Some(UpdateStatus(row[ApptIdColumn], status))
  }

  /** The label printed after a successful update (lines 699, 713). */
  function StatusLabel(status: string): string
  {
    if status == "AC" then "Active" else "WaitListed"
  }

  function BookingOutcome(row: Row, fault: bool, patientId: int): Outcome
    requires |row| == BookableColumns
  {
    match NextStatus(row[StatusColumn])
    case None => NotBookable(row[ApptIdColumn])
    case Some(status) =>
      if fault then UpdateFailed(row[ApptIdColumn])
      else Booked(row[HospitalColumn], patientId, row[ApptIdColumn], StatusLabel(status))
  }

  function OptionToSeq<T>(o: Option<T>): seq<T>
  {
    if o.Some? then [o.value] else []
  }

  /**
   * Lines 688-720: one pass, at most one UPDATE; a failed update is
   * reported and not retried.
   */
  method BookSelected(db: Store, row: Row, fault: bool, patientId: int) returns (outcome: Outcome)
    requires |row| == BookableColumns
    modifies db
    ensures outcome == BookingOutcome(row, fault, patientId)
    ensures db.log == old(db.log) + OptionToSeq(BookingUpdate(row))
    ensures db.appointments ==
      if outcome.Booked? then ApplyToAppointments(old(db.appointments), BookingUpdate(row).value)
      else old(db.appointments)
    ensures db.patients == old(db.patients)
  {
    var status := row[StatusColumn];
    if Contains(status, "AV") {
      var ok := db.ExecuteUpdate(UpdateStatus(row[ApptIdColumn], "AC"), fault);
      if ok {
        return Booked(row[HospitalColumn], patientId, row[ApptIdColumn], "Active");
      }
      return UpdateFailed(row[ApptIdColumn]);
    } else if Contains(status, "AC") {
      var ok := db.ExecuteUpdate(UpdateStatus(row[ApptIdColumn], "WL"), fault);
      if ok {
        return Booked(row[HospitalColumn], patientId, row[ApptIdColumn], "WaitListed");
      }
      return UpdateFailed(row[ApptIdColumn]);
    }
    return NotBookable(row[ApptIdColumn]);
  }

  // ---------------------------------------------------------------------
  // The whole call
  // ---------------------------------------------------------------------

  /** What one call decides: how it ends and which statements it sends. */
  datatype Effect = Effect(outcome: Outcome, insert: Option<Patient>, update: Option<Statement>)

  function Decide(found: bool, s: Session): (e: Effect)
    requires WellFormed(s.attempts)
  {
    match Onboard(found, s)
    case Halt(o) => Effect(o, None, None)
    case Proceed(pid, insert) =>
      match SelectFrom(s.attempts, 0)
      case Exhausted => Effect(InputExhausted, insert, None)
      case Empty(d) => Effect(NoAppointments(d), insert, None)
      case Chosen(k, _, row, fault) =>
        assert row in s.attempts[k].listing.cursor;
        Effect(BookingOutcome(row, fault, pid), insert, BookingUpdate(row))
  }

  /** The statements sent, in order: the patient insert, then the status update. */
  function Issued(e: Effect): seq<Statement>
  {
    (if e.insert.Some? then [InsertPatient(e.insert.value)] else []) + OptionToSeq(e.update)
  }

  function AppointmentsAfter(table: map<string, string>, e: Effect): map<string, string>
  {
    if e.outcome.Booked? && e.update.Some? then ApplyToAppointments(table, e.update.value) else table
  }

  method MakeAppointment(db: Store, s: Session) returns (outcome: Outcome)
    requires WellFormed(s.attempts)
    modifies db
    ensures outcome == Decide(old(s.patientId in db.patients), s).outcome
    ensures db.log == old(db.log) + Issued(Decide(old(s.patientId in db.patients), s))
    ensures db.patients == PatientsAfter(old(db.patients), Onboard(old(s.patientId in db.patients), s), s.insertFault)
    ensures db.appointments == AppointmentsAfter(old(db.appointments), Decide(old(s.patientId in db.patients), s))
  {
    var ob := OnboardPatient(db, s);
    if ob.Halt? {
      return ob.outcome;
    }
    var sel := ChooseAppointment(s.attempts);
    match sel
    case Exhausted =>
      outcome := InputExhausted;
    case Empty(d) =>
      outcome := NoAppointments(d);
    case Chosen(k, _, row, fault) =>
      assert row in s.attempts[k].listing.cursor;
      outcome := BookSelected(db, row, fault, ob.patientId);
  }

  // ---------------------------------------------------------------------
  // Properties of the call
  // ---------------------------------------------------------------------

  /** The add-patient question is asked: nothing was found, or the found patient was refused with N. */
  ghost predicate AsksToAddPatient(found: bool, s: Session)
  {
    && !s.lookupFault
    && (!found || (FirstValid(s.confirmAnswers, IsYesNo).Some?
                   && s.confirmAnswers[FirstValid(s.confirmAnswers, IsYesNo).value] == "N"))
  }

  /** A patient added during booking is a fresh row with a valid gender and no appointments. */
  lemma NewPatientHasNoAppointments(found: bool, s: Session)
    requires Onboard(found, s).Proceed? && Onboard(found, s).insert.Some?
    ensures var p := Onboard(found, s).insert.value;
      && p.appointments == 0
      && IsGender(p.gender)
      && p.id == s.form.id
      && Onboard(found, s).patientId == p.id
  {
  }

  /** Confirming a found patient with Y books for that patient and inserts nothing. */
  lemma ConfirmedPatientIsNotReinserted(s: Session)
    requires !s.lookupFault
    requires FirstValid(s.confirmAnswers, IsYesNo).Some?
    requires s.confirmAnswers[FirstValid(s.confirmAnswers, IsYesNo).value] == "Y"
    ensures Onboard(true, s) == Proceed(s.patientId, None)
    ensures InsertOf(Onboard(true, s)) == []
  {
  }

  /**
   * The call ends without booking exactly when the add-patient question is
   * asked and answered N.
   */
  lemma DeclinedIff(found: bool, s: Session)
    ensures Onboard(found, s) == Halt(Declined) <==>
      && AsksToAddPatient(found, s)
      && FirstValid(s.addAnswers, IsYesNo).Some?
      && s.addAnswers[FirstValid(s.addAnswers, IsYesNo).value] == "N"
  {
    var add := FirstValid(s.addAnswers, IsYesNo);
    if add.Some? {
      assert IsYesNo(s.addAnswers[add.value]);
    }
  }

  /** Declining sends no statement at all and leaves both tables as they were. */
  lemma DeclinedSendsNothing(found: bool, s: Session, table: map<string, string>, patients: map<int, Patient>)
    requires WellFormed(s.attempts)
    requires Decide(found, s).outcome == Declined
    ensures Issued(Decide(found, s)) == []
    ensures AppointmentsAfter(table, Decide(found, s)) == table
    ensures PatientsAfter(patients, Onboard(found, s), s.insertFault) == patients
  {
  }

  function CountUpdates(stmts: seq<Statement>): nat
  {
    if stmts == [] then 0
    else (if stmts[0].UpdateStatus? then 1 else 0) + CountUpdates(stmts[1..])
  }

  /**
   * One call sends at most one status UPDATE and at most one patient
   * INSERT, the insert first; the update, if any, targets the chosen row.
   */
  lemma {:induction false} AtMostOneStatusUpdate(found: bool, s: Session)
    requires WellFormed(s.attempts)
    ensures CountUpdates(Issued(Decide(found, s))) <= 1
    ensures |Issued(Decide(found, s))| <= 2
    ensures Decide(found, s).update.Some? ==>
      var sel := SelectFrom(s.attempts, 0);
      sel.Chosen? && Decide(found, s).update.value.UpdateStatus? && Decide(found, s).update.value.apptId == sel.row[ApptIdColumn]
  {
    var e := Decide(found, s);
    var ins: seq<Statement> := if e.insert.Some? then [InsertPatient(e.insert.value)] else [];
    assert CountUpdates(ins) == 0 by {
      if ins != [] {
        assert ins[1..] == [];
      }
    }
    CountUpdatesAppend(ins, OptionToSeq(e.update));
    if e.update.Some? {
      var sel := SelectFrom(s.attempts, 0);
      assert sel.Chosen?;
      assert sel.row in s.attempts[sel.attempt].listing.cursor;
      assert [e.update.value][1..] == [];
    }
  }

  lemma {:induction false} CountUpdatesAppend(a: seq<Statement>, b: seq<Statement>)
    ensures CountUpdates(a + b) == CountUpdates(a) + CountUpdates(b)
    decreases |a|
  {
    if a != [] {
      assert (a + b)[1..] == a[1..] + b;
      CountUpdatesAppend(a[1..], b);
    } else {
      assert a + b == b;
    }
  }

  /** A doctor with no bookable appointment ends the call with no status update. */
  lemma NoAppointmentsSendsNoUpdate(found: bool, s: Session, table: map<string, string>)
    requires WellFormed(s.attempts)
    requires Decide(found, s).outcome.NoAppointments?
    ensures Decide(found, s).update.None?
    ensures AppointmentsAfter(table, Decide(found, s)) == table
    ensures exists k :: (0 <= k < |s.attempts| && s.attempts[k].listing == Listing([]) &&
                         s.attempts[k].doctorId == Decide(found, s).outcome.doctorId)
  {
  }

  /**
   * The three ways one doctor attempt ends the loop or passes it on: a
   * listing that throws restarts the doctor prompt, an empty listing ends the
   * call naming that doctor, and a first accepted ordinal n >= 1 books row n-1.
   */
  lemma SelectionSteps(attempts: seq<DoctorAttempt>, i: nat)
    requires i < |attempts|
    ensures attempts[i].listing == ListingFailed ==> SelectFrom(attempts, i) == SelectFrom(attempts, i + 1)
    ensures attempts[i].listing == Listing([]) ==> SelectFrom(attempts, i) == Empty(attempts[i].doctorId)
    ensures attempts[i].listing.Listing? && attempts[i].listing.cursor != [] ==>
      var cursor := attempts[i].listing.cursor;
      match FirstValid(attempts[i].ordinals, AcceptsOrdinal(|cursor|))
      case None => SelectFrom(attempts, i) == Exhausted
      case Some(k) =>
        var n := attempts[i].ordinals[k].n;
        && (n >= 1 ==> n <= |cursor| && SelectFrom(attempts, i) == Chosen(i, n, cursor[n - 1], attempts[i].updateFault))
        && (n <= 0 ==> SelectFrom(attempts, i) == SelectFrom(attempts, i + 1))
  {
  }

  /**
   * Once every listing before attempt `i` has thrown, an empty listing at `i`
   * ends the call with that doctor reported and no UPDATE sent; the only
   * statement sent is the onboarding insert, if any.
   */
  lemma {:induction false} EmptyListingEndsWithoutUpdate(found: bool, s: Session, i: nat, table: map<string, string>)
    requires WellFormed(s.attempts)
    requires Onboard(found, s).Proceed?
    requires i < |s.attempts|
    requires forall k :: 0 <= k < i ==> s.attempts[k].listing == ListingFailed
    requires s.attempts[i].listing == Listing([])
    ensures Decide(found, s).outcome == NoAppointments(s.attempts[i].doctorId)
    ensures Decide(found, s).update.None?
    ensures Issued(Decide(found, s)) == InsertOf(Onboard(found, s))
    ensures AppointmentsAfter(table, Decide(found, s)) == table
  {
    FailedListingsAreSkipped(s.attempts, 0, i);
  }

  lemma {:induction false} FailedListingsAreSkipped(attempts: seq<DoctorAttempt>, j: nat, i: nat)
    requires j <= i <= |attempts|
    requires forall k :: j <= k < i ==> attempts[k].listing == ListingFailed
    ensures SelectFrom(attempts, j) == SelectFrom(attempts, i)
    decreases i - j
  {
    if j < i {
      FailedListingsAreSkipped(attempts, j + 1, i);
    }
  }

  /**
   * An accepted ordinal <= 0 books nothing from this listing: the doctor
   * prompt starts over with the next attempt.
   */
  lemma NonPositiveOrdinalRestartsDoctorPrompt(attempts: seq<DoctorAttempt>, i: nat)
    requires i < |attempts|
    requires attempts[i].listing.Listing? && attempts[i].listing.cursor != []
    requires FirstValid(attempts[i].ordinals, AcceptsOrdinal(|attempts[i].listing.cursor|)).Some?
    requires attempts[i].ordinals[FirstValid(attempts[i].ordinals, AcceptsOrdinal(|attempts[i].listing.cursor|)).value].n <= 0
    ensures SelectFrom(attempts, i) == SelectFrom(attempts, i + 1)
  {
  }

  /**
   * The listings reflect the Appointment table and keep only the statuses
   * of the query's filter at line 651.
   */
  ghost predicate ListingsReflect(table: map<string, string>, attempts: seq<DoctorAttempt>)
  {
    forall k, r :: 0 <= k < |attempts| && attempts[k].listing.Listing? && r in attempts[k].listing.cursor ==>
      && |r| == BookableColumns
      && r[ApptIdColumn] in table
      && table[r[ApptIdColumn]] == r[StatusColumn]
      && r[StatusColumn] in BookableStatuses
  }

  /**
   * When the listings reflect the table, the status written is the state
   * machine's successor of the status the appointment held (Available becomes
   * Active, Active becomes Waitlisted), and a chosen appointment is left alone
   * only when it is already Waitlisted.
   */
  lemma BookingAdvancesStatus(table: map<string, string>, found: bool, s: Session)
    requires WellFormed(s.attempts)
    requires ListingsReflect(table, s.attempts)
    ensures Decide(found, s).outcome.NotBookable? ==>
      var id := Decide(found, s).outcome.apptId;
      id in table && table[id] == "WL"
    ensures Decide(found, s).update.Some? ==>
      var u := Decide(found, s).update.value;
      && u.UpdateStatus?
      && u.apptId in table
      && Decode(table[u.apptId]).Some?
      && Book(Decode(table[u.apptId]).value) == Decode(u.status)
      && Decode(u.status).Some?
  {
    var sel := SelectFrom(s.attempts, 0);
    if Onboard(found, s).Proceed? && sel.Chosen? {
      var row := sel.row;
      assert row in s.attempts[sel.attempt].listing.cursor;
      var st := Decode(row[StatusColumn]).value;
      NextStatusAgreesWithBook(st);
      if Book(st).Some? {
        DecodeCode(Book(st).value);
      }
    }
  }

  /**
   * Appointment 100 is available; the only bookable row is chosen with
   * ordinal 1; it becomes Active.
   */
  lemma BookingAvailableAppointment100()
    ensures var row := ["7", "Smith", "100", "6/1/2026", "9:00-10:00", "AV", "General", "1"];
      var s := Session(5, false, ["Y"], [], PatientForm(0, "", [], 0, ""), false,
                       [DoctorAttempt(7, Listing([row]), [Ordinal(1)], false)]);
      && WellFormed(s.attempts)
      && Decide(true, s).outcome == Booked("General", 5, "100", "Active")
      && Issued(Decide(true, s)) == [UpdateStatus("100", "AC")]
      && AppointmentsAfter(map["100" := "AV"], Decide(true, s)) == map["100" := "AC"]
  {
    var row := ["7", "Smith", "100", "6/1/2026", "9:00-10:00", "AV", "General", "1"];
    assert StartsWith(row[StatusColumn], "AV");
  }

  /** Doctor 42 has no bookable appointment: the call reports it and sends nothing. */
  lemma DoctorWithNoAppointments42()
    ensures var s := Session(5, false, ["Y"], [], PatientForm(0, "", [], 0, ""), false,
                             [DoctorAttempt(42, Listing([]), [], false)]);
      && WellFormed(s.attempts)
      && Decide(true, s).outcome == NoAppointments(42)
      && Issued(Decide(true, s)) == []
  {
  }
}
