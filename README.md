# Clinic appointment booking — a Dafny model

This project models the decision logic of `DBproject`, a console front end
over a PostgreSQL clinic database. The model covers four parts:

- **Make an Appointment** (menu item 4). The operator names a patient, who
  is confirmed or added. The operator then names a doctor and picks one of
  the doctor's bookable appointments by its position in the list. The
  appointment's status then moves one step along the booking path: an
  available slot (`AV`) becomes active (`AC`), and an active one becomes
  waitlisted (`WL`).
- **The three query helpers**. `executeQueryAndReturnResult` and
  `executeQueryAndPrintResult` walk the whole result cursor; `executeQuery`
  reads at most its first row.
- **`executeUpdate`**, which sends one mutating statement.
- **The input validators** for status codes, gender and yes/no answers.

Modules, leaves first:

- `Wrappers`: `Option`.
- `JavaString`: Java's `String.contains`. The booking step tests status text with it.
- `Validation`: the status, gender and Y/N validators, and the re-prompt loop (`Prompt`) that each sits in.
- `QueryExecutor`: the query helpers, taking the driver's result cursor as a sequence of rows.
- `AppointmentStatus`: the four status codes, the state machine on them, and the substring-based transition `NextStatus`.
- `ClinicStore`: the store, as a class.
  - `appointments` maps `appnt_ID`, as the listing query renders it, to the status code.
  - `patients` is the Patient table.
  - `log` holds every statement sent through `executeUpdate`.
- `MakeAppointment`: the booking call, split the way the source runs it:
  - onboarding (`OnboardPatient`, proved against `Onboard`);
  - the doctor and ordinal loop (`ChooseAppointment`, proved against `SelectFrom`);
  - the booking step (`BookSelected`, proved against `BookingOutcome` and `BookingUpdate`);
  - the whole call (`MakeAppointment`, proved against `Decide`).

The operator's console answers arrive as already-parsed values in a
`Session`. The driver's failures arrive as flags in the `Session`:
`lookupFault`, `insertFault`, `ListingFailed` and `updateFault`. The result
of the bookable-appointment SQL query arrives as a cursor of eight-column
rows.

The booking rules one would expect are: the status is compared for
equality with a code; an ordinal must lie in 1..n and anything else is asked
for again; after a failed update the same list is offered again; a booking
links the patient to the appointment. The code departs from these, and the
model follows the code:

- The transition tests `contains("AV")`, then `contains("AC")`. It does not
  compare the status for equality. `NextStatusAgreesWithBook` shows the two
  readings agree on the four stored codes.
- An ordinal is accepted when it is at most the list length. There is no
  lower bound (line 679). An ordinal of 0 or less makes `result.get(tmp-1)`
  throw at line 689. The catch at line 721 then restarts the doctor prompt.
  So such an ordinal is not asked for again at the ordinal prompt.
- The booking step runs once (line 720). A failed update is reported, and
  the call ends without retrying it or offering the list again.
- A waitlisted or past appointment is left unchanged with no message
  (`NotBookable`).
- A successful booking records no link between patient and appointment:
  no `has_appointment` row is written and `number_of_appts` is not
  incremented. The patient id is only printed (lines 697, 711), so in the
  model it appears only in the `Booked` outcome.
- Answering N to "add a new patient" ends the call (line 628). It does not
  go on to the patient form.
- Line 704 lacks a closing parenthesis (`contains("AC"){`), so the file as
  written does not compile. The model takes the evident intent: an
  `else if` on `contains("AC")`.

## Model

| member | source | states |
|---|---|---|
| JavaString.ContainsIffOccurs | code/java/src/DBproject.java:690-704 | `Contains` (the left-to-right scan of `String.contains`) holds exactly when the text occurs at some position |
| JavaString.ContainsSameLength | code/java/src/DBproject.java:690-704 | between strings of equal length, `contains` is equality, so on two-letter codes the substring tests are equality tests |
| Validation.IsStatusOption | code/java/src/DBproject.java:491 | no contract of its own (list membership in the four options); its meaning is stated by `StatusOptionsAreTheFourCodes` and `ValidatorsAreCaseSensitive` |
| Validation.IsGender | code/java/src/DBproject.java:591 | no contract of its own (`equals("M")` or `equals("F")`); `ValidatorsAreCaseSensitive` states what it accepts, and `Prompt` is the loop around it |
| Validation.IsYesNo | code/java/src/DBproject.java:557 | no contract of its own (`equals("Y")` or `equals("N")`); `ValidatorsAreCaseSensitive`, `DeclinedIff` and `ConfirmedPatientIsNotReinserted` state its role |
| Validation.StatusOptionsAreTheFourCodes | code/java/src/DBproject.java:442-446 | a status is accepted iff it is exactly PA, AC, AV or WL (only unfolds the definition) |
| Validation.ValidatorsAreCaseSensitive | code/java/src/DBproject.java:557 | for every answer: an accepted Y/N or gender answer is one upper-case letter and an accepted status two upper-case letters, so lower-case answers and long forms are refused (only unfolds the definitions) |
| Validation.FirstValid | code/java/src/DBproject.java:379-391 | the accepted answer is the first valid one, every earlier answer was invalid, and none is accepted when no answer is valid |
| Validation.Prompt | code/java/src/DBproject.java:587-599 | the re-prompt loop stops at exactly the answer `FirstValid` names |
| QueryExecutor.ReadRecord | code/java/src/DBproject.java:148-150 | a record holds exactly `numCol` values, value i-1 being `getString(i)`, so it equals the row |
| QueryExecutor.ExecuteQueryAndReturnResult | code/java/src/DBproject.java:129-155 | one record per cursor row, in cursor order, each with exactly `numCol` values in column order 1..numCol |
| QueryExecutor.ExecuteQueryAndPrintResult | code/java/src/DBproject.java:86-118 | returns the total row count; the column header is printed once, before the first row, and only when there is one |
| QueryExecutor.ExecuteQuery | code/java/src/DBproject.java:165-180 | returns 0 or 1, and 1 exactly when the query has a row (an existence test) |
| AppointmentStatus.Code | code/java/src/DBproject.java:494 | every state is stored as one of the accepted status codes |
| AppointmentStatus.Decode | code/java/src/DBproject.java:494 | decoding succeeds exactly on the four accepted codes and inverts `Code` |
| AppointmentStatus.DecodeCode | code/java/src/DBproject.java:494 | `Decode(Code(st)) == Some(st)` for every state |
| AppointmentStatus.Book | code/java/src/DBproject.java:690-718 | only Available and Active can be booked; each moves strictly forward along Available -> Active -> Waitlisted and never to Past |
| AppointmentStatus.NextStatus | code/java/src/DBproject.java:690-704 | no contract of its own (the transition decision: `contains("AV")` then `contains("AC")`); `NextStatusCases`, `NextStatusAgreesWithBook` and `NextStatusOfCodeAdvances` carry its properties |
| AppointmentStatus.NextStatusCases | code/java/src/DBproject.java:690-718 | AC is written iff the status contains "AV"; WL iff it contains "AC" but not "AV"; nothing iff it contains neither (AV wins an overlap) (only unfolds the definition) |
| AppointmentStatus.NextStatusAgreesWithBook | code/java/src/DBproject.java:690-706 | on every stored code the substring transition equals the state machine: AV->AC, AC->WL, WL and PA unchanged |
| AppointmentStatus.NextStatusOfCodeAdvances | code/java/src/DBproject.java:690-706 | for a stored code, an update happens iff the code is AV or AC, and writes a stored code further along the path, never PA |
| ClinicStore.UpdateTouchesOneRow | code/java/src/DBproject.java:691-692 | the status UPDATE changes the row with that appnt_ID and no other, and adds or drops no row |
| ClinicStore.Store.FindPatient | code/java/src/DBproject.java:541-543 | the patient lookup returns at most one row, the patient with that id, and a row exactly when the id exists |
| ClinicStore.Store.ExecuteUpdate | code/java/src/DBproject.java:66-75 | the statement is sent once and logged; it takes effect only when the store accepts it, otherwise nothing changes |
| MakeAppointment.OnboardPatient | code/java/src/DBproject.java:540-632 | the onboarding decision is `Onboard`; at most the one new-patient INSERT is sent; appointments are untouched |
| MakeAppointment.NewPatientHasNoAppointments | code/java/src/DBproject.java:584-616 | a patient added during booking has number_of_appts 0, a gender of M or F, the form's id, and becomes the booking patient |
| MakeAppointment.ConfirmedPatientIsNotReinserted | code/java/src/DBproject.java:554-560 | confirming a found patient with Y books for that patient and inserts nothing |
| MakeAppointment.DeclinedIff | code/java/src/DBproject.java:560-628 | the call ends without booking iff the add-patient question is asked (nothing found, or the found patient refused with N) and answered N |
| MakeAppointment.DeclinedSendsNothing | code/java/src/DBproject.java:628 | a declined call sends no statement and changes neither table |
| MakeAppointment.AcceptsOrdinal | code/java/src/DBproject.java:679 | no contract of its own (`tmp <= result.size()` on an integer); `OrdinalAcceptedIffAtMostSize` states it |
| MakeAppointment.OrdinalAcceptedIffAtMostSize | code/java/src/DBproject.java:677-686 | an ordinal is accepted iff it is at most the list length; a non-integer is never accepted (only unfolds the definition) |
| MakeAppointment.SelectFrom | code/java/src/DBproject.java:656-689 | a chosen appointment comes from a listing that returned rows, with an ordinal in 1..length picking row ordinal-1; an `Empty` result names a doctor whose listing was empty; which selection is made is stated by `SelectionSteps` |
| MakeAppointment.SelectionSteps | code/java/src/DBproject.java:656-723 | per attempt: a listing that throws passes on to the next attempt; an empty listing gives `Empty` for that doctor; a first accepted ordinal n >= 1 chooses row n-1 of that listing; n <= 0 passes on; no accepted ordinal is `Exhausted` |
| MakeAppointment.FailedListingsAreSkipped | code/java/src/DBproject.java:721-723 | a run of attempts whose listing query throws is skipped: the selection is that of the first attempt after them |
| MakeAppointment.NonPositiveOrdinalRestartsDoctorPrompt | code/java/src/DBproject.java:677-723 | an accepted ordinal <= 0 books nothing from that listing: the doctor prompt starts over |
| MakeAppointment.ChooseAppointment | code/java/src/DBproject.java:633-725 | the doctor/ordinal loop ends with exactly the selection `SelectFrom` describes |
| MakeAppointment.BookingUpdate | code/java/src/DBproject.java:690-706 | no contract of its own (the UPDATE the chosen row calls for); `BookSelected`, `AtMostOneStatusUpdate` and `BookingAdvancesStatus` carry its properties |
| MakeAppointment.BookingOutcome | code/java/src/DBproject.java:688-720 | no contract of its own (what the booking step reports); `BookSelected`, `BookingAdvancesStatus` and the two scenario lemmas carry its properties |
| MakeAppointment.BookSelected | code/java/src/DBproject.java:688-720 | one pass: AV sends one UPDATE to AC, else AC sends one UPDATE to WL, else nothing; the update targets column 2's appnt_ID; a failure is reported, not retried; patients unchanged |
| MakeAppointment.MakeAppointment | code/java/src/DBproject.java:514-727 | the whole call: its outcome, the statements it sends and both tables afterwards are those `Decide`, `PatientsAfter` and `AppointmentsAfter` give |
| MakeAppointment.AtMostOneStatusUpdate | code/java/src/DBproject.java:688-720 | a call sends at most one status UPDATE and at most two statements; an update targets the chosen row's appnt_ID |
| MakeAppointment.NoAppointmentsSendsNoUpdate | code/java/src/DBproject.java:657-661 | a call that ends `NoAppointments` sent no UPDATE, left the appointments unchanged, and some attempt for that doctor had an empty listing |
| MakeAppointment.EmptyListingEndsWithoutUpdate | code/java/src/DBproject.java:657-661 | once the patient step proceeds and every earlier listing query threw, an empty listing ends the call with `NoAppointments` for that doctor, no UPDATE, only the onboarding insert sent and the appointments unchanged |
| MakeAppointment.BookingAdvancesStatus | code/java/src/DBproject.java:651-718 | if the listings reflect the table, the written status is the state machine's successor of the held one, and a chosen appointment is left alone only when it is WL |
| MakeAppointment.BookingAvailableAppointment100 | code/java/src/DBproject.java:688-700 | appointment 100 with status AV, chosen by ordinal 1 from a one-row list, is reported Active and becomes AC through one UPDATE |
| MakeAppointment.DoctorWithNoAppointments42 | code/java/src/DBproject.java:657-661 | doctor 42 with an empty listing ends with `NoAppointments(42)` and no statement |

## Left out

- Connection setup, `DriverManager`, `cleanup`, `getCurrSeqVal` and driver loading in `main`: these are foreign library calls.
- The menu loop, `readChoice` and all console printing: these are I/O.
  - Prompts appear only as the answers they yield.
  - The integer re-prompts for patient, doctor and age are not modelled: those values arrive already parsed.
  - `executeQueryAndPrintResult` keeps its printed lines as cells, not text.
- Operator input is finite in the model. When the answers run out, the call ends with `InputExhausted`. The program would re-prompt forever at end of input.
- The SQL text is left out: joins, `GROUP BY`, `ORDER BY`, and the status filter of the listing query. The database evaluates these.
  - The listing arrives as a cursor.
  - The filter, and the listing's agreement with the Appointment table, appear only as the `ListingsReflect` precondition of `BookingAdvancesStatus`.
- Failures of the driver are given as flags. The model derives only one rejection itself: an INSERT whose patient id already exists.
- `MakeAppointment.MakeAppointment`: a status UPDATE naming an id absent from the table changes nothing but is still reported as booked, as in the program. This follows from `ApplyToAppointments`.
- `ClinicStore.Store.FindPatient`: the patient lookup reads the store directly rather than a cursor of text cells. Only whether it found a row matters to the flow.
- Date and time validation by `SimpleDateFormat` is left out: it is opaque library parsing.
- `AddDoctor` and the INSERT parts of `AddPatient` and `AddAppointment` are left out: they are administrative inserts outside the booking flow. The validators of `AddPatient` and `AddAppointment` are modelled.
- The listing operations 5-8 are left out: they only query and print.
- Races between sessions on the non-atomic read-then-update are left out. The model is single-session.
- The statement handle that `stmt.close()` skips when a statement throws is not modelled. The model has no resources.
