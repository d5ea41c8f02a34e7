/**
 * The appointment status codes and the booking transition of
 * MakeAppointment (DBproject.java lines 690 and 704).
 */
module AppointmentStatus {
  import opened Wrappers
  import opened JavaString
  import Validation

  /** The four states an appointment row records. */
  datatype Status = Past | Active | Available | Waitlisted

  /** The two-letter code the status column stores. */
  function Code(st: Status): (c: string)
    ensures Validation.IsStatusOption(c)
  {
    match st
    case Past => "PA"
    case Active => "AC"
    case Available => "AV"
    case Waitlisted => "WL"
  }

  function Decode(c: string): (r: Option<Status>)
    ensures r.Some? ==> Code(r.value) == c
    ensures r.Some? <==> Validation.IsStatusOption(c)
  {
    if c == "PA" then Some(Past)
    else if c == "AC" then Some(Active)
    else if c == "AV" then Some(Available)
    else if c == "WL" then Some(Waitlisted)
    else None
  }

  lemma DecodeCode(st: Status)
    ensures Decode(Code(st)) == Some(st)
  {
  }

  /** Position along the booking path Available -> Active -> Waitlisted; Past lies beyond it. */
  function Rank(st: Status): nat
  {
    match st
    case Available => 0
    case Active => 1
    case Waitlisted => 2
    case Past => 3
  }

  /**
   * The booking state machine on states: an available slot becomes active,
   * an active one gets a waitlisted booking, anything else is refused.
   */
  function Book(st: Status): (r: Option<Status>)
    ensures r.Some? ==> Rank(st) < Rank(r.value) && r.value != Past
    ensures r.Some? <==> st == Available || st == Active
  {
    match st
    case Available => Some(Active)
    case Active => Some(Waitlisted)
    case _ => None
  }

  /**
   * The status the booking step writes, decided on the text of the chosen
   * row's status column: `contains("AV")` is tested first and writes AC,
   * then `contains("AC")` writes WL; any other text writes nothing.
   */
  function NextStatus(status: string): (r: Option<string>)
  {
    if Contains(status, "AV") then Some("AC")
    else if Contains(status, "AC") then Some("WL")
    else None
  }

  /** The three branches, each stated both ways; AV wins any overlap. */
  lemma NextStatusCases(status: string)
    ensures NextStatus(status) == Some("AC") <==> Contains(status, "AV")
    ensures NextStatus(status) == Some("WL") <==> !Contains(status, "AV") && Contains(status, "AC")
    ensures NextStatus(status) == None <==> !Contains(status, "AV") && !Contains(status, "AC")
  {
  }

  function MapCode(o: Option<Status>): Option<string>
  {
    match o
    case None => None
    case Some(st) => Some(Code(st))
  }

  /**
   * On the four stored codes the substring tests decide exactly as the
   * state machine does: AV -> AC, AC -> WL, WL and PA unchanged.
   */
  lemma NextStatusAgreesWithBook(st: Status)
    ensures NextStatus(Code(st)) == MapCode(Book(st))
  {
    ContainsSameLength(Code(st), "AV");
    ContainsSameLength(Code(st), "AC");
  }

  /**
   * For a stored code, booking writes a stored code further along the
   * booking path and never Past.
   */
  lemma NextStatusOfCodeAdvances(c: string)
    requires Validation.IsStatusOption(c)
    ensures NextStatus(c).Some? <==> c == "AV" || c == "AC"
    ensures NextStatus(c).Some? ==>
      && Validation.IsStatusOption(NextStatus(c).value)
      && NextStatus(c).value != "PA"
      && Rank(Decode(c).value) < Rank(Decode(NextStatus(c).value).value)
  {
    var st := Decode(c).value;
    NextStatusAgreesWithBook(st);
    if Book(st).Some? {
      DecodeCode(Book(st).value);
    }
  }
}
