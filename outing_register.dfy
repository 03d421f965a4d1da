/** The outing-registration page: the form, its time and reason handlers, and the submission. */
module OutingRegister {
  import opened JsText
  import opened Lists
  import opened Types
  import opened AppState
  import opened TimeFormat
  import opened ReasonCatalog
  import OutingReturn

  datatype OutingForm = OutingForm(
    date: string,
    time: string,
    returnTime: string,
    reason1: string,
    reason2: string,
    otherReason: string,
    reason1Name: string,
    reason2Name: string)

  /** The body posted to the outing-registration endpoint. */
  datatype OutingPayload = OutingPayload(
    studentId: string,
    date: string,
    time: string,
    returnTime: string,
    reason1: string,
    reason1Name: string,
    reason2: string,
    reason2Name: string,
    otherReason: string)

  /** Why a submission was refused before anything was posted, in the order the checks run. */
  datatype OutingSubmitError = MissingDateOrTime | MissingReason1 | MissingStudent

  /** The form a freshly opened page shows: today's date and the rounded clock time. */
  function InitialForm(today: string, hour: nat, minute: nat): OutingForm
    requires hour < 24 && minute < 60
  {
    OutingForm(today, DefaultTime(hour, minute), "", "", "", "", "", "")
  }

  /**
   * `handleSubmit`'s checks, first failure wins: date, time and return time
   * filled in; then reason 1 chosen; then a student id. On success, the
   * payload, with both reason names looked up again in the catalogs.
   */
  function ValidateOuting(form: OutingForm, student: Option<Student>, reasons1: seq<ReasonEntry>, reasons2: seq<ReasonEntry>)
    : (r: Result<OutingPayload, OutingSubmitError>)
    ensures r == Err(MissingDateOrTime) <==> form.date == "" || form.time == "" || form.returnTime == ""
    ensures r == Err(MissingReason1) <==>
      form.date != "" && form.time != "" && form.returnTime != "" && form.reason1 == ""
    ensures r == Err(MissingStudent) <==>
      form.date != "" && form.time != "" && form.returnTime != "" && form.reason1 != "" && ActiveId(student).None?
    ensures r.Ok? ==> r.value == OutingPayload(
      ActiveId(student).value, form.date, form.time, form.returnTime,
      form.reason1, FindName(reasons1, form.reason1),
      form.reason2, FindName(reasons2, form.reason2),
      form.otherReason)
  {
    if form.date == "" || form.time == "" || form.returnTime == "" then Err(MissingDateOrTime)
    else if form.reason1 == "" then Err(MissingReason1)
    else if ActiveId(student).None? then Err(MissingStudent)
    else Ok(OutingPayload(
      ActiveId(student).value, form.date, form.time, form.returnTime,
      form.reason1, FindName(reasons1, form.reason1),
      form.reason2, FindName(reasons2, form.reason2),
      form.otherReason))
  }

  /** The record appended after the server accepted the registration. */
  function NewOuting(id: string, studentId: string, form: OutingForm): (r: OutingRequest)
    ensures r.status == Pending && r.seqNo == Int(0) && r.actualReturnTime == None
    ensures OutingReturn.OwnedBy(studentId)(r) && r.id == id
    ensures r.date == form.date && r.time == form.time && r.returnTime == form.returnTime
    ensures r.reason1 == form.reason1 && r.reason2 == form.reason2 && r.otherReason == form.otherReason
    ensures r.reason1Name == form.reason1Name && r.reason2Name == form.reason2Name
  {
    OutingRequest(
      id := id,
      studentId := studentId,
      date := form.date,
      time := form.time,
      returnTime := form.returnTime,
      reason1 := form.reason1,
      reason2 := form.reason2,
      otherReason := form.otherReason,
      reason1Name := form.reason1Name,
      reason2Name := form.reason2Name,
      status := Pending,
      seqNo := Int(0),
      actualReturnTime := None)
  }

  /**
   * A registered outing shows up, pending and returnable, at the end of the
   * registering student's list on the return page.
   */
  lemma AppendedOutingVisible(list: seq<OutingRequest>, id: string, student: Student, form: OutingForm)
    ensures var r := NewOuting(id, student.studentId, form);
      && OutingReturn.Visible(list + [r], Some(student)) == OutingReturn.Visible(list, Some(student)) + [r]
      && OutingReturn.Offered(list + [r], Some(student), r)
      && r.seqNo == Int(0) && r.actualReturnTime == None
  {
    var r := NewOuting(id, student.studentId, form);
    var keep := OutingReturn.OwnedBy(student.studentId);
    FilterAppend(list, [r], keep);
    FilterSingleton(r, keep);
    assert OutingReturn.Visible(list + [r], Some(student)) == Filter(list, keep) + [r];
  }

  /**
   * The appended record carries the names chosen on the form while the
   * payload looks them up again; the two agree when the form's names came
   * from the same catalogs.
   */
  lemma PayloadMatchesNewOuting(form: OutingForm, student: Option<Student>, reasons1: seq<ReasonEntry>, reasons2: seq<ReasonEntry>, id: string)
    requires ValidateOuting(form, student, reasons1, reasons2).Ok?
    requires form.reason1Name == FindName(reasons1, form.reason1)
    requires form.reason2Name == FindName(reasons2, form.reason2)
    ensures var p := ValidateOuting(form, student, reasons1, reasons2).value;
      var r := NewOuting(id, p.studentId, form);
      && r.studentId == p.studentId && r.date == p.date && r.time == p.time && r.returnTime == p.returnTime
      && r.reason1 == p.reason1 && r.reason1Name == p.reason1Name
      && r.reason2 == p.reason2 && r.reason2Name == p.reason2Name
      && r.otherReason == p.otherReason
  {
  }

  /** The outing-registration page's own state; the request list lives in the shared `App`. */
  class OutingRegisterPage {
    const app: App
    var form: OutingForm
    var reasons1: seq<ReasonEntry>
    var reasons2: seq<ReasonEntry>

    /** A fresh page: today's date, the rounded clock time, empty catalogs. */
    constructor (app: App, today: string, hour: nat, minute: nat)
      requires hour < 24 && minute < 60
      ensures reasons1 == [] && reasons2 == [] && this.app == app
      ensures form == InitialForm(today, hour, minute)
    {
      var initial := InitialForm(today, hour, minute);
      this.app := app;
      form := initial;
      reasons1 := [];
      reasons2 := [];
    }

    /** `fetchOutingReasons`: the one fetched catalog backs both reason selects; a failure keeps them empty as they were. */
    method LoadReasons(response: Response<seq<ReasonEntry>>)
      modifies this`reasons1, this`reasons2
      ensures response.Received? ==> reasons1 == response.body && reasons2 == response.body
      ensures response.RequestFailed? ==> reasons1 == old(reasons1) && reasons2 == old(reasons2)
    {
      if response.Received? {
        reasons1 := response.body;
        reasons2 := response.body;
      }
    }

    /** `handleTimeChange`: the changed time field gets the normalized value, nothing else changes. */
    method HandleTimeChange(value: string, field: TimeField)
      requires value == "" || IsTimeValue(value)
      modifies this`form
      ensures form == if field == DepartureTime then old(form).(time := NormalizeTime(value))
                      else old(form).(returnTime := NormalizeTime(value))
    {
      var formatted := NormalizeTime(value);
      if field == DepartureTime {
        form := form.(time := formatted);
      } else {
        form := form.(returnTime := formatted);
      }
    }

    /** `handleReason1Change`: an empty choice is refused and changes nothing; otherwise code and name are stored. */
    method HandleReason1Change(code: string)
      modifies this`form
      ensures code == "" ==> form == old(form)
      ensures code != "" ==> form == old(form).(reason1 := code, reason1Name := FindName(reasons1, code))
    {
      if code == "" {
        return;
      }
      form := form.(reason1 := code, reason1Name := FindName(reasons1, code));
    }

    /** `handleReason2Change`: any choice, the empty one included, is stored with its name. */
    method HandleReason2Change(code: string)
      modifies this`form
      ensures form == old(form).(reason2 := code, reason2Name := FindName(reasons2, code))
    {
      form := form.(reason2 := code, reason2Name := FindName(reasons2, code));
    }

    /**
     * `handleSubmit`: a form that fails a check posts nothing. A valid one is
     * posted; when the server accepts it, the new pending record (id
     * `freshId`) is appended to the shared list and the page goes back to the
     * menu; when the request fails, everything stays as it was.
     */
    method HandleSubmit(response: Response<()>, freshId: string) returns (posted: Option<OutingPayload>)
      modifies app`outingRequests, app`page
      ensures var v := ValidateOuting(form, app.currentStudent, reasons1, reasons2);
        posted == if v.Ok? then Some(v.value) else None
      ensures var ok := posted.Some? && response.Received?;
        && app.outingRequests == (if ok then old(app.outingRequests) + [NewOuting(freshId, posted.value.studentId, form)]
                                  else old(app.outingRequests))
        && app.page == (if ok then MenuPage else old(app.page))
    {
      var v := ValidateOuting(form, app.currentStudent, reasons1, reasons2);
      if v.Err? {
        return None;
      }
      posted := Some(v.value);
      if response.Received? {
        app.outingRequests := app.outingRequests + [NewOuting(freshId, v.value.studentId, form)];
        app.page := MenuPage;
      }
    }
  }
}
