/** The stay-out registration page: the form, its time handler and the submission. */
module StayRegister {
  import opened Types
  import opened AppState
  import opened TimeFormat
  import opened JsText

  datatype StayForm = StayForm(
    date: string,
    time: string,
    returnDate: string,
    returnTime: string,
    reason: string,
    otherReason: string)

  /** The body posted to the stay-registration endpoint. */
  datatype StayPayload = StayPayload(
    studentId: string,
    date: string,
    time: string,
    returnDate: string,
    returnTime: string,
    reason: string,
    otherReason: string)

  /** Why a submission was refused before anything was posted, in the order the checks run. */
  datatype StaySubmitError = MissingFields | MissingStudent

  /** The form a freshly opened page shows: today's date and the rounded clock time. */
  function InitialForm(today: string, hour: nat, minute: nat): StayForm
    requires hour < 24 && minute < 60
  {
    StayForm(today, DefaultTime(hour, minute), "", "", "", "")
  }

  /**
   * `handleSubmit`'s checks: one combined test that date, time, return date,
   * return time and reason are all filled in, then a student id. The two
   * dates are never compared. On success, the payload.
   */
  function ValidateStay(form: StayForm, student: Option<Student>): (r: Result<StayPayload, StaySubmitError>)
    ensures r == Err(MissingFields) <==>
      form.date == "" || form.time == "" || form.returnDate == "" || form.returnTime == "" || form.reason == ""
    ensures r == Err(MissingStudent) <==>
      form.date != "" && form.time != "" && form.returnDate != "" && form.returnTime != "" && form.reason != ""
      && ActiveId(student).None?
    ensures r.Ok? ==> r.value == StayPayload(
      ActiveId(student).value, form.date, form.time, form.returnDate, form.returnTime, form.reason, form.otherReason)
  {
    if form.date == "" || form.time == "" || form.returnDate == "" || form.returnTime == "" || form.reason == "" then
      Err(MissingFields)
    else if ActiveId(student).None? then
      Err(MissingStudent)
    else
      Ok(StayPayload(ActiveId(student).value, form.date, form.time, form.returnDate, form.returnTime, form.reason, form.otherReason))
  }

  /**
   * A filled-in form passes validation for a logged-in student whatever its
   * dates: a return date strictly before the departure date included.
   */
  lemma ReturnBeforeDepartureAccepted(form: StayForm, student: Student)
    requires form.date != "" && form.time != "" && form.returnDate != "" && form.returnTime != "" && form.reason != ""
    requires !LexLe(form.date, form.returnDate)
    requires student.studentId != ""
    ensures ValidateStay(form, Some(student)).Ok?
    ensures ValidateStay(form, Some(student)).value.returnDate == form.returnDate
    ensures ValidateStay(form, Some(student)).value.date == form.date
  {
  }

  /** The record appended after the server accepted the registration. */
  function NewStay(id: string, studentId: string, form: StayForm): (r: StayRequest)
    ensures r.status == Pending && r.seqNo == 0 && r.note == ""
    ensures r.actualReturnDate == None && r.actualReturnTime == None
    ensures r.id == id && r.studentId == studentId
    ensures r.date == form.date && r.time == form.time && r.returnDate == form.returnDate && r.returnTime == form.returnTime
    ensures r.reason == form.reason && r.otherReason == form.otherReason
  {
    StayRequest(
      id := id,
      studentId := studentId,
      date := form.date,
      time := form.time,
      returnDate := form.returnDate,
      returnTime := form.returnTime,
      reason := form.reason,
      otherReason := form.otherReason,
      status := Pending,
      actualReturnDate := None,
      actualReturnTime := None,
      note := "",
      seqNo := 0)
  }

  /** The stay-registration page's own state; the stay list lives in the shared `App`. */
  class StayRegisterPage {
    const app: App
    var form: StayForm
    var reasons: seq<ReasonEntry>

    constructor (app: App, today: string, hour: nat, minute: nat)
      requires hour < 24 && minute < 60
      ensures reasons == [] && this.app == app
      ensures form == InitialForm(today, hour, minute)
    {
      var initial := InitialForm(today, hour, minute);
      this.app := app;
      form := initial;
      reasons := [];
    }

    /** `fetchStayReasons`: the fetched catalog backs the reason select; a failure keeps it as it was. */
    method LoadReasons(response: Response<seq<ReasonEntry>>)
      modifies this`reasons
      ensures reasons == if response.Received? then response.body else old(reasons)
    {
      if response.Received? {
        reasons := response.body;
      }
    }

    /** `handleTimeChange`: the changed time field gets the normalized value, nothing else changes. */
    method HandleTimeChange(value: string, field: TimeField)
      requires value == "" || IsTimeValue(value)
      modifies this`form
      ensures form == if field == DepartureTime then old(form).(time := NormalizeTime(value))
                      else old(form).(returnTime := NormalizeTime(value))
    {
      var formatted := NormalizeTime(value);
      if field == DepartureTime {
        form := form.(time := formatted);
      } else {
        form := form.(returnTime := formatted);
      }
    }

    /**
     * `handleSubmit`: a form that fails a check posts nothing. A valid one is
     * posted; when the server accepts it, the new pending record (id
     * `freshId`) is appended to the shared stay list and the page goes back to
     * the menu; when the request fails, everything stays as it was.
     */
    method HandleSubmit(response: Response<()>, freshId: string) returns (posted: Option<StayPayload>)
      modifies app`stayRows, app`page
      ensures var v := ValidateStay(form, app.currentStudent);
        posted == if v.Ok? then Some(v.value) else None
      ensures var ok := posted.Some? && response.Received?;
        && app.stayRows == (if ok then old(app.stayRows) + [LocalRow(NewStay(freshId, posted.value.studentId, form))]
                            else old(app.stayRows))
        && app.page == (if ok then MenuPage else old(app.page))
    {
      var v := ValidateStay(form, app.currentStudent);
      if v.Err? {
        return None;
      }
      posted := Some(v.value);
      if response.Received? {
        app.stayRows := app.stayRows + [LocalRow(NewStay(freshId, v.value.studentId, form))];
        app.page := MenuPage;
      }
    }
  }
}
