/** The records of the leave-request system and the outcome of a network call. */
module Types {
  import opened JsText

  datatype Option<T> = None | Some(value: T)

  /** The result of a call the page awaits: the response body, or a thrown request. */
  datatype Response<T> = Received(body: T) | RequestFailed

  /** The success/failure of a local check. */
  datatype Result<T, E> = Ok(value: T) | Err(error: E)

  /** The only two values the pages ever store in a request's `status`. */
  datatype Status = Pending | Completed

  /** The values of `currentPage`. */
  datatype Page = LoginPage | MenuPage | OutingRegisterPage | OutingReturnPage | StayRegisterPage | StayReturnPage

  datatype Student = Student(
    studentId: string,
    studentName: string,
    grade: string,
    pwd: string,
    phone: string,
    classNo: string,
    number: string)

  /** An outing (day leave) as the client holds it. */
  datatype OutingRequest = OutingRequest(
    id: string,
    studentId: string,
    date: string,
    time: string,
    returnTime: string,
    reason1: string,
    reason2: string,
    otherReason: string,
    reason1Name: string,
    reason2Name: string,
    status: Status,
    seqNo: JsNumber,
    actualReturnTime: Option<string>)

  /** A stay-out (overnight leave) as the client holds it. */
  datatype StayRequest = StayRequest(
    id: string,
    studentId: string,
    date: string,
    time: string,
    returnDate: string,
    returnTime: string,
    reason: string,
    otherReason: string,
    status: Status,
    actualReturnDate: Option<string>,
    actualReturnTime: Option<string>,
    note: string,
    seqNo: int)

  /** A stay-out row as the stay-list endpoint returns it. */
  datatype ServerStayRequest = ServerStayRequest(
    seqNo: int,
    sleepOutDt: string,
    returnDate: string,
    sleepOutReason: string)

  /**
   * An element of the shared stay list. The list is declared to hold
   * StayRequest records, but a fetch stores the server rows as they
   * arrive, so at run time it holds either kind.
   */
  datatype StayRow = ServerRow(row: ServerStayRequest) | LocalRow(request: StayRequest)

  /** An entry of a reason catalog: a code and its display name. */
  datatype ReasonEntry = ReasonEntry(code: string, name: string)

  /** `currentStudent?.Student_ID` used as a condition: the id of a logged-in student, when it is not empty. */
  function ActiveId(student: Option<Student>): (r: Option<string>)
    ensures r.Some? <==> student.Some? && student.value.studentId != ""
    ensures r.Some? ==> r.value == student.value.studentId
  {
    if student.Some? && student.value.studentId != "" then Some(student.value.studentId) else None
  }
}
