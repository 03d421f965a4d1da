/** The outing-return page: the fetched outing list, the per-student view and the return action. */
module OutingReturn {
  import opened JsText
  import opened Lists
  import opened Types
  import opened AppState

  /** The return type the page starts with and resets to: "복귀" (back on time). */
  const DefaultReturnType: string := "복귀"

  /** A row of the outing-list response. */
  datatype OutingListRow = OutingListRow(
    seqNo: string,
    outDt: string,
    outTime: string,
    outReason: string,
    returnTime: Option<string>)

  /** The body posted to the outing-return endpoint. */
  datatype OutingReturnPayload = OutingReturnPayload(outDate: string, seqNo: JsNumber, returnType: string, returnNote: string)

  /** `s || undefined`: an absent or empty string reads as absent. */
  function NonEmpty(s: Option<string>): Option<string> {
    if s.Some? && s.value != "" then s else None
  }

  /** The local record made of one server row for the student `studentId`. */
  function FromServerRow(row: OutingListRow, studentId: string): (r: OutingRequest)
    ensures r.studentId == studentId && r.status == Pending
    ensures r.seqNo.Int? <==> row.seqNo == "" || AllDigits(row.seqNo)
    ensures r.actualReturnTime.Some? <==> row.returnTime.Some? && row.returnTime.value != ""
    ensures r.actualReturnTime.Some? ==> r.actualReturnTime.value == row.returnTime.value
  {
    OutingRequest(
      id := row.outDt + "_" + row.outTime,
      studentId := studentId,
      date := row.outDt,
      time := row.outTime,
      returnTime := "",
      reason1 := row.outReason,
      reason2 := "",
      otherReason := "",
      reason1Name := "",
      reason2Name := "",
      status := Pending,
      seqNo := ParseNumber(row.seqNo),
      actualReturnTime := NonEmpty(row.returnTime))
  }

  /**
   * The list a successful fetch installs: a missing or empty body gives the
   * empty list, otherwise every row reshaped in order.
   */
  function FromServerRows(body: Option<seq<OutingListRow>>, studentId: string): (list: seq<OutingRequest>)
    ensures body.None? ==> list == []
    ensures body.Some? ==> |list| == |body.value|
    ensures body.Some? ==> forall i :: 0 <= i < |list| ==> list[i] == FromServerRow(body.value[i], studentId)
  {
    if body.None? || |body.value| == 0 then []
    else seq(|body.value|, i requires 0 <= i < |body.value| => FromServerRow(body.value[i], studentId))
  }

  /** The test the page's filter applies: the request belongs to the student `studentId`. */
  function OwnedBy(studentId: string): OutingRequest -> bool {
    (r: OutingRequest) => r.studentId == studentId
  }

  /**
   * The requests the page lists: those whose student id equals the
   * logged-in student's, in list order; with nobody logged in, none.
   */
  function Visible(list: seq<OutingRequest>, student: Option<Student>): (shown: seq<OutingRequest>)
    ensures student.None? ==> shown == []
    ensures |shown| <= |list|
    ensures forall i :: 0 <= i < |shown| ==> shown[i] in list && shown[i].studentId == student.value.studentId
    ensures student.Some? ==> forall i :: 0 <= i < |list| && list[i].studentId == student.value.studentId ==> list[i] in shown
  {
    if student.None? then [] else Filter(list, OwnedBy(student.value.studentId))
  }

  /** The requests that get a return button: the visible ones still pending. */
  predicate Offered(list: seq<OutingRequest>, student: Option<Student>, r: OutingRequest)
    ensures Offered(list, student, r) <==>
      student.Some? && r in list && r.studentId == student.value.studentId && r.status == Pending
  {
    r in Visible(list, student) && r.status == Pending
  }

  /**
   * The functional update `handleReturn` applies to the list after the
   * server confirms: every entry with the selected id becomes completed.
   */
  function MarkCompleted(list: seq<OutingRequest>, id: string): (r: seq<OutingRequest>)
    ensures |r| == |list|
    ensures forall i :: 0 <= i < |list| ==> (r[i].status == Completed <==> list[i].id == id || list[i].status == Completed)
    ensures forall i :: 0 <= i < |list| ==> r[i].(status := list[i].status) == list[i]
  {
    seq(|list|, i requires 0 <= i < |list| => if list[i].id == id then list[i].(status := Completed) else list[i])
  }

  /** Completing the same id twice changes nothing the second time: there is no already-completed check. */
  lemma MarkCompletedIdempotent(list: seq<OutingRequest>, id: string)
    ensures MarkCompleted(MarkCompleted(list, id), id) == MarkCompleted(list, id)
  {
  }

  /**
   * Every fetched record belongs to the fetching student, is pending, and
   * keeps the row's date, time, reason and reported return time.
   */
  lemma FetchedRequestsShape(body: seq<OutingListRow>, studentId: string)
    ensures forall i :: 0 <= i < |body| ==>
      var r := FromServerRows(Some(body), studentId)[i];
      && r.id == body[i].outDt + "_" + body[i].outTime
      && r.date == body[i].outDt && r.time == body[i].outTime && r.reason1 == body[i].outReason
      && r.studentId == studentId && r.status == Pending
      && r.seqNo == ParseNumber(body[i].seqNo)
      && r.returnTime == "" && r.reason2 == "" && r.otherReason == ""
      && r.reason1Name == "" && r.reason2Name == ""
      && (r.actualReturnTime.Some? <==> body[i].returnTime.Some? && body[i].returnTime.value != "")
      && (r.actualReturnTime.Some? ==> r.actualReturnTime.value == body[i].returnTime.value)
  {
  }

  /**
   * The id is built from the date and departure time alone, so two fetched
   * outings in the same slot share it, and completing one completes both.
   */
  lemma SharedSlotCompletedTogether(body: seq<OutingListRow>, studentId: string, i: nat, j: nat)
    requires i < |body| && j < |body|
    requires body[i].outDt == body[j].outDt && body[i].outTime == body[j].outTime
    ensures var list := FromServerRows(Some(body), studentId);
      var done := MarkCompleted(list, list[i].id);
      done[i].status == Completed && done[j].status == Completed
  {
    var list := FromServerRows(Some(body), studentId);
    assert list[i].id == list[j].id;
  }

  /** Right after a fetch by the logged-in student, the page lists the whole fetched list. */
  lemma FetchedAllVisible(body: Option<seq<OutingListRow>>, student: Student)
    ensures Visible(FromServerRows(body, student.studentId), Some(student)) == FromServerRows(body, student.studentId)
  {
    var list := FromServerRows(body, student.studentId);
    FilterKeepsAll(list, OwnedBy(student.studentId));
  }

  /** Nobody logged in: nothing is listed. A fetch that brought no rows: nothing is listed. */
  lemma VisibleEmpty(list: seq<OutingRequest>, student: Option<Student>)
    ensures student.None? ==> Visible(list, student) == []
    ensures list == [] ==> Visible(list, student) == []
  {
  }

  lemma MarkCompletedAppend(a: seq<OutingRequest>, b: seq<OutingRequest>, id: string)
    ensures MarkCompleted(a + b, id) == MarkCompleted(a, id) + MarkCompleted(b, id)
  {
  }

  /** Completion commutes with the student filter: the listed requests are completed the same way. */
  lemma {:induction false} MarkCompletedVisible(list: seq<OutingRequest>, id: string, student: Option<Student>)
    ensures Visible(MarkCompleted(list, id), student) == MarkCompleted(Visible(list, student), id)
    decreases |list|
  {
    if student.Some? && list != [] {
      var keep := OwnedBy(student.value.studentId);
      var init, last := list[..|list| - 1], list[|list| - 1];
      var done := MarkCompleted([last], id);
      assert list == init + [last];
      MarkCompletedAppend(init, [last], id);
      FilterAppend(MarkCompleted(init, id), done, keep);
      FilterAppend(init, [last], keep);
      MarkCompletedVisible(init, id, student);
      FilterSingleton(last, keep);
      FilterSingleton(done[0], keep);
      assert done == [done[0]];
      MarkCompletedAppend(Filter(init, keep), Filter([last], keep), id);
    }
  }

  /** The outing-return page's own state; the request list lives in the shared `App`. */
  class OutingReturnPage {
    const app: App
    var selected: Option<OutingRequest>
    var returnType: string
    var returnNote: string

    constructor (app: App)
      ensures this.app == app
      ensures selected == None && returnType == DefaultReturnType && returnNote == ""
    {
      this.app := app;
      selected := None;
      returnType := DefaultReturnType;
      returnNote := "";
    }

    /**
     * `fetchOutingList`: without a student id nothing happens; a failed
     * request leaves the list; a successful one replaces it.
     */
    method FetchOutingList(response: Response<Option<seq<OutingListRow>>>)
      modifies app`outingRequests
      ensures app.outingRequests ==
        if ActiveId(app.currentStudent).None? || response.RequestFailed? then old(app.outingRequests)
        else FromServerRows(response.body, app.currentStudent.value.studentId)
    {
      var id := ActiveId(app.currentStudent);
      if id.None? {
        return;
      }
      if response.Received? {
        app.outingRequests := FromServerRows(response.body, id.value);
      }
    }

    /**
     * The page's mount effect: with nobody logged in, go to the login page;
     * otherwise fetch the outing list.
     */
    method Open(response: Response<Option<seq<OutingListRow>>>)
      modifies app`page, app`outingRequests
      ensures app.currentStudent.None? ==> app.page == LoginPage && app.outingRequests == old(app.outingRequests)
      ensures app.currentStudent.Some? ==> app.page == old(app.page)
      ensures app.currentStudent.Some? ==>
        app.outingRequests ==
          if app.currentStudent.value.studentId == "" || response.RequestFailed? then old(app.outingRequests)
          else FromServerRows(response.body, app.currentStudent.value.studentId)
    {
      if app.currentStudent.None? {
        app.page := LoginPage;
        return;
      }
      FetchOutingList(response);
    }

    /** The return button of a listed pending request: select it and reset the return fields. */
    method Select(r: OutingRequest)
      requires Offered(app.outingRequests, app.currentStudent, r)
      modifies this`selected, this`returnType, this`returnNote
      ensures selected == Some(r) && returnType == DefaultReturnType && returnNote == ""
    {
      selected := Some(r);
      returnType := DefaultReturnType;
      returnNote := "";
    }

    /** The dialog's cancel button: the selection is dropped and the return fields reset. */
    method Cancel()
      modifies this`selected, this`returnType, this`returnNote
      ensures selected == None && returnType == DefaultReturnType && returnNote == ""
    {
      selected := None;
      returnType := DefaultReturnType;
      returnNote := "";
    }

    /**
     * `handleReturn`: with no selection or no student id nothing is posted.
     * Otherwise the return is posted; a reply carrying a non-empty message
     * completes the entries with the selected id and resets the selection,
     * anything else leaves every state as it was.
     */
    method HandleReturn(response: Response<string>) returns (posted: Option<OutingReturnPayload>)
      modifies this`selected, this`returnType, this`returnNote, app`outingRequests
      ensures posted ==
        if old(selected).None? || ActiveId(app.currentStudent).None? then None
        else Some(OutingReturnPayload(old(selected).value.date, old(selected).value.seqNo, old(returnType), old(returnNote)))
      ensures var done := posted.Some? && response.Received? && response.body != "";
        && app.outingRequests == (if done then MarkCompleted(old(app.outingRequests), old(selected).value.id) else old(app.outingRequests))
        && selected == (if done then None else old(selected))
        && returnType == (if done then DefaultReturnType else old(returnType))
        && returnNote == (if done then "" else old(returnNote))
    {
      if selected.None? || ActiveId(app.currentStudent).None? {
        return None;
      }
      var request := selected.value;
      posted := Some(OutingReturnPayload(request.date, request.seqNo, returnType, returnNote));
      if response.Received? && response.body != "" {
        app.outingRequests := MarkCompleted(app.outingRequests, request.id);
        selected := None;
        returnType := DefaultReturnType;
        returnNote := "";
      }
    }
  }
}
