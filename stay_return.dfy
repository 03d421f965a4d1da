/** The stay-out return page: the fetched stay list, the returnable view and the return action. */
module StayReturn {
  import opened JsText
  import opened Lists
  import opened Types
  import opened AppState

  /** The return type the page starts with. */
  const DefaultReturnType: string := "NORMAL"

  /** The body posted to the stay-return endpoint. */
  datatype StayReturnPayload = StayReturnPayload(sleepOutDt: string, seqNo: int, returnType: string, returnNote: string)

  /** The view record made of one server row; `studentId` is the logged-in id, or "" when there is none. */
  function ToView(row: ServerStayRequest, studentId: string): (r: StayRequest)
    ensures r.id == IntToString(row.seqNo)
    ensures r.seqNo == row.seqNo && r.studentId == studentId
    ensures r.date == row.sleepOutDt && r.returnDate == row.returnDate && r.reason == row.sleepOutReason
    ensures r.time == "" && r.returnTime == "" && r.otherReason == "" && r.note == ""
    ensures r.status == Pending && r.actualReturnDate == None && r.actualReturnTime == None
  {
    StayRequest(
      id := IntToString(row.seqNo),
      studentId := studentId,
      date := row.sleepOutDt,
      time := "",
      returnDate := row.returnDate,
      returnTime := "",
      reason := row.sleepOutReason,
      otherReason := "",
      status := Pending,
      actualReturnDate := None,
      actualReturnTime := None,
      note := "",
      seqNo := row.seqNo)
  }

  /** A view id read back with `Number` gives the row's `Seq` again. */
  lemma ViewIdNumber(row: ServerStayRequest, studentId: string)
    requires row.seqNo >= 0
    ensures ParseNumber(ToView(row, studentId).id) == Int(row.seqNo)
  {
  }

  /** `currentStudent?.Student_ID || ''`. */
  function ViewStudentId(student: Option<Student>): string {
    if student.Some? then student.value.studentId else ""
  }

  predicate IsServerRow(row: StayRow) {
    row.ServerRow?
  }

  /**
   * The stay list read as server rows and reshaped into view records. A
   * locally registered record has no `Seq`, so reading `Seq.toString()` on
   * it throws and the page cannot render: None.
   */
  function ViewRows(rows: seq<StayRow>, student: Option<Student>): (r: Option<seq<StayRequest>>)
    ensures r.Some? <==> forall i :: 0 <= i < |rows| ==> IsServerRow(rows[i])
    ensures r.Some? ==> |r.value| == |rows|
    ensures r.Some? ==> forall i :: 0 <= i < |rows| ==> r.value[i] == ToView(rows[i].row, ViewStudentId(student))
  {
    if forall i :: 0 <= i < |rows| ==> IsServerRow(rows[i]) then
      Some(seq(|rows|, i requires 0 <= i < |rows| && IsServerRow(rows[i]) => ToView(rows[i].row, ViewStudentId(student))))
    else
      None
  }

  /** The filter's test: due back on `today` or later, comparing the ISO date strings. */
  function DueOnOrAfter(today: string): StayRequest -> bool {
    (r: StayRequest) => LexLe(today, r.returnDate)
  }

  /** `pendingRequests`: the view records still due back on `today` or later, in list order. */
  function PendingRequests(rows: seq<StayRow>, student: Option<Student>, today: string): (r: Option<seq<StayRequest>>)
    ensures r.Some? <==> forall i :: 0 <= i < |rows| ==> IsServerRow(rows[i])
    ensures r.Some? ==> |r.value| <= |rows|
    ensures r.Some? ==> forall k :: 0 <= k < |r.value| ==> LexLe(today, r.value[k].returnDate) && r.value[k].status == Pending
    ensures r.Some? ==> forall k :: 0 <= k < |r.value| ==>
      exists i :: 0 <= i < |rows| && r.value[k] == ToView(rows[i].row, ViewStudentId(student))
  {
    var view := ViewRows(rows, student);
    if view.None? then None else Some(Filter(view.value, DueOnOrAfter(today)))
  }

  /**
   * The functional update after a confirmed return: list entries whose `id`
   * equals the selection's become completed and take its expected return
   * date and time as the actual ones. A server row has no `id`, so it never
   * matches.
   */
  function MarkCompleted(rows: seq<StayRow>, selected: StayRequest): (r: seq<StayRow>)
    ensures |r| == |rows|
    ensures forall i :: 0 <= i < |rows| ==> (r[i] != rows[i] <==> rows[i].LocalRow? && rows[i].request.id == selected.id && rows[i].request != rows[i].request.(status := Completed, actualReturnDate := Some(selected.returnDate), actualReturnTime := Some(selected.returnTime)))
    ensures forall i :: 0 <= i < |rows| && rows[i].LocalRow? && rows[i].request.id == selected.id ==>
      r[i] == LocalRow(rows[i].request.(status := Completed, actualReturnDate := Some(selected.returnDate), actualReturnTime := Some(selected.returnTime)))
  {
    seq(|rows|, i requires 0 <= i < |rows| =>
      if rows[i].LocalRow? && rows[i].request.id == selected.id then
        LocalRow(rows[i].request.(status := Completed, actualReturnDate := Some(selected.returnDate), actualReturnTime := Some(selected.returnTime)))
      else rows[i])
  }

  /**
   * Whenever the page renders, a confirmed return changes nothing in the
   * stay list: every row is then a server row, and none carries an `id`.
   */
  lemma CompletionNeverApplies(rows: seq<StayRow>, student: Option<Student>, today: string, selected: StayRequest)
    requires PendingRequests(rows, student, today).Some?
    ensures MarkCompleted(rows, selected) == rows
  {
  }

  /** Once a stay registered on this device is appended to the list, the page can no longer render it. */
  lemma LocalRowBlocksView(rows: seq<StayRow>, registered: StayRequest, student: Option<Student>, today: string)
    ensures PendingRequests(rows + [LocalRow(registered)], student, today).None?
  {
    assert !IsServerRow((rows + [LocalRow(registered)])[|rows|]);
  }

  /** The page renders exactly when the stay list holds no locally registered record. */
  lemma RendersIffNoLocalRows(rows: seq<StayRow>, student: Option<Student>, today: string)
    ensures PendingRequests(rows, student, today).Some? <==> forall i :: 0 <= i < |rows| ==> rows[i].ServerRow?
  {
  }

  /** The view of a concatenated list is the concatenation of the views. */
  lemma ViewRowsAppend(a: seq<StayRow>, b: seq<StayRow>, student: Option<Student>)
    requires ViewRows(a + b, student).Some?
    ensures ViewRows(a, student).Some? && ViewRows(b, student).Some?
    ensures ViewRows(a + b, student).value == ViewRows(a, student).value + ViewRows(b, student).value
  {
    var ab := a + b;
    forall i | 0 <= i < |a| ensures IsServerRow(a[i]) {
      assert a[i] == ab[i];
    }
    forall i | 0 <= i < |b| ensures IsServerRow(b[i]) {
      assert b[i] == ab[|a| + i];
    }
    var vab, va, vb := ViewRows(ab, student).value, ViewRows(a, student).value, ViewRows(b, student).value;
    forall i | 0 <= i < |vab| ensures vab[i] == (va + vb)[i] {
      if i < |a| {
        ViewRowsAtSameRow(ab, i, a, i, student);
      } else {
        ViewRowsAtSameRow(ab, i, b, i - |a|, student);
      }
    }
    assert vab == va + vb;
  }

  /** Two lists holding the same row at two positions have the same view there. */
  lemma ViewRowsAtSameRow(xs: seq<StayRow>, i: nat, ys: seq<StayRow>, j: nat, student: Option<Student>)
    requires ViewRows(xs, student).Some? && ViewRows(ys, student).Some?
    requires i < |xs| && j < |ys| && xs[i] == ys[j]
    ensures ViewRows(xs, student).value[i] == ViewRows(ys, student).value[j]
  {
  }

  /** The returnable list of a concatenation is the concatenation of the returnable lists: list order is kept. */
  lemma PendingRequestsAppend(a: seq<StayRow>, b: seq<StayRow>, student: Option<Student>, today: string)
    requires PendingRequests(a + b, student, today).Some?
    ensures PendingRequests(a, student, today).Some? && PendingRequests(b, student, today).Some?
    ensures PendingRequests(a + b, student, today).value
         == PendingRequests(a, student, today).value + PendingRequests(b, student, today).value
  {
    ViewRowsAppend(a, b, student);
    FilterAppend(ViewRows(a, student).value, ViewRows(b, student).value, DueOnOrAfter(today));
  }

  /** A fetched stay is listed exactly when its return date is on or after `today`. */
  lemma PendingRequestsMembers(rows: seq<StayRow>, student: Option<Student>, today: string)
    requires PendingRequests(rows, student, today).Some?
    ensures forall i :: 0 <= i < |rows| ==>
      var listed := PendingRequests(rows, student, today).value;
      (ToView(rows[i].row, ViewStudentId(student)) in listed <==> LexLe(today, rows[i].row.returnDate))
  {
    var view := ViewRows(rows, student).value;
    var listed := PendingRequests(rows, student, today).value;
    forall i | 0 <= i < |rows|
      ensures ToView(rows[i].row, ViewStudentId(student)) in listed <==> LexLe(today, rows[i].row.returnDate)
    {
      var v := ToView(rows[i].row, ViewStudentId(student));
      assert view[i] == v;
      if v in listed {
        var k :| 0 <= k < |listed| && listed[k] == v;
        assert DueOnOrAfter(today)(listed[k]);
      }
    }
  }

  /**
   * Whatever the row, a stay due back today is listed, and one due back on a
   * date that first differs from today in a lower character (the day before,
   * in ISO form, such as 2024-05-31 against 2024-06-01) is not.
   */
  lemma ReturnableBoundary(row: ServerStayRequest, studentId: string, common: string, day: string, dayBefore: string)
    requires day != [] && dayBefore != [] && dayBefore[0] < day[0]
    ensures DueOnOrAfter(common + day)(ToView(row.(returnDate := common + day), studentId))
    ensures !DueOnOrAfter(common + day)(ToView(row.(returnDate := common + dayBefore), studentId))
  {
    LexLeReflexive(common + day);
    LexLeCommonPrefix(common, day, dayBefore);
  }

  /** As `today` advances, a stay can only leave the returnable list, never join it. */
  lemma ReturnableShrinks(views: seq<StayRequest>, earlier: string, later: string)
    requires LexLe(earlier, later)
    ensures forall i :: 0 <= i < |views| && DueOnOrAfter(later)(views[i]) ==> DueOnOrAfter(earlier)(views[i])
  {
    forall i | 0 <= i < |views| && DueOnOrAfter(later)(views[i])
      ensures DueOnOrAfter(earlier)(views[i])
    {
      LexLeTransitive(earlier, later, views[i].returnDate);
    }
  }

  /** View ids are the printed server sequence numbers, so distinct rows get distinct ids. */
  lemma ViewIdsDistinct(a: ServerStayRequest, b: ServerStayRequest, studentId: string)
    requires a.seqNo != b.seqNo
    ensures ToView(a, studentId).id != ToView(b, studentId).id
  {
    IntToStringInjective(a.seqNo, b.seqNo);
  }

  /** The stay-return page's own state; the stay list lives in the shared `App`. */
  class StayReturnPage {
    const app: App
    var selected: Option<StayRequest>
    var returnType: string
    var returnNote: string

    constructor (app: App)
      ensures this.app == app
      ensures selected == None && returnType == DefaultReturnType && returnNote == ""
    {
      this.app := app;
      selected := None;
      returnType := DefaultReturnType;
      returnNote := "";
    }

    /**
     * `fetchStayList`: without a student id nothing happens; a failed
     * request leaves the list; a successful one stores the server rows as
     * they are.
     */
    method FetchStayList(response: Response<seq<ServerStayRequest>>)
      modifies app`stayRows
      ensures app.stayRows ==
        if ActiveId(app.currentStudent).None? || response.RequestFailed? then old(app.stayRows)
        else seq(|response.body|, i requires 0 <= i < |response.body| => ServerRow(response.body[i]))
    {
      if ActiveId(app.currentStudent).None? {
        return;
      }
      if response.Received? {
        app.stayRows := seq(|response.body|, i requires 0 <= i < |response.body| => ServerRow(response.body[i]));
      }
    }

    /** `handleReturn`: the return button of a listed stay selects it. */
    method Select(r: StayRequest, today: string)
      requires PendingRequests(app.stayRows, app.currentStudent, today).Some?
      requires r in PendingRequests(app.stayRows, app.currentStudent, today).value
      modifies this`selected
      ensures selected == Some(r)
    {
      selected := Some(r);
    }

    /** The dialog's close and cancel buttons: the selection is dropped. */
    method Cancel()
      modifies this`selected
      ensures selected == None
    {
      selected := None;
    }

    /**
     * `handleReturnSubmit`: with no selection nothing is posted. Otherwise
     * the return is posted; once the server accepts it the list gets the
     * completion update and the page goes back to the menu; a failed
     * request changes nothing.
     */
    method HandleReturnSubmit(response: Response<()>) returns (posted: Option<StayReturnPayload>)
      modifies app`stayRows, app`page
      ensures posted == if selected.None? then None
        else Some(StayReturnPayload(selected.value.date, selected.value.seqNo, returnType, returnNote))
      ensures var ok := posted.Some? && response.Received?;
        && app.stayRows == (if ok then MarkCompleted(old(app.stayRows), selected.value) else old(app.stayRows))
        && app.page == (if ok then MenuPage else old(app.page))
    {
      if selected.None? {
        return None;
      }
      var request := selected.value;
      posted := Some(StayReturnPayload(request.date, request.seqNo, returnType, returnNote));
      if response.Received? {
        app.stayRows := MarkCompleted(app.stayRows, request);
        app.page := MenuPage;
      }
    }
  }
}
