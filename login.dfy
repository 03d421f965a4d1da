/** The login page: the phone field and its lookup, the password check and the login itself. */
module Login {
  import opened JsText
  import opened Lists
  import opened Types
  import opened AppState

  /** The body of the student-by-phone lookup. */
  datatype StudentNameResponse = StudentNameResponse(studentId: string, studentName: string, grade: int, pwd: string)

  /** Why a login was refused, in the order the checks run. */
  datatype LoginError = BadPhone | MissingPassword | MissingStudentInfo | WrongPassword

  /** How the phone field shows the stored digits: the first four, then a dash and the next four once there are more. */
  function DisplayPhone(digits: string): (shown: string)
    ensures |digits| <= 4 ==> shown == digits
    ensures |digits| > 4 ==> |shown| == Min(|digits|, 8) + 1 && shown[4] == '-'
    ensures |shown| <= 9
  {
    if |digits| > 0 then Slice(digits, 0, 4) + (if |digits| > 4 then "-" + Slice(digits, 4, 8) else "") else ""
  }

  /** The full number the lookup is keyed by: `010-`, the first four digits, then a dash and the next four. */
  function LookupKey(digits: string): (key: string)
    ensures digits == "" ==> key == ""
    ensures digits != "" ==> key == "010-" + DisplayPhone(digits)
  {
    if |digits| > 0 then "010-" + Slice(digits, 0, 4) + (if |digits| > 4 then "-" + Slice(digits, 4, 8) else "") else ""
  }

  lemma OnlyDigitsAppend(a: string, b: string)
    ensures OnlyDigits(a + b) == OnlyDigits(a) + OnlyDigits(b)
  {
    FilterAppend(a, b, IsDigit);
  }

  lemma DisplayPhoneSplit(digits: string)
    requires |digits| > 4
    ensures DisplayPhone(digits) == digits[..4] + ("-" + digits[4..Min(|digits|, 8)])
  {
  }

  /** A slice of a digit string is a digit string. */
  lemma AllDigitsSlice(s: string, lo: nat, hi: nat)
    requires AllDigits(s) && lo <= hi <= |s|
    ensures AllDigits(s[lo..hi])
  {
    forall i | 0 <= i < hi - lo ensures IsDigit(s[lo..hi][i]) {
      assert s[lo..hi][i] == s[lo + i];
    }
  }

  /** The digits of a dash-joined pair of digit strings are the two strings joined. */
  lemma OnlyDigitsDashJoin(head: string, tail: string)
    requires AllDigits(head) && AllDigits(tail)
    ensures OnlyDigits(head + ("-" + tail)) == head + tail
  {
    OnlyDigitsAppend(head, "-" + tail);
    OnlyDigitsAppend("-", tail);
    OnlyDigitsOfNonDigits("-");
    OnlyDigitsOfDigits(head);
    OnlyDigitsOfDigits(tail);
  }

  /**
   * Reading the shown number back through the field's digit filter gives the
   * stored digits, cut to eight: editing nothing changes nothing, and a ninth
   * digit never survives.
   */
  lemma DisplayRoundTrip(digits: string)
    requires AllDigits(digits)
    ensures OnlyDigits(DisplayPhone(digits)) == digits[..Min(|digits|, 8)]
  {
    var m := Min(|digits|, 8);
    if |digits| <= 4 {
      assert DisplayPhone(digits) == digits by {
        assert digits[0..|digits|] == digits;
      }
      OnlyDigitsOfDigits(digits);
      assert digits[..m] == digits;
    } else {
      var head, tail := digits[..4], digits[4..m];
      DisplayPhoneSplit(digits);
      assert DisplayPhone(digits) == head + ("-" + tail);
      AllDigitsSlice(digits, 0, 4);
      AllDigitsSlice(digits, 4, m);
      OnlyDigitsDashJoin(head, tail);
      assert head + tail == digits[..m];
    }
  }

  /** The digits of the lookup key are `010` followed by the stored digits, cut to eight. */
  lemma LookupKeyDigits(digits: string)
    requires AllDigits(digits) && digits != ""
    ensures OnlyDigits(LookupKey(digits)) == "010" + digits[..Min(|digits|, 8)]
  {
    var shown := DisplayPhone(digits);
    assert LookupKey(digits) == "010-" + shown;
    OnlyDigitsAppend("010-", shown);
    MobilePrefixDigits();
    DisplayRoundTrip(digits);
  }

  /** The digits of the fixed `010-` prefix are `010`. */
  lemma MobilePrefixDigits()
    ensures OnlyDigits("010-") == "010"
  {
    assert "010-" == "010" + "-";
    OnlyDigitsAppend("010", "-");
    OnlyDigitsOfDigits("010");
    OnlyDigitsOfNonDigits("-");
  }

  /** For the eight digits a lookup is made with, the key is `010-dddd-dddd`. */
  lemma LookupKeyOfEightDigits(digits: string)
    requires |digits| == 8
    ensures LookupKey(digits) == "010-" + digits[..4] + "-" + digits[4..]
    ensures |LookupKey(digits)| == 13
  {
  }

  /**
   * `handleSubmit`'s checks, first failure wins: exactly eight digits; a
   * password; a looked-up student; the password equal to the stored one.
   * On success, the student record the app keeps.
   */
  function CheckLogin(phone: string, password: string, info: Option<StudentNameResponse>): (r: Result<Student, LoginError>)
    ensures r == Err(BadPhone) <==> |phone| != 8
    ensures r == Err(MissingPassword) <==> |phone| == 8 && password == ""
    ensures r == Err(MissingStudentInfo) <==> |phone| == 8 && password != "" && info.None?
    ensures r == Err(WrongPassword) <==> |phone| == 8 && password != "" && info.Some? && password != info.value.pwd
    ensures r.Ok? <==> |phone| == 8 && password != "" && info.Some? && password == info.value.pwd
    ensures r.Ok? ==> r.value == Student(
      info.value.studentId, info.value.studentName, IntToString(info.value.grade), password, phone, "", "")
  {
    if |phone| != 8 then Err(BadPhone)
    else if password == "" then Err(MissingPassword)
    else if info.None? then Err(MissingStudentInfo)
    else if password != info.value.pwd then Err(WrongPassword)
    else Ok(Student(info.value.studentId, info.value.studentName, IntToString(info.value.grade), info.value.pwd, phone, "", ""))
  }

  /** The login page's own state; the logged-in student and the page live in the shared `App`. */
  class LoginPage {
    const app: App
    var phone: string
    var password: string
    var studentName: string
    var studentInfo: Option<StudentNameResponse>

    /**
     * The stored phone is all digits, and a looked-up student (whose name is
     * the one shown) only stands beside exactly eight of them.
     */
    predicate Valid()
      reads this`phone, this`studentName, this`studentInfo
    {
      && AllDigits(phone)
      && (studentInfo.Some? ==> |phone| == 8 && studentName == studentInfo.value.studentName)
      && (studentInfo.None? ==> studentName == "")
    }

    constructor (app: App)
      ensures this.app == app && Valid()
      ensures phone == "" && password == "" && studentName == "" && studentInfo == None
    {
      this.app := app;
      phone := "";
      password := "";
      studentName := "";
      studentInfo := None;
    }

    /**
     * `handlePhoneChange`: the field keeps only the digits typed. At exactly
     * eight digits the student is looked up by `LookupKey` (the returned key);
     * a found student is kept with its name, anything else clears both.
     */
    method HandlePhoneChange(value: string, lookup: Response<StudentNameResponse>) returns (requested: Option<string>)
      modifies this`phone, this`studentName, this`studentInfo
      ensures Valid()
      ensures phone == OnlyDigits(value)
      ensures requested == if |phone| == 8 then Some(LookupKey(phone)) else None
      ensures studentInfo == if requested.Some? && lookup.Received? then Some(lookup.body) else None
      ensures studentName == if studentInfo.Some? then studentInfo.value.studentName else ""
    {
      phone := OnlyDigits(value);
      if |phone| == 8 {
        requested := Some(LookupKey(phone));
        if lookup.Received? {
          studentName := lookup.body.studentName;
          studentInfo := Some(lookup.body);
        } else {
          studentName := "";
          studentInfo := None;
        }
      } else {
        requested := None;
        studentName := "";
        studentInfo := None;
      }
    }

    /** The password field's setter: any text is stored as typed. */
    method SetPassword(value: string)
      requires Valid()
      modifies this`password
      ensures password == value && Valid()
    {
      password := value;
    }

    /**
     * `handleSubmit`: the outcome of the checks; on success the student is
     * logged in and the menu shown, otherwise nothing changes. While a
     * looked-up student is shown, the phone check cannot be what fails.
     */
    method HandleSubmit() returns (outcome: Result<Student, LoginError>)
      requires Valid()
      modifies app`currentStudent, app`page
      ensures outcome == CheckLogin(phone, password, studentInfo)
      ensures studentInfo.Some? ==> outcome != Err(BadPhone)
      ensures app.currentStudent == if outcome.Ok? then Some(outcome.value) else old(app.currentStudent)
      ensures app.page == if outcome.Ok? then MenuPage else old(app.page)
    {
      outcome := CheckLogin(phone, password, studentInfo);
      if outcome.Ok? {
        app.currentStudent := Some(outcome.value);
        app.page := MenuPage;
      }
    }
  }
}
