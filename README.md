# SBON leave requests — a Dafny model of the client's page logic

SBON is a school's web client for student leave. A student logs in by phone
number and password. They can then register an *outing* (a day leave with a
departure time and an expected return time) or a *stay-out* (an overnight
leave with departure and return dates). They can also report back from
either one. The application shell holds the shared state: the current page,
the logged-in student, and the outing and stay-out lists. Every page reads
and updates that state, and talks to a backend over HTTP.

This project models the five pages that carry the logic:

- Login looks the student up by phone, checks the password and logs in.
- Outing registration builds the form, rounds the times, resolves reason names and submits.
- Outing return fetches the list, filters it to the student, selects a pending outing and completes it.
- Stay-out registration builds the form, rounds the times and submits.
- Stay-out return fetches the list, keeps the stays still due back, selects one and completes it.

The shared state is the class `AppState.App`. Each page is a class that
holds that `App` next to its own fields, and each event handler is a
method. The pure parts (mapping server rows, filtering, validation and
formatting) are functions. They are specified by lemmas about their
results. Every network reply is a method parameter: `Received(body)` or
`RequestFailed`. The current date, the clock's hour and minute, and the
fresh record id are parameters too.

The JavaScript conversions the pages depend on are written out in
`JsText`:

- `String(n)` and `n.toString()`;
- `Number(s)`;
- `padStart(2, '0')`;
- `slice`;
- removal of non-digits;
- the `>=` comparison of strings.

The model follows the code as written. In these places the code does less
than the page's own wording or comments suggest:

- The time handler rounds minutes 55–59 up to "60" and does not carry into the hour (`TimeFormat.NormalizeTimeNoCarry`).
- No page checks that a return date or time comes after the departure (`StayRegister.ReturnBeforeDepartureAccepted`).
- Completing an outing marks it completed but records no actual return time.
- Completing an outing has no "already completed" check (`OutingReturn.MarkCompletedIdempotent`).
- The stay-out fetch stores the server rows unconverted. Those rows have no `id`, so the completion update on the stay-out return page never matches a row (`StayReturn.CompletionNeverApplies`).
- A stay-out registered on the device adds a record that has no `Seq`, and the stay-out return page cannot render that record (`StayReturn.LocalRowBlocksView`).

## Model

| member | source | states |
|---|---|---|
| Types.ActiveId | src/components/pages/OutingRegisterPage.tsx:131-134 | A student id counts only when a student is logged in and the id is non-empty. The value is that id. |
| AppState.App.constructor | src/App.tsx:13-16 | The shell starts on the login page, with nobody logged in and both lists empty. |
| AppState.App.RedirectIfLoggedOut | src/components/pages/OutingRegisterPage.tsx:29-34 | With nobody logged in the page becomes the login page; otherwise it is unchanged. The stay-out registration page has the same effect (StayRegisterPage.tsx:18-23). |
| Lists.Filter | src/components/pages/OutingReturnPage.tsx:145-147 | Every kept element is an element of the input that passes the test. Every input element that passes is kept. The result is no longer than the input. Order and copies are fixed by `Lists.FilterAppend` and `Lists.FilterSingleton` together. |
| Lists.FilterAppend | src/components/pages/StayReturnPage.tsx:61-65 | Filtering a concatenation gives the concatenation of the filtered parts, so list order is kept. |
| Lists.FilterSingleton | src/components/pages/OutingReturnPage.tsx:145-147 | A one-element list is kept exactly when its element passes. With `FilterAppend` this fixes the result of every filter: the passing elements in input order, duplicates included. |
| Lists.FilterKeepsAll | src/components/pages/OutingReturnPage.tsx:145-147 | When every element passes, the filter returns the list unchanged. |
| Lists.FilterKeepsNone | src/components/pages/LoginPage.tsx:25 | When no element passes, the filter returns the empty list. |
| JsText.NatToString | src/components/pages/OutingRegisterPage.tsx:43 | `String(n)` is a non-empty string of digits, and it starts with '0' exactly when n is 0. |
| JsText.DigitsValueOfNatToString | src/components/pages/StayReturnPage.tsx:48 | Reading the decimal digits of n back gives n. |
| JsText.IntToStringInjective | src/components/pages/StayReturnPage.tsx:48 | `Seq.toString()` is injective: distinct integers print differently. |
| JsText.IntToString | src/components/pages/StayReturnPage.tsx:48 | `toString()` of an integer is non-empty and starts with a minus sign exactly when the integer is negative. For a non-negative integer it is all digits and reads back as the integer, and it starts with '0' only for 0, so it has no leading zeros. For a negative integer the minus sign is followed by digits, with no leading zero, that read back as the absolute value. |
| JsText.ParseNumber | src/components/pages/OutingReturnPage.tsx:73 | `Number(s)` is NaN exactly for a non-empty string that is not all digits. Otherwise it is a non-negative integer, and it is 0 exactly for the empty string or a string of zeros. A string of digits reads as its decimal value, leading zeros included ("07" is 7). |
| JsText.Slice | src/components/pages/LoginPage.tsx:26 | `slice(lo, hi)` has the clamped length, and character k of the slice is character lo + k of the string. |
| JsText.PadStart2 | src/components/pages/OutingRegisterPage.tsx:81 | `padStart(2, '0')` returns at least two characters. The input is the suffix and the added prefix is all zeros. |
| JsText.PadStart2RoundTrip | src/components/pages/OutingRegisterPage.tsx:77-81 | A two-digit field read with `Number` and padded again comes back unchanged. |
| JsText.PadStart2Value | src/components/pages/OutingRegisterPage.tsx:81 | A number below 100 pads to two digits that read back as the number. |
| JsText.OnlyDigits | src/components/pages/LoginPage.tsx:25 | Removing non-digits leaves only digits. |
| JsText.OnlyDigitsOfDigits | src/components/pages/LoginPage.tsx:25 | A string of digits passes through the removal unchanged. |
| JsText.LexLe | src/components/pages/StayReturnPage.tsx:64 | A string compares as at most each of its extensions. A non-empty string compares as at most only a non-empty string whose first character is not smaller. |
| JsText.LexLeReflexive | src/components/pages/StayReturnPage.tsx:64 | String `>=` holds between a date and itself. |
| JsText.LexLeTransitive | src/components/pages/StayReturnPage.tsx:64 | String `>=` is transitive. |
| JsText.LexLeCommonPrefix | src/components/pages/StayReturnPage.tsx:64 | Two strings that share a prefix compare as their remainders compare. |
| ReasonCatalog.FindName | src/components/pages/OutingRegisterPage.tsx:99-104 | A non-empty name comes from a catalog entry with the code. A code with no entry gives "". |
| ReasonCatalog.FindNameFirst | src/components/pages/OutingRegisterPage.tsx:144-146 | The name is taken from the first entry with the code. |
| TimeFormat.RoundMinutes | src/components/pages/OutingRegisterPage.tsx:80 | The rounded minute is a multiple of ten within 5 of the minute, halves round up, and a minute already on a step is kept. It is 60 exactly for minutes 55–59. |
| TimeFormat.NormalizeTime | src/components/pages/OutingRegisterPage.tsx:75-83 | A cleared time input is stored as "00:NaN". |
| TimeFormat.TimeStringIsTimeValue | src/components/pages/OutingRegisterPage.tsx:43 | An hour below 24 and a minute below 60 print as a valid "HH:MM" value that reads back as the same hour and minute. |
| TimeFormat.NormalizeTimeKeepsHour | src/components/pages/OutingRegisterPage.tsx:77-81 | The handler keeps the hour characters and stores the rounded minute as two digits. |
| TimeFormat.NormalizeTimeKeepsRounded | src/components/pages/OutingRegisterPage.tsx:77-81 | A time on a ten-minute step is stored exactly as entered. |
| TimeFormat.NormalizeTimeNoCarry | src/components/pages/StayRegisterPage.tsx:62-66 | Minutes 55–59 are stored as the same hour with "60", which is not a valid time. |
| TimeFormat.NormalizeTimeIdempotent | src/components/pages/StayRegisterPage.tsx:60-68 | Below minute 55 the stored time is valid, on a ten-minute step, and unchanged when handled again. |
| TimeFormat.DefaultTime | src/components/pages/OutingRegisterPage.tsx:40-43 | The initial time (printed by `TimeString`) is always a valid time. From minute 55 on it carries into the next hour (23 wraps to 0) at minute 0; otherwise it keeps the hour with the rounded minute. |
| TimeFormat.DefaultTimeVersusNormalize | src/components/pages/StayRegisterPage.tsx:29-32 | The initial time equals the handled clock time exactly when the minute is below 55. |
| OutingReturn.FromServerRows | src/components/pages/OutingReturnPage.tsx:57-77 | An absent body gives the empty list. Otherwise every row is reshaped, one record per row, in order. |
| OutingReturn.FromServerRow | src/components/pages/OutingReturnPage.tsx:63-77 | A reshaped row belongs to the given student and is pending. Its seq is a number exactly when the row's `Seq` is empty or all digits. It has an actual return time exactly when the row has a non-empty one (`NonEmpty`, the `|| undefined`), and then it is that time. |
| OutingReturn.FetchedRequestsShape | src/components/pages/OutingReturnPage.tsx:63-77 | A fetched record has the id date_time, and it keeps the row's date, departure time and reason. It belongs to the fetching student and is pending. Its seq is `Number(Seq)`, and its other fields are empty. It has an actual return time exactly when the row has a non-empty one, and then it is that time. |
| OutingReturn.SharedSlotCompletedTogether | src/components/pages/OutingReturnPage.tsx:64 | The id comes from the date and departure time alone. So when two fetched rows share both, completing one of them completes both. |
| OutingReturn.FetchedAllVisible | src/components/pages/OutingReturnPage.tsx:145-147 | Right after the logged-in student's fetch, the page lists the whole fetched list. |
| OutingReturn.Visible | src/components/pages/OutingReturnPage.tsx:145-147 | With nobody logged in nothing is listed. Otherwise the listed requests are exactly the list's requests with the student's id (`OwnedBy`), and there are no more of them than the list has. |
| OutingReturn.Offered | src/components/pages/OutingReturnPage.tsx:186 | A request gets a return button exactly when a student is logged in, the request is in the list with that student's id, and it is pending. |
| OutingReturn.VisibleEmpty | src/components/pages/OutingReturnPage.tsx:145-147 | With nobody logged in, or an empty list, nothing is listed. |
| OutingReturn.MarkCompleted | src/components/pages/OutingReturnPage.tsx:121-128 | The length is kept. An entry is completed afterwards exactly when it has the selected id or was already completed. No other field changes. |
| OutingReturn.MarkCompletedIdempotent | src/components/pages/OutingReturnPage.tsx:122-127 | Completing the same id twice equals completing it once: there is no already-completed check. |
| OutingReturn.MarkCompletedAppend | src/components/pages/OutingReturnPage.tsx:123-127 | Completion applies element by element across a concatenation. |
| OutingReturn.MarkCompletedVisible | src/components/pages/OutingReturnPage.tsx:121-147 | Completing and then filtering to the student gives the same list as filtering and then completing. |
| OutingReturn.OutingReturnPage.constructor | src/components/pages/OutingReturnPage.tsx:39-41 | No selection, return type "복귀", empty note. |
| OutingReturn.OutingReturnPage.FetchOutingList | src/components/pages/OutingReturnPage.tsx:47-87 | Without a student id nothing happens. A failed request keeps the list; a reply replaces it with the reshaped rows. |
| OutingReturn.OutingReturnPage.Open | src/components/pages/OutingReturnPage.tsx:89-98 | With nobody logged in the page becomes the login page and the list is kept; otherwise the list is fetched. |
| OutingReturn.OutingReturnPage.Select | src/components/pages/OutingReturnPage.tsx:186-193 | A listed pending request becomes the selection, and the return type and note are reset. |
| OutingReturn.OutingReturnPage.Cancel | src/components/pages/OutingReturnPage.tsx:247-251 | The selection is dropped and the return type and note are reset. |
| OutingReturn.OutingReturnPage.HandleReturn | src/components/pages/OutingReturnPage.tsx:100-142 | With no selection or student id nothing is posted. Otherwise it posts the selection's date and seq with the return type and note. Only a reply with a non-empty message completes the selected id and resets the selection, type and note; otherwise everything is kept. |
| OutingRegister.ValidateOuting | src/components/pages/OutingRegisterPage.tsx:121-148 | The first failing check decides the error: date, time or return time missing, then no reason 1, then no student id. A form that passes yields the payload, with both reason names looked up in the catalogs. |
| OutingRegister.NewOuting | src/components/pages/OutingRegisterPage.tsx:154-161 | The appended outing has the new id, belongs to the submitting student, is pending with seq 0 and no actual return time, and carries every form field. |
| OutingRegister.AppendedOutingVisible | src/components/pages/OutingRegisterPage.tsx:154-163 | A registered outing is appended pending with seq 0 and no actual return time. It shows, with a return button, at the end of its student's list. |
| OutingRegister.PayloadMatchesNewOuting | src/components/pages/OutingRegisterPage.tsx:138-161 | When the form's names came from the catalogs, the appended record and the posted payload agree on every shared field. |
| OutingRegister.OutingRegisterPage.constructor | src/components/pages/OutingRegisterPage.tsx:36-57 | The form is `OutingRegister.InitialForm`: today's date, the rounded clock time and otherwise empty fields. Both catalogs are empty. |
| OutingRegister.OutingRegisterPage.LoadReasons | src/components/pages/OutingRegisterPage.tsx:60-72 | A reply fills both catalogs with the same list; a failure keeps them. |
| OutingRegister.OutingRegisterPage.HandleTimeChange | src/components/pages/OutingRegisterPage.tsx:75-89 | Only the changed time field is set, to the normalized value. |
| OutingRegister.OutingRegisterPage.HandleReason1Change | src/components/pages/OutingRegisterPage.tsx:91-106 | An empty choice changes nothing. Any other choice sets the code and its catalog name. |
| OutingRegister.OutingRegisterPage.HandleReason2Change | src/components/pages/OutingRegisterPage.tsx:108-117 | Any choice, the empty one included, sets the code and its catalog name. |
| OutingRegister.OutingRegisterPage.HandleSubmit | src/components/pages/OutingRegisterPage.tsx:119-171 | Posts exactly the validated payload. On acceptance it appends the new pending record and goes to the menu; otherwise the list and page are kept. |
| StayRegister.ValidateStay | src/components/pages/StayRegisterPage.tsx:78-97 | The fields check fails when any of the five required fields is empty, then the student check when there is no id; otherwise it yields the payload. |
| StayRegister.ReturnBeforeDepartureAccepted | src/components/pages/StayRegisterPage.tsx:78-81 | Every filled-in form passes validation for a logged-in student, even when its return date comes before its departure date in string order. The payload keeps both dates as entered. |
| StayRegister.NewStay | src/components/pages/StayRegisterPage.tsx:101-110 | The appended stay has the new id and the submitting student. It is pending with seq 0, no actual return date or time and an empty note, and it carries every form field. |
| StayRegister.StayRegisterPage.constructor | src/components/pages/StayRegisterPage.tsx:25-43 | The form is `StayRegister.InitialForm`: today's date, the rounded clock time and otherwise empty fields. The catalog is empty. |
| StayRegister.StayRegisterPage.LoadReasons | src/components/pages/StayRegisterPage.tsx:45-56 | A reply fills the catalog; a failure keeps it. |
| StayRegister.StayRegisterPage.HandleTimeChange | src/components/pages/StayRegisterPage.tsx:60-74 | Only the changed time field is set, to the normalized value. |
| StayRegister.StayRegisterPage.HandleSubmit | src/components/pages/StayRegisterPage.tsx:77-119 | Posts exactly the validated payload. On acceptance it appends the new pending stay as a local record and goes to the menu; otherwise the list and page are kept. |
| StayReturn.ViewRows | src/components/pages/StayReturnPage.tsx:47-60 | The page renders exactly when every list entry is a server row. It then shows one view record per row, in order, reshaped from that row. |
| StayReturn.ToView | src/components/pages/StayReturnPage.tsx:47-60 | A view record's id is `Seq.toString()`. The record keeps the row's `Seq`, dates and reason. Its departure time, expected return time, other reason and note are empty. It belongs to the given student id (`ViewStudentId`: the logged-in id, or "") and is pending with no actual return. |
| StayReturn.ViewIdNumber | src/components/pages/StayReturnPage.tsx:48 | For a non-negative `Seq`, the view id read back with `Number` gives the `Seq`. |
| StayReturn.PendingRequests | src/components/pages/StayReturnPage.tsx:47-65 | The returnable list exists exactly when every list entry is a server row. It then has no more entries than the list. Every entry is the view of some row of the list, is pending, and is due back on or after today (`DueOnOrAfter`). |
| StayReturn.MarkCompleted | src/components/pages/StayReturnPage.tsx:85-96 | The length is kept. A local record with the selection's id becomes completed, with the selection's return date and time as the actual ones. Every other entry, every server row included, is unchanged. |
| StayReturn.CompletionNeverApplies | src/components/pages/StayReturnPage.tsx:85-96 | Whenever the page renders, the completion update leaves the stay list unchanged. |
| StayReturn.LocalRowBlocksView | src/components/pages/StayRegisterPage.tsx:101-112 | After a stay registered on this device is appended, the stay-out return page cannot render. |
| StayReturn.RendersIffNoLocalRows | src/components/pages/StayReturnPage.tsx:47-65 | The returnable list exists exactly when the stay list holds only server rows. |
| StayReturn.ViewRowsAppend | src/components/pages/StayReturnPage.tsx:47-60 | The view of a concatenation is the concatenation of the views. |
| StayReturn.PendingRequestsAppend | src/components/pages/StayReturnPage.tsx:47-65 | The returnable list of a concatenation is the concatenation of the returnable lists, in order. |
| StayReturn.PendingRequestsMembers | src/components/pages/StayReturnPage.tsx:61-65 | A fetched stay is listed exactly when its return date is on or after today. |
| StayReturn.ReturnableBoundary | src/components/pages/StayReturnPage.tsx:63-64 | For every row, a stay due back today passes the returnable filter `DueOnOrAfter`, so by `StayReturn.PendingRequestsMembers` it is listed. One due back on a date that first differs from today in a lower character, as the day before does in ISO form, fails the filter and so is not listed. |
| StayReturn.ReturnableShrinks | src/components/pages/StayReturnPage.tsx:61-65 | As today advances, a stay can drop out of the returnable list but never join it. |
| StayReturn.ViewIdsDistinct | src/components/pages/StayReturnPage.tsx:48 | Rows with distinct `Seq` get distinct view ids. |
| StayReturn.StayReturnPage.constructor | src/components/pages/StayReturnPage.tsx:20-22 | No selection, return type "NORMAL", empty note. |
| StayReturn.StayReturnPage.FetchStayList | src/components/pages/StayReturnPage.tsx:25-44 | Without a student id nothing happens. A failed request keeps the list; a reply stores the rows unconverted. |
| StayReturn.StayReturnPage.Select | src/components/pages/StayReturnPage.tsx:68-70 | A listed stay becomes the selection. |
| StayReturn.StayReturnPage.Cancel | src/components/pages/StayReturnPage.tsx:180 | The selection is dropped. |
| StayReturn.StayReturnPage.HandleReturnSubmit | src/components/pages/StayReturnPage.tsx:72-104 | With no selection nothing is posted. Otherwise it posts the selection's date and seq with the return type and note. On acceptance it applies the completion update and goes to the menu; on failure everything is kept. |
| Login.DisplayPhone | src/components/pages/LoginPage.tsx:122 | Up to four digits are shown as they are. Beyond four, a dash follows the fourth digit and at most eight digits are shown, so the shown text never exceeds the field's nine characters. |
| Login.LookupKey | src/components/pages/LoginPage.tsx:26 | No digits give the empty key. Otherwise the key is "010-" followed by the number as the field shows it. |
| Login.DisplayRoundTrip | src/components/pages/LoginPage.tsx:122 | Reading the shown number back through the digit filter gives the stored digits, cut to eight. |
| Login.LookupKeyDigits | src/components/pages/LoginPage.tsx:25-26 | The digits of the lookup key are "010" followed by the stored digits, cut to eight. |
| Login.LookupKeyOfEightDigits | src/components/pages/LoginPage.tsx:26-32 | At eight digits the key is "010-dddd-dddd", 13 characters long. |
| Login.CheckLogin | src/components/pages/LoginPage.tsx:58-95 | The first failing check decides the error: not exactly eight digits, then no password, then no looked-up student, then the wrong password. Login succeeds exactly when all pass, and the student record has the printed grade, the typed phone and empty class and number. |
| Login.LoginPage.constructor | src/components/pages/LoginPage.tsx:18-22 | All fields are empty and no student is looked up. |
| Login.LoginPage.HandlePhoneChange | src/components/pages/LoginPage.tsx:24-56 | The digits of the input are stored. Only at exactly eight digits is the lookup made, by `LookupKey`. A reply stores the student and its name; anything else clears both. It keeps the invariant that a looked-up student sits beside eight digits. |
| Login.LoginPage.SetPassword | src/components/pages/LoginPage.tsx:144 | The password is stored as typed and the invariant is kept. |
| Login.LoginPage.HandleSubmit | src/components/pages/LoginPage.tsx:58-101 | The outcome is `CheckLogin` of the page state, and it is never the phone error while a student is looked up. On success the student is logged in and the menu shown; otherwise nothing changes. |

## Left out

- Network calls are not modelled as such. Each reply is a parameter, and the endpoint URLs and HTTP details are not part of this model.
- The rendering is not modelled, apart from the lists and buttons that decide what a handler may receive. Alerts, console logging, modals, loading flags and the input's blur are also left out.
- `new Date()` and `Date.now()` are not modelled. Today's date, the clock's hour and minute, and the id of a new record are parameters.
- Asynchronous interleaving is not modelled. Each handler runs to completion with its reply, so replies arriving out of order are not represented. One consequence is `Login.LoginPage.Valid()`, which ties a looked-up student to exactly eight digits. In the page, a lookup for eight digits can resolve after a digit has been deleted. The student is then kept beside seven digits, and the submit fails on the phone check. `Login.LoginPage.HandleSubmit`'s promise that the phone check never fails while a student is looked up holds only under this run-to-completion reading.
- The setters wired straight into the markup are not modelled: the date inputs, the other-reason and stay-reason fields, and the return type and note. Each only stores the typed value.
- Navigation buttons, the menu page and the shell's own redirect are not part of this model.
- JsText.ParseNumber: `Number(s)` is modelled for the empty string and plain digit strings only. Any other string (signs, spaces, decimals, exponents) reads as NaN.
- Login.CheckLogin: `Grade.toString()` is modelled for integer grades only.
- The time inputs are taken as "HH:MM" values or as cleared (""). Other strings are not modelled.
- An outing-list reply whose body is missing is modelled as an absent list. A stay-list reply is always a list, so a missing body, which the page would then fail to map, is not modelled.
- The stay view is modelled as not rendering as soon as the list holds a local record. The error the page would throw there is not modelled further.
- JsText.IntToString: JavaScript prints numbers of 1e21 and above in exponent form and loses integer precision above 2^53. Here integers are unbounded and always print in full, which matters only for `Seq` and grade values far beyond realistic ones.
- JsText.LexLe: JavaScript compares strings by UTF-16 code units, while this model compares Unicode characters. The two agree on the ASCII dates the pages compare.
