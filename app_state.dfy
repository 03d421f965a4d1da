/** The state the application shell shares with every page. */
module AppState {
  import opened Types

  class App {
    var page: Page
    var currentStudent: Option<Student>
    var outingRequests: seq<OutingRequest>
    var stayRows: seq<StayRow>

    /** The shell starts on the login page with nobody logged in and both lists empty. */
    constructor ()
      ensures page == LoginPage && currentStudent == None
      ensures outingRequests == [] && stayRows == []
    {
      page := LoginPage;
      currentStudent := None;
      outingRequests := [];
      stayRows := [];
    }

    /** The registration pages' mount effect: with nobody logged in, go to the login page. */
    method RedirectIfLoggedOut()
      modifies this`page
      ensures page == if currentStudent.None? then LoginPage else old(page)
    {
      if currentStudent.None? {
        page := LoginPage;
      }
    }
  }
}
