/** The enrollment wizard page (src/backup/enrollment.ts): the module state
    (catalogue and selection), the visible panels, and the handlers of the page
    load, the options fetch, the checkboxes and the wizard buttons. Markup is
    replaced by row descriptors; alerts, API requests and navigations are
    recorded in fields so that the contracts can speak about them. */
module Enrollment {
  import opened Outcomes
  import opened EnrollmentView

  /** The three panels of the wizard (`step-1`, `step-2`, `step-3`). */
  datatype Step = Step1 | Step2 | Step3

  /** The query parameters read on load. */
  datatype Query = Query(step: Option<string>, year: Option<string>, sem: Option<string>)

  /** Where a navigation sends the browser; every one reloads the page. */
  datatype Target =
    | EnrollmentStart                           // /enrollment
    | EnrollmentTerm(year: string, sem: string) // /enrollment?step=2&year=…&sem=…
    | StudentSchedule                           // /student_schedule
    | LoginPage                                 // /login, set by apiRequest on a 401

  /** The calls the page makes to the API. */
  datatype Request = GetOptions | SubmitSections(sectionIds: seq<int>)

  /** The body of `GET /enrollment/options`. */
  datatype Offering = Offering(termName: string, studentType: string,
                               sections: seq<Section>, enrollmentStatus: string)

  const SelectAtLeastOne: string := "Please select at least one subject."
  const FailurePrefix: string := "Enrollment Failed: "
  /** What the V8 engine (Chromium browsers) reports when `response.message`
      is read from `null`; other engines word it differently. */
  const NullResponseError: string := "Cannot read properties of null (reading 'message')"

  /** The panel the routing reveals: step 2 exactly for `step=2`, step 1 for
      any other value and for a missing parameter. */
  function Route(step: Option<string>): (s: Step)
    ensures s == Step2 <==> step == Some("2")
    ensures s != Step3
  {
    if step == Some("2") then Step2 else Step1
  }

  /** The query string a navigation to the enrollment page carries. */
  function QueryOf(t: Target): Query
    requires t.EnrollmentStart? || t.EnrollmentTerm?
  {
    match t
    case EnrollmentStart => Query(None, None, None)
    case EnrollmentTerm(year, sem) => Query(Some("2"), Some(year), Some(sem))
  }

  /** Choosing a term reloads the page on step 2 with that term in the header;
      cancelling step 2 reloads it on step 1. */
  lemma ReloadRoutes(year: string, sem: string)
    ensures Route(QueryOf(EnrollmentTerm(year, sem)).step) == Step2
    ensures HeaderText(QueryOf(EnrollmentTerm(year, sem)).year) == (if year == "" then None else Some(year))
    ensures HeaderText(QueryOf(EnrollmentTerm(year, sem)).sem) == (if sem == "" then None else Some(sem))
    ensures Route(QueryOf(EnrollmentStart).step) == Step1
  {
  }

  /** A header field is overwritten only by a present, non-empty parameter;
      `None` leaves the markup's own text. */
  function HeaderText(param: Option<string>): (r: Option<string>)
    ensures r.Some? ==> r == param && r.value != ""
    ensures r.None? ==> param.None? || param.value == ""
  {
    if Truthy(param) then param else None
  }

  class WizardPage {
    var visible: set<Step>          // panels without the `hidden` class
    var displayYear: Option<string>
    var displaySem: Option<string>
    var awaitingOptions: bool       // the options request is still pending
    var sections: seq<Section>      // availableSections
    var table: seq<Row>             // rows of the step-2 table
    var checked: seq<bool>          // state of each row's checkbox
    var selected: seq<int>          // selectedSectionIds, in insertion order
    var shownTotal: int             // total-units-display
    var confirmation: seq<ConfirmRow>  // rows of the step-3 table
    var finalUnits: int             // final-units
    var requests: seq<Request>
    var alerts: seq<string>
    var navigation: Option<Target>

    /** The table shows the catalogue (or nothing yet, before the options
        arrive), and the boxes, selection and total agree. */
    ghost predicate Valid()
      reads this
    {
      Consistent(table, checked, selected, shownTotal) &&
      (awaitingOptions ==> table == []) &&
      ((table == [] && sections == []) || table == RenderRows(sections))
    }

    /** `initEnrollment`: a page load routes on the `step` parameter; step 2
        fills the header from `year`/`sem` and requests the options. */
    constructor Load(q: Query, markup: set<Step>)
      ensures Valid()
      ensures Route(q.step) == Step2 ==>
                visible == markup - {Step1} + {Step2} &&
                displayYear == HeaderText(q.year) && displaySem == HeaderText(q.sem) &&
                awaitingOptions && requests == [GetOptions]
      ensures Route(q.step) == Step1 ==>
                visible == markup + {Step1} - {Step2} &&
                displayYear == None && displaySem == None &&
                !awaitingOptions && requests == []
      ensures sections == [] && table == [] && checked == [] && selected == [] && shownTotal == 0
      ensures confirmation == [] && finalUnits == 0 && alerts == [] && navigation == None
    {
      sections, table, checked, selected, shownTotal := [], [], [], [], 0;
      confirmation, finalUnits, alerts, navigation := [], 0, [], None;
      if q.step == Some("2") {
        visible := markup - {Step1} + {Step2};
        displayYear, displaySem := HeaderText(q.year), HeaderText(q.sem);
        awaitingOptions, requests := true, [GetOptions];
      } else {
        visible := markup + {Step1} - {Step2};
        displayYear, displaySem := None, None;
        awaitingOptions, requests := false, [];
      }
    }

    /** The rest of `fetchEnrollmentOptions`: a successful response replaces
        the catalogue wholesale and redraws the table with every box
        unchecked; an error or a 401 leaves the catalogue as it was. */
    method OptionsArrived(response: ApiResponse<Offering>)
      requires Valid() && awaitingOptions
      modifies this`awaitingOptions, this`sections, this`table, this`checked, this`navigation
      ensures Valid() && !awaitingOptions
      ensures response.Data? ==>
                sections == response.value.sections && table == RenderRows(sections) &&
                |checked| == |table| && (forall i :: 0 <= i < |checked| ==> !checked[i])
      ensures !response.Data? ==>
                sections == old(sections) && table == old(table) && checked == old(checked)
      ensures navigation == (if response.Unauthorized? then Some(LoginPage) else old(navigation))
    {
      awaitingOptions := false;
      match response
      case Data(offering) =>
        sections := offering.sections;
        table := RenderRows(sections);
        checked := seq(|table|, _ => false);
        FreshRowsConsistent(table);
      case ApiError(_) =>
      case Unauthorized =>
        navigation := Some(LoginPage);
    }

    /** The change listener of row `i`'s checkbox: add or delete its section
        number, then recompute the total over the checked boxes. */
    method Toggle(i: nat)
      requires Valid()
      requires i < |table| && table[i].SectionRow? && table[i].enabled
      modifies this`checked, this`selected, this`shownTotal
      ensures Valid()
      ensures checked == old(checked)[i := !old(checked)[i]]
      ensures selected == Toggled(old(selected), table[i].id, checked[i])
      ensures shownTotal == CheckedUnits(table, checked)
      ensures UniqueIds(sections) ==> shownTotal == SumUnits(Selected(sections, Elems(selected)))
    {
      ToggleKeepsConsistent(table, checked, selected, shownTotal, i);
      checked := checked[i := !checked[i]];
      var id := table[i].id;
      if checked[i] {
        selected := Added(selected, id);
      } else {
        selected := Deleted(selected, id);
      }
      shownTotal := TotalOfChecked(table, checked);
      if UniqueIds(sections) {
        TotalsAgree(sections, checked, selected, shownTotal);
      }
    }

    /** The step-2 "next" button: refused with an alert when nothing is
        selected; otherwise step 3 replaces step 2 and the confirmation is
        drawn from the catalogue filtered by the selection. */
    method ToConfirmation()
      requires Valid()
      modifies this`visible, this`alerts, this`confirmation, this`finalUnits
      ensures Valid()
      ensures selected == [] ==>
                visible == old(visible) && alerts == old(alerts) + [SelectAtLeastOne] &&
                confirmation == old(confirmation) && finalUnits == old(finalUnits)
      ensures selected != [] ==>
                visible == old(visible) - {Step2} + {Step3} && alerts == old(alerts) &&
                confirmation == Numbered(Selected(sections, Elems(selected))) &&
                finalUnits == SumUnits(Selected(sections, Elems(selected)))
      ensures selected != [] && UniqueIds(sections) ==>
                |confirmation| == |selected| && finalUnits == shownTotal
    {
      NoTableNoSelection(table, checked, selected, shownTotal);
      if |selected| == 0 {
        alerts := alerts + [SelectAtLeastOne];
        return;
      }
      visible := visible - {Step2} + {Step3};
      confirmation, finalUnits := BuildConfirmation(sections, Elems(selected));
      if UniqueIds(sections) {
        ConfirmationSize(sections, checked, selected, shownTotal);
        TotalsAgree(sections, checked, selected, shownTotal);
      }
    }

    /** Cancel on step 3: back to step 2, selection and boxes kept. */
    method CancelConfirmation()
      requires Valid()
      modifies this`visible
      ensures Valid()
      ensures visible == old(visible) - {Step3} + {Step2}
    {
      visible := visible - {Step3} + {Step2};
    }

    /** The step-1 "next" button: navigate (reload) to step 2 for the term. */
    method ChooseTerm(year: string, sem: string)
      requires Valid()
      modifies this`navigation
      ensures Valid()
      ensures navigation == Some(EnrollmentTerm(year, sem))
    {
      navigation := Some(EnrollmentTerm(year, sem));
    }

    /** Cancel on step 2: navigate (reload) to step 1, losing all state. */
    method CancelSelection()
      requires Valid()
      modifies this`navigation
      ensures Valid()
      ensures navigation == Some(EnrollmentStart)
    {
      navigation := Some(EnrollmentStart);
    }

    /** The final "enroll" button: post the selection in insertion order; on
        success alert the server's message and go to the schedule, otherwise
        alert the failure and stay. After a 401 `apiRequest` has already sent
        the browser to the login page and returned `null`, and reading the
        message from it fails into the same alert. */
    method Submit(response: ApiResponse<string>)
      requires Valid()
      modifies this`requests, this`alerts, this`navigation
      ensures Valid()
      ensures requests == old(requests) + [SubmitSections(selected)]
      ensures response.Data? ==>
                alerts == old(alerts) + [response.value] && navigation == Some(StudentSchedule)
      ensures response.ApiError? ==>
                alerts == old(alerts) + [FailurePrefix + response.message] && navigation == old(navigation)
      ensures response.Unauthorized? ==>
                alerts == old(alerts) + [FailurePrefix + NullResponseError] && navigation == Some(LoginPage)
    {
      requests := requests + [SubmitSections(selected)];
      match response
      case Data(message) =>
        alerts := alerts + [message];
        navigation := Some(StudentSchedule);
      case ApiError(message) =>
        alerts := alerts + [FailurePrefix + message];
      case Unauthorized =>
        navigation := Some(LoginPage);
        alerts := alerts + [FailurePrefix + NullResponseError];
    }
  }
}
