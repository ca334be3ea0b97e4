/** The course-review page for administrators (src/app/admin/page.tsx): load
    the stored courses, show one status tab at a time with a count per status,
    and approve or reject pending courses. */
module AdminPage {
  import opened Values
  import opened Seqs
  import opened Catalog

  /** What the load hook does: a non-administrator is sent to "/"; an
      administrator gets the stored list. */
  datatype Load = Redirect(to: string) | Loaded(courses: seq<Course>)

  function LoadCourses(isAdmin: bool, stored: seq<Course>): (r: Load)
    ensures r.Redirect? <==> !isAdmin
    ensures r.Redirect? ==> r.to == "/"
    ensures r.Loaded? ==> r.courses == stored
  {
    if !isAdmin then Redirect("/") else Loaded(stored)
  }

  /** `feedback || course.feedback`: a non-empty new feedback wins. */
  function NewFeedback(feedback: Option<string>, current: Option<string>): Option<string>
  {
    if FalsyString(feedback) then current else feedback
  }

  /** `handleStatusChange`: every course with the id gets the new status, and
      the new feedback when that is non-empty; it does not look at the
      current status. The new list is both written to storage and set as state. */
  function HandleStatusChange(courses: seq<Course>, courseId: string, status: Status, feedback: Option<string>)
    : (r: Saved<Course>)
    ensures r.stored == r.state && |r.state| == |courses|
    ensures forall i :: 0 <= i < |courses| && courses[i].id != courseId ==> r.state[i] == courses[i]
    ensures forall i :: 0 <= i < |courses| && courses[i].id == courseId ==>
              r.state[i] == courses[i].(status := status, feedback := r.state[i].feedback)
              && r.state[i].status == status
              && (FalsyString(feedback) ==> r.state[i].feedback == courses[i].feedback)
              && (!FalsyString(feedback) ==> r.state[i].feedback == feedback)
  {
    var updated := seq(|courses|, i requires 0 <= i < |courses| =>
      if courses[i].id == courseId then courses[i].(status := status, feedback := NewFeedback(feedback, courses[i].feedback))
      else courses[i]);
    Saved(updated, updated)
  }

  /** Repeating a status change changes nothing more. */
  lemma {:induction false} StatusChangeIdempotent(courses: seq<Course>, courseId: string, status: Status,
                                                  feedback: Option<string>)
    ensures var once := HandleStatusChange(courses, courseId, status, feedback).state;
            HandleStatusChange(once, courseId, status, feedback).state == once
  {
    var once := HandleStatusChange(courses, courseId, status, feedback).state;
    var twice := HandleStatusChange(once, courseId, status, feedback).state;
    forall i | 0 <= i < |once|
      ensures twice[i] == once[i]
    {
      assert once[i].id == courses[i].id;
    }
  }

  function HasStatus(status: Status): Course -> bool
  {
    (c: Course) => c.status == status
  }

  /** `filteredCourses`: the courses on the selected tab. */
  function TabView(courses: seq<Course>, tab: Status): (r: seq<Course>)
    ensures forall i :: 0 <= i < |r| ==> r[i] in courses && r[i].status == tab
    ensures forall i :: 0 <= i < |courses| && courses[i].status == tab ==> courses[i] in r
  {
    Filter(HasStatus(tab), courses)
  }

  /** The number shown on a tab: how many courses have its status. */
  function TabCount(courses: seq<Course>, tab: Status): (n: nat)
    ensures n <= |courses|
    ensures n == |set i | 0 <= i < |courses| && courses[i].status == tab|
  {
    assert Positions(HasStatus(tab), courses) == set i | 0 <= i < |courses| && courses[i].status == tab;
    Count(HasStatus(tab), courses)
  }

  /** Every course is on exactly one tab, so the three counts add up to the
      length of the list. */
  lemma {:induction false} TabCountsSum(courses: seq<Course>)
    ensures TabCount(courses, Pending) + TabCount(courses, Approved) + TabCount(courses, Rejected) == |courses|
    decreases |courses|
  {
    if courses != [] {
      var init := courses[..|courses| - 1];
      var last := courses[|courses| - 1];
      assert courses == init + [last];
      TabCountsSum(init);
      FilterSnoc(HasStatus(Pending), init, last);
      FilterSnoc(HasStatus(Approved), init, last);
      FilterSnoc(HasStatus(Rejected), init, last);
    }
  }

  /** After a change to `status`, every course with that id is on the `status` tab. */
  lemma {:induction false} ChangedCourseOnItsTab(courses: seq<Course>, courseId: string, status: Status,
                                                 feedback: Option<string>, i: nat)
    requires i < |courses| && courses[i].id == courseId
    ensures HandleStatusChange(courses, courseId, status, feedback).state[i]
            in TabView(HandleStatusChange(courses, courseId, status, feedback).state, status)
  {
  }

  /** The approve button, offered only on the pending tab: the answer to the
      optional feedback prompt is passed on when non-empty. `None` means the
      button is absent, and nothing changes. */
  function OnApprove(courses: seq<Course>, tab: Status, courseId: string, answer: Option<string>)
    : (r: Option<Saved<Course>>)
    ensures r.Some? <==> tab == Pending
    ensures r.Some? ==> r.value == HandleStatusChange(courses, courseId, Approved, if FalsyString(answer) then None else answer)
  {
    if tab != Pending then None
    else Some(HandleStatusChange(courses, courseId, Approved, if FalsyString(answer) then None else answer))
  }

  /** The reject button, offered only on the pending tab: the change is made
      only when the prompt is answered with a non-empty reason. */
  function OnReject(courses: seq<Course>, tab: Status, courseId: string, answer: Option<string>)
    : (r: Option<Saved<Course>>)
    ensures r.Some? <==> tab == Pending && !FalsyString(answer)
    ensures r.Some? ==> r.value == HandleStatusChange(courses, courseId, Rejected, answer)
  {
    if tab != Pending || FalsyString(answer) then None
    else Some(HandleStatusChange(courses, courseId, Rejected, answer))
  }

  /** An approval on the pending tab always goes through; a blank or
      cancelled feedback prompt keeps the course's earlier feedback. */
  lemma ApprovalKeepsFeedbackWhenBlank(courses: seq<Course>, courseId: string, answer: Option<string>, i: nat)
    requires i < |courses| && courses[i].id == courseId
    ensures OnApprove(courses, Pending, courseId, answer).Some?
    ensures var after := OnApprove(courses, Pending, courseId, answer).value.state;
            after[i].status == Approved
            && after[i].feedback == (if FalsyString(answer) then courses[i].feedback else answer)
  {
  }

  /** A rejection that goes through always leaves its reason on the course. */
  lemma RejectionRecordsReason(courses: seq<Course>, courseId: string, answer: Option<string>, i: nat)
    requires i < |courses| && courses[i].id == courseId
    requires OnReject(courses, Pending, courseId, answer).Some?
    ensures var after := OnReject(courses, Pending, courseId, answer).value.state;
            after[i].status == Rejected && after[i].feedback == answer && !FalsyString(after[i].feedback)
  {
  }
}
