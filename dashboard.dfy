/** The learner's dashboard (src/app/dashboard/page.tsx): the saved courses
    read from the browser's `savedCourses` entry, removal by id, and a search
    over title, author and platform. */
module Dashboard {
  import opened Values
  import opened Strings
  import opened Seqs
  import opened Catalog

  /** `getSavedCourses`: nothing on the server, and nothing when the storage
      entry is absent or empty (`None`); otherwise the parsed list. */
  function GetSavedCourses(onServer: bool, saved: Option<seq<ListedCourse>>): (r: seq<ListedCourse>)
    ensures onServer || saved.None? ==> r == []
    ensures !onServer && saved.Some? ==> r == saved.value
  {
    if onServer then []
    else match saved
      case None => []
      case Some(list) => list
  }

  /** The course is kept by `removeCourse(courseId)`: its id, as a string, differs. */
  function Keeps(courseId: string): ListedCourse -> bool
  {
    (c: ListedCourse) => Decimal(c.id) != courseId
  }

  /** `removeCourse` */
  function RemoveCourse(courses: seq<ListedCourse>, courseId: string): (r: Saved<ListedCourse>)
    ensures r.stored == r.state
    ensures forall i :: 0 <= i < |r.state| ==> Decimal(r.state[i].id) != courseId && r.state[i] in courses
    ensures forall i :: 0 <= i < |courses| && Decimal(courses[i].id) != courseId ==> courses[i] in r.state
  {
    var kept := Filter(Keeps(courseId), courses);
    Saved(kept, kept)
  }

  /** Removal keeps the survivors in their original relative order: it
      distributes over any split of the list. */
  lemma RemoveKeepsOrder(a: seq<ListedCourse>, b: seq<ListedCourse>, courseId: string)
    ensures RemoveCourse(a + b, courseId).state == RemoveCourse(a, courseId).state + RemoveCourse(b, courseId).state
  {
    FilterAppend(Keeps(courseId), a, b);
  }

  /** Removing an id no course has changes nothing. */
  lemma {:induction false} RemoveAbsent(courses: seq<ListedCourse>, courseId: string)
    requires forall i :: 0 <= i < |courses| ==> Decimal(courses[i].id) != courseId
    ensures RemoveCourse(courses, courseId).state == courses
  {
    FilterAllPass(Keeps(courseId), courses);
  }

  /** Removing twice is removing once. */
  lemma {:induction false} RemoveTwice(courses: seq<ListedCourse>, courseId: string)
    ensures RemoveCourse(RemoveCourse(courses, courseId).state, courseId) == RemoveCourse(courses, courseId)
  {
    FilterIdempotent(Keeps(courseId), courses);
  }

  /** The search: title, author or platform contains the query, ignoring case. */
  function MatchesQuery(query: string): ListedCourse -> bool
  {
    (c: ListedCourse) => ContainsIgnoreCase(c.title, query) || ContainsIgnoreCase(c.author, query)
                         || ContainsIgnoreCase(c.platform, query)
  }

  /** `filteredCourses` */
  function FilteredCourses(courses: seq<ListedCourse>, query: string): (r: seq<ListedCourse>)
    ensures forall i :: 0 <= i < |r| ==> r[i] in courses && MatchesQuery(query)(r[i])
    ensures forall i :: 0 <= i < |courses| && MatchesQuery(query)(courses[i]) ==> courses[i] in r
  {
    Filter(MatchesQuery(query), courses)
  }

  /** An empty query shows every saved course, in order. */
  lemma {:induction false} EmptyQueryShowsAll(courses: seq<ListedCourse>)
    ensures FilteredCourses(courses, "") == courses
  {
    forall i | 0 <= i < |courses|
      ensures MatchesQuery("")(courses[i])
    {
      EmptyQueryMatches(courses[i].title);
    }
    FilterAllPass(MatchesQuery(""), courses);
  }
}
