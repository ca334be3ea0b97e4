/** The public catalogue page (src/app/courses/page.tsx). On load it reads the
    stored courses, gives every course without an id the id "index + 1"
    (changing the stored objects in place), and keeps the public, approved
    ones; the displayed list then applies the search, level and price filters. */
module CoursesPage {
  import opened Values
  import opened Strings
  import opened Seqs
  import opened Catalog

  datatype LevelChoice = AllLevels | LevelIs(level: Level)

  datatype PriceChoice = AllPrices | Free | Paid

  /** `course.visibility === 'public' && course.status === 'approved'` */
  predicate IsListed(c: Course)
  {
    c.visibility == "public" && c.status == Approved
  }

  /** The stored list after the load hook: a course whose id is falsy gets the
      (decimal form of the) number of its position in the whole stored list,
      counting from 1; every other course is untouched. */
  function Backfilled(s: seq<Course>): (r: seq<Course>)
    ensures |r| == |s|
    ensures forall i :: 0 <= i < |s| && s[i].id != "" ==> r[i] == s[i]
    ensures forall i :: 0 <= i < |s| && s[i].id == "" ==> r[i] == s[i].(id := Decimal(i + 1))
  {
    seq(|s|, i requires 0 <= i < |s| => BackfillAt(s[i], i))
  }

  /** The course at position `i` after the back-fill. */
  function BackfillAt(c: Course, i: nat): Course
  {
    if c.id == "" then c.(id := Decimal(i + 1)) else c
  }

  /** After the back-fill every stored course has a non-empty id, and only the
      id of an id-less course changed. */
  lemma BackfilledHasIds(s: seq<Course>)
    ensures forall i :: 0 <= i < |s| ==> Backfilled(s)[i].id != ""
    ensures forall i :: 0 <= i < |s| ==> Backfilled(s)[i] == s[i].(id := Backfilled(s)[i].id)
  {
  }

  /** The load hook: back-fills ids in the stored array, in place, while
      collecting the public, approved courses in stored order. */
  method LoadPublicCourses(stored: array<Course>) returns (listed: seq<Course>)
    modifies stored
    ensures stored[..] == Backfilled(old(stored[..]))
    ensures listed == Filter(IsListed, stored[..])
  {
    ghost var original := stored[..];
    ghost var done: seq<Course> := [];
    listed := [];
    var i := 0;
    while i < stored.Length
      invariant 0 <= i <= stored.Length
      invariant |done| == i && done == stored[..i]
      invariant forall k :: 0 <= k < i ==> done[k] == BackfillAt(original[k], k)
      invariant forall k :: i <= k < stored.Length ==> stored[k] == original[k]
      invariant listed == Filter(IsListed, done)
    {
      var c := BackfillAt(stored[i], i);
      stored[i] := c;
      FilterSnoc(IsListed, done, c);
      done := done + [c];
      if IsListed(c) {
        listed := listed + [c];
      }
      i := i + 1;
    }
    assert stored[..] == done;
  }

  /** What the page lists after loading: only public, approved courses, each
      with an id, and every public, approved stored course is among them. */
  lemma {:induction false} ListedAfterLoad(s: seq<Course>)
    ensures forall i :: 0 <= i < |Filter(IsListed, Backfilled(s))| ==>
              var c := Filter(IsListed, Backfilled(s))[i]; IsListed(c) && c.id != ""
    ensures forall i :: 0 <= i < |s| && IsListed(s[i]) ==> Backfilled(s)[i] in Filter(IsListed, Backfilled(s))
  {
    var b := Backfilled(s);
    var r := Filter(IsListed, b);
    forall i | 0 <= i < |r|
      ensures IsListed(r[i]) && r[i].id != ""
    {
      var j :| 0 <= j < |b| && b[j] == r[i];
    }
  }

  /** The search matches title, description or instructor, ignoring case. */
  predicate MatchesSearch(c: Course, search: string)
  {
    ContainsIgnoreCase(c.title, search) || ContainsIgnoreCase(c.description, search)
    || ContainsIgnoreCase(c.instructor, search)
  }

  predicate MatchesLevel(c: Course, level: LevelChoice)
  {
    level.AllLevels? || c.level == level.level
  }

  /** "free" keeps a price equal to 0, "paid" a price above 0; a course
      without a price fails both. */
  predicate MatchesPrice(c: Course, price: PriceChoice)
  {
    match price
    case AllPrices => true
    case Free => c.price == Some(0.0)
    case Paid => c.price.Some? && c.price.value > 0.0
  }

  predicate Shown(c: Course, search: string, level: LevelChoice, price: PriceChoice)
  {
    MatchesSearch(c, search) && MatchesLevel(c, level) && MatchesPrice(c, price)
  }

  /** `filteredCourses` */
  function FilteredCourses(courses: seq<Course>, search: string, level: LevelChoice, price: PriceChoice)
    : (r: seq<Course>)
    ensures forall i :: 0 <= i < |r| ==> r[i] in courses && Shown(r[i], search, level, price)
    ensures forall i :: 0 <= i < |courses| && Shown(courses[i], search, level, price) ==> courses[i] in r
  {
    Filter(c => Shown(c, search, level, price), courses)
  }

  /** A course without a price is shown only when the price filter is "all". */
  lemma {:induction false} UnpricedOnlyUnderAll(courses: seq<Course>, search: string, level: LevelChoice,
                                                price: PriceChoice, i: nat)
    requires i < |courses| && courses[i].price.None?
    requires courses[i] in FilteredCourses(courses, search, level, price)
    ensures price == AllPrices
  {
    var r := FilteredCourses(courses, search, level, price);
    var j :| 0 <= j < |r| && r[j] == courses[i];
    assert MatchesPrice(r[j], price);
  }

  /** The three filters commute with splitting the list: the displayed list
      keeps the stored order. */
  lemma FilteredKeepsOrder(a: seq<Course>, b: seq<Course>, search: string, level: LevelChoice, price: PriceChoice)
    ensures FilteredCourses(a + b, search, level, price)
            == FilteredCourses(a, search, level, price) + FilteredCourses(b, search, level, price)
  {
    FilterAppend(c => Shown(c, search, level, price), a, b);
  }

  /** With an empty search and every filter at "all", the whole list is shown. */
  lemma NoFilterShowsAll(courses: seq<Course>)
    ensures FilteredCourses(courses, "", AllLevels, AllPrices) == courses
  {
    forall i | 0 <= i < |courses|
      ensures Shown(courses[i], "", AllLevels, AllPrices)
    {
      EmptyQueryMatches(courses[i].title);
    }
    FilterAllPass(c => Shown(c, "", AllLevels, AllPrices), courses);
  }
}
