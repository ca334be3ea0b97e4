/** The home page (src/app/page.tsx): the list of platforms offered by the
    platform filter, and the filtered, sorted course list. */
module HomePage {
  import opened Values
  import opened Strings
  import opened Seqs
  import opened Catalog

  datatype SortType = Popular | ByRating | Newest

  /** The page's filter state. A rating threshold of null is `None`. */
  datatype Filters = Filters(search: string, platform: string, rating: Option<real>, sort: SortType)

  // ---------------------------------------------------------------------
  // Platforms: `Array.from(new Set(courses.map(c => c.platform)))`
  // ---------------------------------------------------------------------

  /** Each value of `s` once, in order of first appearance (what a `Set`
      built from `s` yields when iterated). */
  function Distinct(s: seq<string>): (r: seq<string>)
    decreases |s|
    ensures forall i :: 0 <= i < |r| ==> r[i] in s
    ensures forall i :: 0 <= i < |s| ==> s[i] in r
    ensures forall i, j :: 0 <= i < j < |r| ==> r[i] != r[j]
  {
    if s == [] then []
    else
      var d := Distinct(s[..|s| - 1]);
      if s[|s| - 1] in d then d else d + [s[|s| - 1]]
  }

  /** The index of the first occurrence of `x` in `s`. */
  ghost function FirstIndex(s: seq<string>, x: string): (k: nat)
    requires x in s
    ensures k < |s| && s[k] == x && forall j :: 0 <= j < k ==> s[j] != x
  {
    if s[0] == x then 0 else 1 + FirstIndex(s[1..], x)
  }

  lemma {:induction false} FirstIndexOfPrefix(s: seq<string>, n: nat, x: string)
    requires n <= |s| && x in s[..n]
    ensures FirstIndex(s, x) == FirstIndex(s[..n], x)
  {
    var k := FirstIndex(s[..n], x);
    assert s[k] == x;
    assert forall j :: 0 <= j < k ==> s[j] == s[..n][j];
  }

  /** `Distinct` lists values in the order in which they first appear. */
  lemma {:induction false} DistinctInFirstAppearanceOrder(s: seq<string>)
    ensures forall i, j :: 0 <= i < j < |Distinct(s)| ==>
              FirstIndex(s, Distinct(s)[i]) < FirstIndex(s, Distinct(s)[j])
    decreases |s|
  {
    if s != [] {
      var n := |s| - 1;
      var p := s[..n];
      DistinctInFirstAppearanceOrder(p);
      var d := Distinct(p);
      forall i | 0 <= i < |d|
        ensures FirstIndex(s, d[i]) == FirstIndex(p, d[i])
      {
        assert d[i] in p;
        FirstIndexOfPrefix(s, n, d[i]);
      }
      var r := Distinct(s);
      assert r == if s[n] in d then d else d + [s[n]];
      forall i, j | 0 <= i < j < |r|
        ensures FirstIndex(s, r[i]) < FirstIndex(s, r[j])
      {
        assert r[i] == d[i];
        if j < |d| {
          assert r[j] == d[j];
        } else {
          assert r[j] == s[n] && s[n] !in p;
          assert FirstIndex(s, s[n]) == n;
        }
      }
    }
  }

  function PlatformsOf(courses: seq<ListedCourse>): (r: seq<string>)
  {
    Distinct(seq(|courses|, i requires 0 <= i < |courses| => courses[i].platform))
  }

  /** Every platform of a course is offered exactly once, and nothing else is. */
  lemma PlatformsListed(courses: seq<ListedCourse>)
    ensures forall i :: 0 <= i < |courses| ==> courses[i].platform in PlatformsOf(courses)
    ensures forall p :: p in PlatformsOf(courses) ==> exists i :: 0 <= i < |courses| && courses[i].platform == p
    ensures forall i, j :: 0 <= i < j < |PlatformsOf(courses)| ==> PlatformsOf(courses)[i] != PlatformsOf(courses)[j]
  {
    var ps := seq(|courses|, i requires 0 <= i < |courses| => courses[i].platform);
    forall i | 0 <= i < |courses|
      ensures courses[i].platform in PlatformsOf(courses)
    {
      assert ps[i] == courses[i].platform;
    }
    forall p | p in PlatformsOf(courses)
      ensures exists i :: 0 <= i < |courses| && courses[i].platform == p
    {
      var k :| 0 <= k < |ps| && ps[k] == p;
      assert courses[k].platform == p;
    }
  }

  // ---------------------------------------------------------------------
  // Filtering
  // ---------------------------------------------------------------------

  predicate MatchesSearch(c: ListedCourse, search: string)
  {
    ContainsIgnoreCase(c.title, search) || ContainsIgnoreCase(c.author, search)
  }

  /** `!filters.platform || course.platform === filters.platform` */
  predicate MatchesPlatform(c: ListedCourse, platform: string)
  {
    platform == "" || c.platform == platform
  }

  /** `!filters.rating || (course.rating || 0) >= filters.rating`: a null or 0 threshold passes all. */
  predicate MatchesRating(c: ListedCourse, rating: Option<real>)
  {
    rating.None? || rating.value == 0.0 || c.rating.GetOr(0.0) >= rating.value
  }

  predicate Matches(c: ListedCourse, f: Filters)
  {
    MatchesSearch(c, f.search) && MatchesPlatform(c, f.platform) && MatchesRating(c, f.rating)
  }

  /** The filter stage passes every course when no filter is set. */
  lemma NoFilterKeepsAll(courses: seq<ListedCourse>, sort: SortType)
    ensures Filter(c => Matches(c, Filters("", "", None, sort)), courses) == courses
  {
    forall i | 0 <= i < |courses|
      ensures Matches(courses[i], Filters("", "", None, sort))
    {
      EmptyQueryMatches(courses[i].title);
    }
    FilterAllPass(c => Matches(c, Filters("", "", None, sort)), courses);
  }

  // ---------------------------------------------------------------------
  // Sorting: `.sort((a, b) => key(b) - key(a))`, a stable sort in
  // non-increasing key order; a missing learner count or rating counts as 0.
  // ---------------------------------------------------------------------

  function Key(c: ListedCourse, t: SortType): real
  {
    match t
    case Popular => c.learners.GetOr(0) as real
    case ByRating => c.rating.GetOr(0.0)
    case Newest => c.id as real
  }

  ghost predicate SortedBy(s: seq<ListedCourse>, t: SortType)
  {
    forall i, j :: 0 <= i < j < |s| ==> Key(s[i], t) >= Key(s[j], t)
  }

  /** Insert `x` after every element of `s` whose key is at least its own. */
  function Insert(s: seq<ListedCourse>, x: ListedCourse, t: SortType): (r: seq<ListedCourse>)
    ensures multiset(r) == multiset(s) + multiset{x}
    decreases |s|
  {
    if s == [] then [x]
    else if Key(s[0], t) >= Key(x, t) then
      assert s == [s[0]] + s[1..];
      [s[0]] + Insert(s[1..], x, t)
    else
      [x] + s
  }

  /** Inserting keeps every key under a common upper bound. */
  lemma {:induction false} InsertBounded(s: seq<ListedCourse>, x: ListedCourse, t: SortType, b: real)
    requires forall k :: 0 <= k < |s| ==> Key(s[k], t) <= b
    requires Key(x, t) <= b
    ensures forall k :: 0 <= k < |Insert(s, x, t)| ==> Key(Insert(s, x, t)[k], t) <= b
    decreases |s|
  {
    if s != [] && Key(s[0], t) >= Key(x, t) {
      InsertBounded(s[1..], x, t, b);
    }
  }

  lemma {:induction false} InsertSorted(s: seq<ListedCourse>, x: ListedCourse, t: SortType)
    requires SortedBy(s, t)
    ensures SortedBy(Insert(s, x, t), t)
    decreases |s|
  {
    if s != [] && Key(s[0], t) >= Key(x, t) {
      var tail := Insert(s[1..], x, t);
      InsertSorted(s[1..], x, t);
      InsertBounded(s[1..], x, t, Key(s[0], t));
      var r := [s[0]] + tail;
      assert r == Insert(s, x, t);
      forall i, j | 0 <= i < j < |r|
        ensures Key(r[i], t) >= Key(r[j], t)
      {
        assert r[j] == tail[j - 1];
        if i > 0 {
          assert r[i] == tail[i - 1];
        }
      }
    }
  }

  /** Insertion sort, taking elements in input order. */
  function SortDesc(s: seq<ListedCourse>, t: SortType): (r: seq<ListedCourse>)
    ensures SortedBy(r, t)
    ensures multiset(r) == multiset(s)
    decreases |s|
  {
    if s == [] then []
    else
      assert s == s[..|s| - 1] + [s[|s| - 1]];
      var sorted := SortDesc(s[..|s| - 1], t);
      InsertSorted(sorted, s[|s| - 1], t);
      Insert(sorted, s[|s| - 1], t)
  }

  /** The test "has key `k`"; filtering by it picks out one group of ties. */
  function KeyIs(t: SortType, k: real): ListedCourse -> bool
  {
    c => Key(c, t) == k
  }

  lemma {:induction false} FilterSingleton(p: ListedCourse -> bool, x: ListedCourse)
    ensures Filter(p, [x]) == if p(x) then [x] else []
  {
    assert [x][..0] == [];
  }

  /** Below a key larger than `k`, a sorted sequence has no element with key `k`. */
  lemma NoTiesBelow(s: seq<ListedCourse>, t: SortType, k: real)
    requires SortedBy(s, t) && s != [] && Key(s[0], t) < k
    ensures Filter(KeyIs(t, k), s) == []
  {
  }

  /** `x` put in front of elements with smaller keys still comes after its ties. */
  lemma {:induction false} TiesWhenInsertedFirst(s: seq<ListedCourse>, x: ListedCourse, t: SortType, k: real)
    requires SortedBy(s, t) && s != [] && Key(s[0], t) < Key(x, t)
    ensures Filter(KeyIs(t, k), [x] + s) == Filter(KeyIs(t, k), s) + Filter(KeyIs(t, k), [x])
  {
    var p := KeyIs(t, k);
    FilterAppend(p, [x], s);
    FilterSingleton(p, x);
    if p(x) {
      NoTiesBelow(s, t, k);
    }
  }

  lemma {:induction false} TiesAfterHead(s: seq<ListedCourse>, tail: seq<ListedCourse>, x: ListedCourse,
                                         p: ListedCourse -> bool)
    requires s != []
    requires Filter(p, tail) == Filter(p, s[1..]) + Filter(p, [x])
    ensures Filter(p, [s[0]] + tail) == Filter(p, s) + Filter(p, [x])
  {
    assert s == [s[0]] + s[1..];
    calc {
      Filter(p, [s[0]] + tail);
      { FilterAppend(p, [s[0]], tail); }
      Filter(p, [s[0]]) + (Filter(p, s[1..]) + Filter(p, [x]));
      (Filter(p, [s[0]]) + Filter(p, s[1..])) + Filter(p, [x]);
      { FilterAppend(p, [s[0]], s[1..]); }
      Filter(p, s) + Filter(p, [x]);
    }
  }

  /** Inserting `x` puts it after every element with the same key. */
  lemma {:induction false} InsertKeepsTies(s: seq<ListedCourse>, x: ListedCourse, t: SortType, k: real)
    requires SortedBy(s, t)
    ensures Filter(KeyIs(t, k), Insert(s, x, t)) == Filter(KeyIs(t, k), s) + Filter(KeyIs(t, k), [x])
    decreases |s|
  {
    if s == [] {
      assert Insert(s, x, t) == [x];
      assert Filter(KeyIs(t, k), s) == [];
    } else if Key(s[0], t) >= Key(x, t) {
      InsertKeepsTies(s[1..], x, t, k);
      TiesAfterHead(s, Insert(s[1..], x, t), x, KeyIs(t, k));
    } else {
      TiesWhenInsertedFirst(s, x, t, k);
    }
  }

  /** The sort is stable: the courses sharing any one key value keep their input order. */
  lemma {:induction false} SortDescStable(s: seq<ListedCourse>, t: SortType, k: real)
    ensures Filter(KeyIs(t, k), SortDesc(s, t)) == Filter(KeyIs(t, k), s)
    decreases |s|
  {
    if s != [] {
      var init := s[..|s| - 1];
      var x := s[|s| - 1];
      assert s == init + [x];
      var p := KeyIs(t, k);
      assert SortDesc(s, t) == Insert(SortDesc(init, t), x, t);
      SortDescStable(init, t, k);
      InsertKeepsTies(SortDesc(init, t), x, t, k);
      FilterAppend(p, init, [x]);
    }
  }

  /** The displayed list (`filteredCourses`): sorted by the chosen key and a
      permutation of the courses that pass the three filters. */
  function FilteredCourses(courses: seq<ListedCourse>, f: Filters): (r: seq<ListedCourse>)
    ensures SortedBy(r, f.sort)
    ensures multiset(r) == multiset(Filter(c => Matches(c, f), courses))
  {
    SortDesc(Filter(c => Matches(c, f), courses), f.sort)
  }

  /** A course is displayed exactly when it is stored and passes the filters. */
  lemma FilteredCoursesMembers(courses: seq<ListedCourse>, f: Filters)
    ensures forall i :: 0 <= i < |FilteredCourses(courses, f)| ==>
              var c := FilteredCourses(courses, f)[i]; c in courses && Matches(c, f)
    ensures forall i :: 0 <= i < |courses| && Matches(courses[i], f) ==> courses[i] in FilteredCourses(courses, f)
  {
    var kept := Filter(c => Matches(c, f), courses);
    var r := FilteredCourses(courses, f);
    forall i | 0 <= i < |r|
      ensures r[i] in courses && Matches(r[i], f)
    {
      assert r[i] in multiset(r);
      assert r[i] in multiset(kept);
      var j :| 0 <= j < |kept| && kept[j] == r[i];
    }
    forall i | 0 <= i < |courses| && Matches(courses[i], f)
      ensures courses[i] in r
    {
      assert courses[i] in kept;
      assert courses[i] in multiset(kept);
      assert courses[i] in multiset(r);
    }
  }
}
