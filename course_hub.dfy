/**
 * The course hub page (app/course-hub/page.tsx): the catalogue, the featured-course
 * lookup, the sale badge, and the effect that narrows the catalogue by the search box,
 * the topic tab, the price select and the level select.
 *
 * Prices are integer cents, ratings integer tenths of a star.
 */
module CourseHub {
  import opened Text
  import opened Seqs

  datatype Course = Course(
    id: string,
    title: string,
    description: string,
    instructor: string,
    price: int,
    originalPrice: int,
    rating: int,
    ratingCount: nat,
    students: nat,
    duration: string,
    level: string,
    tags: seq<string>,
    featured: bool)

  /** The four pieces of page state the filter effect depends on. */
  datatype Filters = Filters(searchQuery: string, activeTab: string, priceFilter: string, levelFilter: string)

  /** The initial state of the page: nothing typed, every select on "all". */
  const NoFilters := Filters("", "all", "all", "all")

  /** The price limits of the select, $50 and $100, in cents. */
  const Fifty := 5000
  const Hundred := 10000

  // ---------------------------------------------------------------------
  // The four stages

  /** The lower-cased query occurs in the lower-cased title, instructor or some tag. */
  predicate MatchesSearch(c: Course, query: string)
  {
    var q := LowerStr(query);
    Contains(LowerStr(c.title), q) ||
    Contains(LowerStr(c.instructor), q) ||
    exists i :: 0 <= i < |c.tags| && Contains(LowerStr(c.tags[i]), q)
  }

  /** Some tag equals the tab, ignoring case (a whole tag, not a part of one). */
  predicate HasTab(c: Course, tab: string)
  {
    exists i :: 0 <= i < |c.tags| && LowerStr(c.tags[i]) == LowerStr(tab)
  }

  predicate Under50(price: int)  { price < Fifty }
  predicate From50To100(price: int) { Fifty <= price <= Hundred }
  predicate Over100(price: int) { price > Hundred }

  /** The price select; a value other than the three buckets keeps every course. */
  predicate InPriceRange(c: Course, priceFilter: string)
  {
    if priceFilter == "under-50" then Under50(c.price)
    else if priceFilter == "50-100" then From50To100(c.price)
    else if priceFilter == "over-100" then Over100(c.price)
    else true
  }

  /** The level equals the selected level, ignoring case. */
  predicate HasLevel(c: Course, level: string)
  {
    LowerStr(c.level) == LowerStr(level)
  }

  /** A course is shown when it passes every stage that is switched on. */
  predicate Shown(c: Course, f: Filters)
  {
    && (f.searchQuery != "" ==> MatchesSearch(c, f.searchQuery))
    && (f.activeTab != "all" ==> HasTab(c, f.activeTab))
    && InPriceRange(c, f.priceFilter)
    && (f.levelFilter != "all" ==> HasLevel(c, f.levelFilter))
  }

  /** The courses the grid shows: the shown ones, in catalogue order. */
  function Visible(courses: seq<Course>, f: Filters): seq<Course>
  {
    Filter(courses, c => Shown(c, f))
  }

  // ---------------------------------------------------------------------
  // The effect

  /**
   * The filter effect: starting from the catalogue, each switched-on stage
   * filters what the previous stages left; the result is what the page stores
   * as `filteredCourses`.
   */
  method ApplyFilters(courses: seq<Course>, f: Filters) returns (filtered: seq<Course>)
    ensures filtered == Visible(courses, f)
    ensures IsSubsequence(filtered, courses)
    ensures forall c :: c in filtered <==> c in courses && Shown(c, f)
  {
    ghost var passed: Course -> bool := _ => true;
    FilterKeepsAll(courses, passed);
    filtered := courses;

    if f.searchQuery != "" {
      ghost var next: Course -> bool := c => passed(c) && MatchesSearch(c, f.searchQuery);
      FilterFilter(courses, passed, c => MatchesSearch(c, f.searchQuery), next);
      filtered := Filter(filtered, c => MatchesSearch(c, f.searchQuery));
      passed := next;
    }

    if f.activeTab != "all" {
      ghost var next: Course -> bool := c => passed(c) && HasTab(c, f.activeTab);
      FilterFilter(courses, passed, c => HasTab(c, f.activeTab), next);
      filtered := Filter(filtered, c => HasTab(c, f.activeTab));
      passed := next;
    }

    {
      ghost var next: Course -> bool := c => passed(c) && InPriceRange(c, f.priceFilter);
      FilterFilter(courses, passed, c => InPriceRange(c, f.priceFilter), next);
      filtered := PriceStage(filtered, f.priceFilter);
      passed := next;
    }

    if f.levelFilter != "all" {
      ghost var next: Course -> bool := c => passed(c) && HasLevel(c, f.levelFilter);
      FilterFilter(courses, passed, c => HasLevel(c, f.levelFilter), next);
      filtered := Filter(filtered, c => HasLevel(c, f.levelFilter));
      passed := next;
    }

    FilterCongruent(courses, passed, c => Shown(c, f));
    VisibleIsSubsequence(courses, f);
    VisibleMembers(courses, f);
  }

  /** The price stage of the effect: one of three bucket filters, or none for any other value. */
  method PriceStage(courses: seq<Course>, priceFilter: string) returns (filtered: seq<Course>)
    ensures filtered == Filter(courses, c => InPriceRange(c, priceFilter))
  {
    if priceFilter == "under-50" {
      filtered := Filter(courses, (c: Course) => Under50(c.price));
      FilterCongruent(courses, (c: Course) => Under50(c.price), c => InPriceRange(c, priceFilter));
    } else if priceFilter == "50-100" {
      filtered := Filter(courses, (c: Course) => From50To100(c.price));
      FilterCongruent(courses, (c: Course) => From50To100(c.price), c => InPriceRange(c, priceFilter));
    } else if priceFilter == "over-100" {
      filtered := Filter(courses, (c: Course) => Over100(c.price));
      FilterCongruent(courses, (c: Course) => Over100(c.price), c => InPriceRange(c, priceFilter));
    } else {
      filtered := courses;
      FilterKeepsAll(courses, c => InPriceRange(c, priceFilter));
    }
  }

  // ---------------------------------------------------------------------
  // Properties of the result

  /** The result keeps the catalogue order and never invents a course. */
  lemma VisibleIsSubsequence(courses: seq<Course>, f: Filters)
    ensures IsSubsequence(Visible(courses, f), courses)
  {
    FilterIsSubsequence(courses, c => Shown(c, f));
  }

  /** A course is in the result iff it is in the catalogue and passes every active stage. */
  lemma VisibleMembers(courses: seq<Course>, f: Filters)
    ensures forall c :: c in Visible(courses, f) <==> c in courses && Shown(c, f)
  {
    FilterMembership(courses, c => Shown(c, f));
  }

  /** With the page's initial state the grid shows the whole catalogue, in order. */
  lemma NoFiltersShowAll(courses: seq<Course>)
    ensures Visible(courses, NoFilters) == courses
  {
    FilterKeepsAll(courses, c => Shown(c, NoFilters));
  }

  /**
   * With only a non-empty search active, a course is kept iff the lower-cased
   * query occurs in its lower-cased title, instructor or one of its tags.
   */
  lemma SearchOnly(courses: seq<Course>, query: string, c: Course)
    requires query != ""
    ensures c in Visible(courses, Filters(query, "all", "all", "all")) <==>
      c in courses &&
      (Contains(LowerStr(c.title), LowerStr(query)) ||
       Contains(LowerStr(c.instructor), LowerStr(query)) ||
       exists i :: 0 <= i < |c.tags| && Contains(LowerStr(c.tags[i]), LowerStr(query)))
  {
    VisibleMembers(courses, Filters(query, "all", "all", "all"));
  }

  /** The description is not searched: courses that differ only there are shown alike. */
  lemma SearchIgnoresDescription(c: Course, description: string, f: Filters)
    ensures Shown(c.(description := description), f) == Shown(c, f)
  {
  }

  /** A tab matches whole tags only: "web" does not select a course tagged "web development", the search "web" does. */
  lemma TabIsWholeTag()
    ensures var c := Course("w", "Site Building", "", "Ann", 4000, 4000, 45, 0, 0, "1 week",
                            "Beginner", ["web development"], false);
      !Shown(c, Filters("", "web", "all", "all")) && Shown(c, Filters("web", "all", "all", "all"))
  {
    var c := Course("w", "Site Building", "", "Ann", 4000, 4000, 45, 0, 0, "1 week",
                    "Beginner", ["web development"], false);
    assert LowerStr("web") == "web";
    assert LowerStr("web development") == "web development";
    assert LowerStr(c.tags[0])[..3] == "web";
    ContainsAt(LowerStr(c.tags[0]), LowerStr("web"), 0);
  }

  /** A tab keeps exactly the courses with a tag equal to it up to letter case. */
  lemma TabOnly(courses: seq<Course>, tab: string, c: Course)
    requires tab != "all"
    ensures c in Visible(courses, Filters("", tab, "all", "all")) <==>
      c in courses && exists i :: 0 <= i < |c.tags| && SameUpToCase(c.tags[i], tab)
  {
    VisibleMembers(courses, Filters("", tab, "all", "all"));
  }

  /** Every price lies in exactly one of the three buckets. */
  lemma PriceBucketsPartition(price: int)
    ensures Under50(price) || From50To100(price) || Over100(price)
    ensures !(Under50(price) && From50To100(price))
    ensures !(Under50(price) && Over100(price))
    ensures !(From50To100(price) && Over100(price))
  {
  }

  /** Each price choice keeps exactly the courses in its bucket; both ends of "50-100" are included. */
  lemma PriceOnly(courses: seq<Course>, priceFilter: string, c: Course)
    ensures c in Visible(courses, Filters("", "all", priceFilter, "all")) <==>
      c in courses &&
      (if priceFilter == "under-50" then c.price < 5000
       else if priceFilter == "50-100" then 5000 <= c.price <= 10000
       else if priceFilter == "over-100" then c.price > 10000
       else true)
  {
    VisibleMembers(courses, Filters("", "all", priceFilter, "all"));
  }

  /** A price value outside the three buckets leaves the list as the other stages made it. */
  lemma UnknownPriceFilterKeepsAll(courses: seq<Course>, f: Filters)
    requires f.priceFilter !in ["under-50", "50-100", "over-100"]
    ensures Visible(courses, f) == Visible(courses, f.(priceFilter := "all"))
  {
    assert f.priceFilter != "under-50" && f.priceFilter != "50-100" && f.priceFilter != "over-100";
    var g := f.(priceFilter := "all");
    forall i | 0 <= i < |courses|
      ensures Shown(courses[i], f) == Shown(courses[i], g)
    {
    }
    FilterCongruent(courses, c => Shown(c, f), c => Shown(c, g));
    assert Visible(courses, g) == Filter(courses, c => Shown(c, g));
  }

  /** The level select compares whole levels, ignoring case. */
  lemma LevelOnly(courses: seq<Course>, level: string, c: Course)
    requires level != "all"
    ensures c in Visible(courses, Filters("", "all", "all", level)) <==>
      c in courses && SameUpToCase(c.level, level)
  {
    VisibleMembers(courses, Filters("", "all", "all", level));
  }

  /** A course for "All Levels" is dropped by each of the select's specific levels. */
  lemma AllLevelsCourseExcluded(c: Course, f: Filters)
    requires c.level == "All Levels"
    requires f.levelFilter in ["beginner", "intermediate", "advanced"]
    ensures !Shown(c, f)
  {
    assert LowerStr(c.level)[0] == 'a';
    assert |LowerStr(c.level)| == 10;
  }

  /** An occurrence of the longer query implies one of the shorter query it contains. */
  lemma MatchesShorterQuery(c: Course, shorter: string, longer: string)
    requires Contains(longer, shorter) && MatchesSearch(c, longer)
    ensures MatchesSearch(c, shorter)
  {
    var q, q' := LowerStr(longer), LowerStr(shorter);
    ContainsLower(longer, shorter);
    if Contains(LowerStr(c.title), q) {
      ContainsTransitive(LowerStr(c.title), q, q');
    } else if Contains(LowerStr(c.instructor), q) {
      ContainsTransitive(LowerStr(c.instructor), q, q');
    } else {
      var i :| 0 <= i < |c.tags| && Contains(LowerStr(c.tags[i]), q);
      ContainsTransitive(LowerStr(c.tags[i]), q, q');
    }
  }

  /**
   * Refining the search (typing more around what was typed) never adds a course:
   * the new result is a subsequence of the old one.
   */
  lemma SearchRefinement(courses: seq<Course>, f: Filters, longer: string)
    requires Contains(longer, f.searchQuery)
    ensures IsSubsequence(Visible(courses, f.(searchQuery := longer)), Visible(courses, f))
    ensures forall c :: c in Visible(courses, f.(searchQuery := longer)) ==> c in Visible(courses, f)
  {
    var g := f.(searchQuery := longer);
    forall i | 0 <= i < |courses| && Shown(courses[i], g)
      ensures Shown(courses[i], f)
    {
      if f.searchQuery != "" {
        assert longer != [] by {
          if longer == [] {
            NotContainedInEmpty(f.searchQuery);
          }
        }
        MatchesShorterQuery(courses[i], f.searchQuery, longer);
      }
    }
    FilterStricter(courses, c => Shown(c, g), c => Shown(c, f));
    forall c | c in Visible(courses, g)
      ensures c in Visible(courses, f)
    {
      SubsequenceMembers(Visible(courses, g), Visible(courses, f), c);
    }
  }

  // ---------------------------------------------------------------------
  // The catalogue, the featured course and the sale badge

  /** The mock catalogue of the page, prices in cents and ratings in tenths. */
  const AvailableCourses: seq<Course> := [
    Course("data-science", "Data Science Bootcamp",
      "Comprehensive data science program covering Python, statistics, machine learning, and data visualization",
      "Dr. Sarah Johnson", 9999, 19999, 49, 4567, 23456, "12 weeks", "Intermediate",
      ["data science", "python", "machine learning"], true),
    Course("javascript-mastery", "JavaScript Mastery",
      "Master modern JavaScript from fundamentals to advanced concepts like async/await and ES6+ features",
      "Michael Chen", 7999, 14999, 48, 3254, 18923, "10 weeks", "All Levels",
      ["javascript", "web development", "programming"], true),
    Course("react-essentials", "React Essentials",
      "Start building modern web applications with React",
      "David Kim", 6999, 12999, 48, 3211, 15432, "8 weeks", "Beginner",
      ["react", "javascript", "web development"], false),
    Course("machine-learning", "Machine Learning Fundamentals",
      "Introduction to machine learning algorithms and techniques",
      "Dr. James Wilson", 8999, 16999, 47, 2134, 12567, "10 weeks", "Intermediate",
      ["machine learning", "python", "data science"], false),
    Course("advanced-data-structures", "Advanced Data Structures",
      "Deep dive into complex data structures and algorithms",
      "Dr. Lisa Chen", 7999, 15999, 49, 1543, 8765, "10 weeks", "Advanced",
      ["algorithms", "data structures", "computer science"], false),
    Course("python-for-data-analysis", "Python for Data Analysis",
      "Learn how to use Python for data analysis with pandas, NumPy, and Matplotlib",
      "Dr. Alex Johnson", 6999, 13999, 48, 2876, 14532, "8 weeks", "Intermediate",
      ["python", "data analysis", "pandas"], false)
  ]

  /** The hero card's course: the first featured course whose id is "data-science". */
  function FeaturedCourse(courses: seq<Course>): (r: Option<Course>)
    ensures r.Some? ==> r.value in courses && r.value.featured && r.value.id == "data-science"
    ensures r.None? <==> forall i :: 0 <= i < |courses| ==> !(courses[i].featured && courses[i].id == "data-science")
    ensures r.Some? ==>
      exists k :: (0 <= k < |courses| && courses[k] == r.value &&
                   forall j :: 0 <= j < k ==> !(courses[j].featured && courses[j].id == "data-science"))
  {
    Find(courses, (c: Course) => c.featured && c.id == "data-science")
  }

  /** The card's "Sale" badge: the original price is above the current one. */
  predicate OnSale(c: Course)
  {
    c.originalPrice > c.price
  }

  /** On the page's own catalogue the hero card shows its first course. */
  lemma FeaturedOnCatalogue()
    ensures FeaturedCourse(AvailableCourses) == Some(AvailableCourses[0])
  {
  }

  /** Every course of the page's own catalogue carries the sale badge. */
  lemma SaleBadgeOnCatalogue()
    ensures forall i :: 0 <= i < |AvailableCourses| ==> OnSale(AvailableCourses[i])
  {
  }

  /** No course of the page's own catalogue costs less than $50. */
  lemma UnderFiftyOnCatalogue()
    ensures Visible(AvailableCourses, Filters("", "all", "under-50", "all")) == []
  {
    var f := Filters("", "all", "under-50", "all");
    forall i | 0 <= i < |AvailableCourses|
      ensures !Shown(AvailableCourses[i], f)
    {
    }
    FilterCongruent(AvailableCourses, c => Shown(c, f), _ => false);
    NoneKept(AvailableCourses);
  }

  lemma {:induction false} NoneKept(s: seq<Course>)
    ensures Filter(s, (_: Course) => false) == []
  {
    if s != [] {
      NoneKept(s[1..]);
    }
  }
}
