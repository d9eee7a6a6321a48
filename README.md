# Nexacademy client logic in Dafny

This project models the deterministic client-side logic of the Nexacademy learning
platform, and proves properties of it.

- **course hub page** (`app/course-hub/page.tsx`):
  - the mock catalogue;
  - the featured-course lookup;
  - the "Sale" badge test;
  - the effect that narrows the catalogue by four pieces of page state: the search box, the topic tab, the price select and the level select.
- **course theme picker** (`lib/course-icons.ts`): `getCourseTheme(title, tags = [])`, an ordered list of eight rules with a default.
- **dashboard** (`components/dashboard.tsx`):
  - the five-star row of `renderRating`;
  - `formatNumber`;
  - the daily-quest counters;
  - the order in which the quest list is displayed, a two-key sort applied to `quests.slice()`.

Files:

| file | module | content |
|---|---|---|
| `text.dfy` | `Text` | `toLowerCase` as an ASCII case fold, `String.prototype.includes`, decimal rendering and parsing of integers |
| `seqs.dfy` | `Seqs` | `Array.prototype.filter` and `find` over sequences, the order-preserving subsequence relation |
| `course_hub.dfy` | `CourseHub` | the catalogue, the four filter stages, the filter effect (`ApplyFilters`), the featured course, the sale badge |
| `course_icons.dfy` | `CourseIcons` | the theme picker as the source writes it (an if-chain) and as a first-match rule table, proved equal |
| `dashboard.dfy` | `Dashboard` | the star loop, the number formatter, the quest counters, the comparator, a stable insertion sort on an array copy |

Units:
- Prices are integer cents, so the select's $50 and $100 limits are 5000 and 10000.
- Ratings are integer tenths of a star, so 4.7 is 47 and `Math.floor(rating)` is `rating / 10`.

Stateful code:
- The filter effect reassigns a local list stage by stage. It is a method with a local variable. Its result is proved equal to one filter by the conjunction of the active stages.
- The star loop pushes five stars. It is a method with a `for` loop.
- The quest sort copies the list into a fresh array, sorts that array in place and reads it back. It is proved equal to a functional insertion sort. Permutation, ordering and stability are proved about that sort.

## Model

| member | source | states |
|---|---|---|
| CourseHub.MatchesSearch | app/course-hub/page.tsx:134-140 | the search stage's test: the lower-cased query occurs in the lower-cased title, instructor or some lower-cased tag (its meaning in the pipeline is stated by SearchOnly) |
| CourseHub.HasTab | app/course-hub/page.tsx:144-146 | the tab stage's test: some lower-cased tag equals the lower-cased tab (stated by TabOnly and TabIsWholeTag) |
| CourseHub.InPriceRange | app/course-hub/page.tsx:149-155 | the price stage's test: the bucket the select names, or no test for any other value (stated by PriceOnly and PriceBucketsPartition) |
| CourseHub.HasLevel | app/course-hub/page.tsx:158-160 | the level stage's test: the lower-cased level equals the lower-cased selection (stated by LevelOnly) |
| CourseHub.Shown | app/course-hub/page.tsx:133-160 | a course passes every stage that is switched on; ApplyFilters is proved equal to filtering by it |
| CourseHub.Visible | app/course-hub/page.tsx:131-162 | the catalogue filtered once by Shown, the reference the four-stage effect is proved against |
| CourseHub.ApplyFilters | app/course-hub/page.tsx:130-163 | the list the effect stores is exactly the catalogue filtered by the conjunction of the active stages; it is an order-preserving subsequence of the catalogue; a course is in it iff it is in the catalogue and passes every active stage |
| CourseHub.PriceStage | app/course-hub/page.tsx:149-155 | the price stage keeps exactly the courses in the selected bucket, and keeps every course for any other select value |
| CourseHub.VisibleIsSubsequence | app/course-hub/page.tsx:131-162 | every chain of the stages yields an order-preserving subsequence of its input |
| CourseHub.VisibleMembers | app/course-hub/page.tsx:133-160 | a course is shown iff it is in the catalogue and passes every active stage; no matching course is dropped |
| CourseHub.NoFiltersShowAll | app/course-hub/page.tsx:131-163 | with empty search and every select on "all", the result is the whole catalogue in its original order |
| CourseHub.SearchOnly | app/course-hub/page.tsx:134-140 | with a non-empty query alone, a course is kept iff the lower-cased query occurs in its lower-cased title, instructor or some lower-cased tag |
| CourseHub.SearchIgnoresDescription | app/course-hub/page.tsx:134-140 | the description is not searched: changing it never changes whether a course is shown |
| CourseHub.TabIsWholeTag | app/course-hub/page.tsx:144-146 | the tab "web" does not select a course tagged "web development", while the search "web" does |
| CourseHub.TabOnly | app/course-hub/page.tsx:144-146 | with a tab other than "all" alone, a course is kept iff one of its tags equals the tab up to letter case |
| CourseHub.PriceBucketsPartition | app/course-hub/page.tsx:149-155 | the three price buckets are pairwise disjoint and together cover every price |
| CourseHub.PriceOnly | app/course-hub/page.tsx:149-155 | "under-50" keeps price < $50, "50-100" keeps $50 <= price <= $100 (both ends included), "over-100" keeps price > $100, any other value keeps all |
| CourseHub.UnknownPriceFilterKeepsAll | app/course-hub/page.tsx:149-155 | a price value other than the three buckets gives the same result as "all" |
| CourseHub.LevelOnly | app/course-hub/page.tsx:158-160 | with a level other than "all" alone, a course is kept iff its level equals the selected one up to letter case |
| CourseHub.AllLevelsCourseExcluded | app/course-hub/page.tsx:158-160 | a course whose level is "All Levels" is dropped by each of the specific levels the select offers |
| CourseHub.MatchesShorterQuery | app/course-hub/page.tsx:137-139 | a course matching a query also matches every substring of that query |
| CourseHub.SearchRefinement | app/course-hub/page.tsx:134-140 | when the old query occurs in the new one, the new result is a subsequence, and so a subset, of the old result |
| CourseHub.FeaturedCourse | app/course-hub/page.tsx:110 | the lookup returns the FIRST course of the list that is featured and has id "data-science" (no earlier course is both), and returns nothing iff no course is both |
| CourseHub.FeaturedOnCatalogue | app/course-hub/page.tsx:15-110 | on the page's catalogue the featured course is its first entry |
| CourseHub.OnSale | app/course-hub/page.tsx:293 | the badge test: the original price is above the current price |
| CourseHub.SaleBadgeOnCatalogue | app/course-hub/page.tsx:293 | every catalogue course has an original price above its price, so every card carries the badge |
| CourseHub.UnderFiftyOnCatalogue | app/course-hub/page.tsx:149-150 | on the page's catalogue the "under-50" choice shows no course |
| CourseIcons.CourseTheme | lib/course-icons.ts:4-95 | `getCourseTheme` as written: the eight if-tests in source order on the lower-cased title and tags, then the default; its contract is stated by ChainIsFirstMatch and FirstMatchWins |
| CourseIcons.ChainIsFirstMatch | lib/course-icons.ts:4-95 | the if-chain returns the theme of the first of the eight rules, in source order, that fires on the lower-cased title and tags, and the default theme when none fires |
| CourseIcons.MatchIndex | lib/course-icons.ts:9-86 | the index of the first rule that fires: that rule fires and no earlier one does |
| CourseIcons.RankIsMatchIndex | lib/course-icons.ts:9-86 | the chosen theme's position in the order is the index of the first rule that fires |
| CourseIcons.FirstMatchWins | lib/course-icons.ts:4-95 | the theme is t iff t's rule fires (or t is the default) and no earlier rule fires; so every input gets exactly one of the nine themes |
| CourseIcons.PythonTitleWins | lib/course-icons.ts:9 | any title containing "python", in any letter case, gets the Python theme whatever the tags |
| CourseIcons.CaseInsensitive | lib/course-icons.ts:5-6 | inputs that differ only in letter case get the same theme |
| CourseIcons.LowerCasedInputs | lib/course-icons.ts:5-6 | lower-casing the title and tags first does not change the theme |
| CourseIcons.MoreTagsNeverLater | lib/course-icons.ts:9-86 | adding tags never moves the theme to a later rule |
| CourseIcons.LongerTitleNeverLater | lib/course-icons.ts:9-86 | a title that contains the old title never moves the theme to a later rule |
| CourseIcons.DefaultWithoutTags | lib/course-icons.ts:4-95 | omitting the tags is the same as passing []; then the default theme is chosen iff the title contains none of the eight title words |
| CourseIcons.MatchingModes | lib/course-icons.ts:9 | title words match as substrings ("CPython" gets Python), tags only as whole tags (a "python3" tag gets the default theme); "Python and JavaScript" gets Python |
| CourseIcons.AlternateTagTriggers | lib/course-icons.ts:39-79 | the tags "Frontend", "AI", "Server" and "UI" select the web, machine-learning, backend and design themes |
| Dashboard.FullStars | components/dashboard.tsx:151 | `Math.floor(rating)` on tenths: the whole number of stars, rounded down also for negative ratings |
| Dashboard.HasHalfStar | components/dashboard.tsx:152 | `rating % 1 !== 0` on tenths: the rating has a fractional part |
| Dashboard.FilledCount | components/dashboard.tsx:155-163 | the number of filled stars, the rating rounded up and clamped to 0..5; at most five |
| Dashboard.RenderRating | components/dashboard.tsx:150-163 | exactly five stars; star i is filled iff i < floor(rating), or i = floor(rating) and the rating has a fraction; the filled stars form a prefix of length ceil(rating), clamped to 0..5 |
| Dashboard.HalfStarShowsFull | components/dashboard.tsx:158-159 | a non-negative fractional rating shows floor(rating) + 1 filled stars, at most five |
| Dashboard.RatingExamples | components/dashboard.tsx:150-163 | 4.7 and 4.5 show five filled stars, 4.0 shows four, 0.3 shows one |
| Dashboard.FormatNumber | components/dashboard.tsx:174-179 | below 1000 the result is the number's decimal string: digits with an optional leading "-", no leading zero and no bare or "-0" sign, reading back as the number, not ending in "k"; from 1000 on it is "<digits>.<digit>k" with no leading zero, within half a hundred of the number |
| Dashboard.FormatExamples | components/dashboard.tsx:174-179 | 999 gives "999", 1800 gives "1.8k", 3500 gives "3.5k" |
| Text.IntToStringRoundTrip | components/dashboard.tsx:178 | the decimal string of an integer (with a leading "-" when negative) parses back to the integer |
| Dashboard.CompletedQuests | components/dashboard.tsx:371 | the number of completed quests is at most the number of quests |
| Dashboard.TotalXpEarned | components/dashboard.tsx:372 | the left-to-right XP sum over the completed quests (related to the total by EarnedPlusPending and EarnedAtMostAvailable) |
| Dashboard.TotalXpAvailable | components/dashboard.tsx:373 | the left-to-right XP sum over all quests |
| Dashboard.EarnedPlusPending | components/dashboard.tsx:372-373 | the XP available is the XP earned plus the XP of the quests not yet completed |
| Dashboard.EarnedAtMostAvailable | components/dashboard.tsx:372-373 | with non-negative XP values, 0 <= XP earned <= XP available |
| Dashboard.DailyQuestsCounters | components/dashboard.tsx:182-188 | on the mock quests, 2 are completed, and 75 of 280 XP are earned |
| Dashboard.CompareQuests | components/dashboard.tsx:624-631 | the comparator as written: status decides first (incomplete gets -1), then the XP difference b.xp - a.xp (its meaning is stated by ComparatorMeaning) |
| Dashboard.ComparatorMeaning | components/dashboard.tsx:624-631 | a quest goes first iff it is incomplete and the other is not, or both have the same status and it has more XP; the comparator is antisymmetric and ties exactly equal status and XP |
| Dashboard.InsertStep | components/dashboard.tsx:624-631 | one insertion step on the array: the first i+1 cells become the sorted prefix with a[i] inserted; the rest is unchanged |
| Dashboard.SortInPlace | components/dashboard.tsx:624-631 | sorting the array in place leaves exactly the stable sort of its old contents |
| Dashboard.DisplayOrder | components/dashboard.tsx:622-634 | the displayed list is a permutation of the quests, incomplete ones first, XP non-increasing within a status, and quests the comparator ties keep their input order |
| Dashboard.SortQuests | components/dashboard.tsx:622-631 | the stable sort by the comparator, written as insertion sort; same length as its input, and proved a permutation (SortPermutes), in order (SortSorted) and stable (SortStable) |
| Dashboard.SortPermutes | components/dashboard.tsx:622-623 | the sort keeps every quest and adds none (equal multisets) |
| Dashboard.SortSorted | components/dashboard.tsx:626-630 | in the sorted list no quest comes after one it should precede |
| Dashboard.SortedMeaning | components/dashboard.tsx:626-630 | comparator order means: every incomplete quest precedes every completed one, and XP does not increase within a status |
| Dashboard.SortStable | components/dashboard.tsx:630 | for every status and XP value, the quests with that key appear in the sorted list in their input order |
| Dashboard.DailyQuestsOrder | components/dashboard.tsx:182-188 | the mock quests are displayed in the order 4, 2, 3, 1, 5 |

## Left out

- The workspace page `app/problem-solving/[id]/page.tsx` is not part of this model. This covers its resizable panes and fullscreen flags.
- `components/top-bar.tsx` is not part of this model. It is markup with fixed values.
- `components/learning-analytics-graph.tsx` and `components/dashboard-chart.tsx` are not part of this model. Their data comes from `Math.random` and the clock, and is drawn by a chart library.
- Not modelled, because they are browser input and output:
  - the sidebar context in `components/dashboard.tsx`, with `localStorage` and `window` listeners;
  - the one-second loading timer of the course hub;
  - the `mounted` hydration effect of the dashboard.
- React state is not modelled. `ApplyFilters` returns the list the effect hands to `setFilteredCourses`, and the page state is its `Filters` argument.
- Not modelled, because they are floating-point formatting:
  - the rating label `rating.toFixed(1)`;
  - the quest progress percentage, which divides by the number of quests and so is undefined for an empty list.
- JSX layout, styling, animation, icons, colours and links are not modelled. A theme is one of nine enum values standing for the icon and colour classes the source returns.
- `toLowerCase` is modelled as an ASCII case fold. Non-ASCII letters are left unchanged, whereas JavaScript folds them too.
- Prices are integer cents and ratings integer tenths. Values with more decimals than that are not modelled.
- FormatNumber: `(num / 1000).toFixed(1)` is modelled as exact rounding of num / 1000 to tenths, with ties rounded up. JavaScript rounds the binary double nearest to num / 1000, so a tie such as 1150 (1.15 is stored as 1.1499…) can come out as "1.1k" where the model gives "1.2k".
- FormatNumber: non-integer inputs and numbers that JavaScript prints in exponent notation are not modelled.
- Dashboard.SortInPlace: `Array.prototype.sort` may use any stable algorithm. It is modelled as insertion sort; for a comparator that is a total preorder, every stable sort gives the same result.
- Dashboard.DisplayOrder: the quest list in state is a value. That the original list is not reordered, which the source gets from `slice()`, therefore holds by construction. It is not a proved postcondition.
- Quest XP values are integers. The source's comparator subtracts numbers of any kind.
