/**
 * The holiday page: the name search, the list sorted by date, the sections
 * per year (newest year first) and the edit form's date.
 */
module HolidayManagement {
  import opened Collections
  import opened Text

  /**
   * A holiday as the page holds it. `time` and `year` are what `new Date(date)`
   * gives for the stored date: its instant in milliseconds and its year.
   */
  datatype HolidayItem = HolidayItem(id: string, name: string, date: string, description: Option<string>,
                                     time: int, year: int)

  // ---------------------------------------------------------------- search and sort

  predicate NameMatches(h: HolidayItem, term: string) {
    ContainsIgnoreCase(h.name, term)
  }

  /** `filteredHolidays`: exactly the holidays whose name contains the term, ignoring case. */
  function FilteredHolidays(holidays: seq<HolidayItem>, term: string): (r: seq<HolidayItem>)
    ensures forall i :: 0 <= i < |r| ==> r[i] in holidays && NameMatches(r[i], term)
    ensures forall h :: h in holidays && NameMatches(h, term) ==> h in r
  {
    FilterSubset(holidays, h => NameMatches(h, term));
    Filter(holidays, h => NameMatches(h, term))
  }

  /** The filter keeps the order of the full list. */
  lemma FilteredInOrder(holidays: seq<HolidayItem>, term: string)
    ensures IsSubsequence(FilteredHolidays(holidays, term), holidays)
  {
    FilterIsSubsequence(holidays, h => NameMatches(h, term));
  }

  predicate SortedByTime(s: seq<HolidayItem>) {
    forall i, j :: 0 <= i < j < |s| ==> s[i].time <= s[j].time
  }

  /** `x` placed after every element of `s` whose time is not later than its own. */
  function Insert(s: seq<HolidayItem>, x: HolidayItem): (r: seq<HolidayItem>)
    requires SortedByTime(s)
    ensures |r| == |s| + 1
    ensures r[0] == (if s == [] || x.time < s[0].time then x else s[0])
    ensures SortedByTime(r)
    ensures multiset(r) == multiset(s) + multiset{x}
  {
    if s == [] then [x]
    else if x.time < s[0].time then [x] + s
    else
      assert s == [s[0]] + s[1..];
      [s[0]] + Insert(s[1..], x)
  }

  /**
   * The filtered holidays copied and sorted by the difference of their instants: a new list holding the
   * same holidays in ascending date order. Holidays with the same instant keep
   * their relative order, as `Array.prototype.sort` is stable.
   */
  function SortedHolidays(s: seq<HolidayItem>): (r: seq<HolidayItem>)
    ensures SortedByTime(r)
    ensures multiset(r) == multiset(s)
    ensures |r| == |s|
  {
    if s == [] then []
    else
      assert s == s[..|s| - 1] + [s[|s| - 1]];
      Insert(SortedHolidays(s[..|s| - 1]), s[|s| - 1])
  }

  /** A sorted list is left as it is. */
  lemma {:induction false} SortingSortedIsIdentity(s: seq<HolidayItem>)
    requires SortedByTime(s)
    ensures SortedHolidays(s) == s
  {
    if s != [] {
      var init := s[..|s| - 1];
      SortingSortedIsIdentity(init);
      InsertAtEnd(init, s[|s| - 1]);
      assert init + [s[|s| - 1]] == s;
    }
  }

  /** Inserting an element no earlier than every element appends it. */
  lemma {:induction false} InsertAtEnd(s: seq<HolidayItem>, x: HolidayItem)
    requires SortedByTime(s)
    requires forall k :: 0 <= k < |s| ==> s[k].time <= x.time
    ensures Insert(s, x) == s + [x]
  {
    if s != [] {
      InsertAtEnd(s[1..], x);
      assert [s[0]] + (s[1..] + [x]) == s + [x];
    }
  }

  // ---------------------------------------------------------------- sections per year

  /** The holidays of `s` in year `y`, in the order of `s`. */
  function InYear(s: seq<HolidayItem>, y: int): (r: seq<HolidayItem>)
    ensures |r| <= |s|
    ensures forall k :: 0 <= k < |r| ==> r[k] in s && r[k].year == y
    ensures forall k :: 0 <= k < |s| && s[k].year == y ==> s[k] in r
  {
    if s == [] then []
    else
      var init := s[..|s| - 1];
      var last := s[|s| - 1];
      assert forall k :: 0 <= k < |s| - 1 ==> s[k] == init[k];
      InYear(init, y) + (if last.year == y then [last] else [])
  }

  /** Some holiday of `s` falls in year `y`. */
  predicate HasYear(s: seq<HolidayItem>, y: int) {
    exists k :: 0 <= k < |s| && s[k].year == y
  }

  /** A year without holidays has an empty section. */
  lemma {:induction false} InYearEmpty(s: seq<HolidayItem>, y: int)
    requires !HasYear(s, y)
    ensures InYear(s, y) == []
  {
    if s != [] {
      var init := s[..|s| - 1];
      assert forall k :: 0 <= k < |init| ==> init[k] == s[k];
      InYearEmpty(init, y);
    }
  }

  /** Appending a holiday extends its own year's section and no other. */
  lemma InYearAppend(p: seq<HolidayItem>, h: HolidayItem, y: int)
    ensures InYear(p + [h], y) == InYear(p, y) + (if h.year == y then [h] else [])
  {
    assert (p + [h])[..|p|] == p;
  }

  lemma HasYearAppend(p: seq<HolidayItem>, h: HolidayItem, y: int)
    ensures HasYear(p + [h], y) <==> HasYear(p, y) || h.year == y
  {
    if HasYear(p, y) {
      var k :| 0 <= k < |p| && p[k].year == y;
      assert (p + [h])[k] == p[k];
    }
    if h.year == y {
      assert (p + [h])[|p|] == h;
    }
    if HasYear(p + [h], y) && h.year != y {
      var k :| 0 <= k < |p + [h]| && (p + [h])[k].year == y;
      assert k < |p| && p[k] == (p + [h])[k];
    }
  }

  /**
   * `holidaysByYear`: the `reduce` that appends each holiday to the list of
   * its year, creating the list on first use. `years` are the object's keys,
   * each year once.
   */
  method GroupByYear(sorted: seq<HolidayItem>) returns (groups: map<int, seq<HolidayItem>>, years: seq<int>)
    ensures forall y :: y in groups <==> HasYear(sorted, y)
    ensures forall y :: y in groups ==> groups[y] == InYear(sorted, y)
    ensures Distinct(years) && forall y :: y in years <==> y in groups
  {
    groups := map[];
    years := [];
    var i := 0;
    while i < |sorted|
      invariant 0 <= i <= |sorted|
      invariant forall y :: y in groups <==> HasYear(sorted[..i], y)
      invariant forall y :: y in groups ==> groups[y] == InYear(sorted[..i], y)
      invariant Distinct(years) && forall y :: y in years <==> y in groups
    {
      groups, years := AddToYear(groups, years, sorted[..i], sorted[i]);
      PrefixStep(sorted, i);
      i := i + 1;
    }
    assert sorted[..i] == sorted;
  }

  lemma PrefixStep(s: seq<HolidayItem>, i: nat)
    requires i < |s|
    ensures s[..i + 1] == s[..i] + [s[i]]
  {
  }

  /** A new key of the accumulator. */
  method AddYear(years: seq<int>, y: int) returns (r: seq<int>)
    requires Distinct(years) && y !in years
    ensures Distinct(r) && forall z :: z in r <==> z in years || z == y
  {
    r := years + [y];
  }

  /** `if (!acc[year]) acc[year] = []; acc[year].push(holiday)`. */
  method AddToYear(groups: map<int, seq<HolidayItem>>, years: seq<int>, done: seq<HolidayItem>, h: HolidayItem)
    returns (next: map<int, seq<HolidayItem>>, nextYears: seq<int>)
    requires forall y :: y in groups <==> HasYear(done, y)
    requires forall y :: y in groups ==> groups[y] == InYear(done, y)
    requires Distinct(years) && forall y :: y in years <==> y in groups
    ensures Distinct(nextYears) && forall y :: y in nextYears <==> y in next
    ensures forall y :: y in next <==> HasYear(done + [h], y)
    ensures forall y :: y in next ==> next[y] == InYear(done + [h], y)
  {
    InYearAppend(done, h, h.year);
    nextYears := years;
    if h.year !in groups {
      nextYears := AddYear(years, h.year);
    }
    var current := if h.year in groups then groups[h.year] else [];
    if h.year !in groups {
      InYearEmpty(done, h.year);
    }
    next := groups[h.year := current + [h]];
    forall y ensures y in next <==> HasYear(done + [h], y) {
      HasYearAppend(done, h, y);
    }
    forall y | y in next && y != h.year ensures next[y] == InYear(done + [h], y) {
      InYearAppend(done, h, y);
    }
  }

  /** Every year section of a date-sorted list is itself in date order. */
  lemma {:induction false} SectionsSorted(s: seq<HolidayItem>, y: int)
    requires SortedByTime(s)
    ensures SortedByTime(InYear(s, y))
  {
    if s != [] {
      var init := s[..|s| - 1];
      SectionsSorted(init, y);
      assert forall k :: 0 <= k < |InYear(init, y)| ==> InYear(init, y)[k] in init;
    }
  }

  /** The sizes of the sections for the years `ys`, added up. */
  function SectionSizes(s: seq<HolidayItem>, ys: seq<int>): nat {
    if ys == [] then 0 else |InYear(s, ys[0])| + SectionSizes(s, ys[1..])
  }

  /** One more holiday adds one to the section sizes exactly when its year is listed once. */
  lemma {:induction false} SectionSizesStep(s: seq<HolidayItem>, h: HolidayItem, ys: seq<int>)
    requires Distinct(ys)
    ensures SectionSizes(s + [h], ys) == SectionSizes(s, ys) + (if h.year in ys then 1 else 0)
  {
    if ys != [] {
      assert (s + [h])[..|s + [h]| - 1] == s;
      assert Distinct(ys[1..]);
      SectionSizesStep(s, h, ys[1..]);
      assert h.year in ys <==> h.year == ys[0] || h.year in ys[1..];
      assert ys[0] !in ys[1..];
    }
  }

  /** Each holiday lands in exactly one section: the sizes of all sections add up to the count. */
  lemma {:induction false} SectionSizesSum(s: seq<HolidayItem>, ys: seq<int>)
    requires Distinct(ys)
    requires forall k :: 0 <= k < |s| ==> s[k].year in ys
    ensures SectionSizes(s, ys) == |s|
  {
    if s == [] {
      EmptySections(ys);
    } else {
      var init := s[..|s| - 1];
      SectionSizesSum(init, ys);
      SectionSizesStep(init, s[|s| - 1], ys);
      assert init + [s[|s| - 1]] == s;
    }
  }

  lemma {:induction false} EmptySections(ys: seq<int>)
    ensures SectionSizes([], ys) == 0
  {
    if ys != [] {
      EmptySections(ys[1..]);
    }
  }

  /** A holiday appears in the section of its own year and in no other section. */
  lemma InOwnSectionOnly(s: seq<HolidayItem>, k: nat, y: int)
    requires k < |s|
    ensures s[k] in InYear(s, s[k].year)
    ensures y != s[k].year ==> s[k] !in InYear(s, y)
  {
  }

  predicate Descending(ys: seq<int>) {
    forall i, j :: 0 <= i < j < |ys| ==> ys[i] >= ys[j]
  }

  /** `y` placed after every year of `ys` not earlier than it. */
  function InsertYear(ys: seq<int>, y: int): (r: seq<int>)
    requires Descending(ys)
    ensures |r| == |ys| + 1
    ensures forall z :: z in r <==> z in ys || z == y
    ensures r[0] == (if ys == [] || y > ys[0] then y else ys[0])
    ensures Descending(r)
    ensures Distinct(ys) && y !in ys ==> Distinct(r)
  {
    if ys == [] then [y]
    else if y > ys[0] then [y] + ys
    else
      assert ys == [ys[0]] + ys[1..];
      var rest := InsertYear(ys[1..], y);
      assert Distinct(ys) && y !in ys ==> ys[0] !in rest;
      [ys[0]] + rest
  }

  /**
   * The year keys of the grouping, sorted by numeric value descending: the
   * same years, the latest first; years listed once stay listed once, so the
   * order is strictly decreasing.
   */
  function NewestFirst(ys: seq<int>): (r: seq<int>)
    ensures |r| == |ys|
    ensures forall z :: z in r <==> z in ys
    ensures Descending(r)
    ensures Distinct(ys) ==> Distinct(r) && forall i, j :: 0 <= i < j < |r| ==> r[i] > r[j]
  {
    if ys == [] then []
    else
      var init := ys[..|ys| - 1];
      assert ys == init + [ys[|ys| - 1]];
      assert Distinct(ys) ==> Distinct(init) && ys[|ys| - 1] !in init;
      InsertYear(NewestFirst(init), ys[|ys| - 1])
  }

  /**
   * Shown in the year order of `years` (each year of the sorted list once),
   * the sections hold every holiday of the search result exactly once.
   */
  lemma SectionsCoverSearch(holidays: seq<HolidayItem>, term: string, years: seq<int>)
    requires Distinct(years)
    requires forall y :: y in years <==> HasYear(SortedHolidays(FilteredHolidays(holidays, term)), y)
    ensures SectionSizes(SortedHolidays(FilteredHolidays(holidays, term)), years) == |FilteredHolidays(holidays, term)|
  {
    var sorted := SortedHolidays(FilteredHolidays(holidays, term));
    SectionSizesSum(sorted, years);
  }

  // ---------------------------------------------------------------- edit form

  datatype HolidayForm = HolidayForm(name: string, date: string, description: string)

  /** `handleEdit`: the name, the stored date up to its 'T', and the description or ''. */
  function EditForm(h: HolidayItem): (f: HolidayForm)
    ensures f.name == h.name
    ensures StartsWith(h.date, f.date) && 'T' !in f.date
    ensures |f.date| < |h.date| ==> h.date[|f.date|] == 'T'
    ensures f.description == (if Truthy(h.description) then h.description.value else "")
  {
    HolidayForm(h.name, BeforeFirst(h.date, 'T'), OrElse(h.description, Some("")).value)
  }

  /** A stored timestamp `day + "T" + time` is edited as `day`. */
  lemma {:induction false} EditDateIsDay(day: string, time: string)
    requires 'T' !in day
    ensures BeforeFirst(day + "T" + time, 'T') == day
  {
    if day != [] {
      assert (day + "T" + time)[1..] == day[1..] + "T" + time;
      EditDateIsDay(day[1..], time);
    }
  }
}
