/**
 * The conference programme page: sessions are narrowed by a free-text search,
 * a category filter and a day filter; the distinct days and categories feed the
 * tabs and the select boxes; the narrowed sessions are grouped per day and each
 * day's list is shown sorted by start time. The three filter values are the
 * page's state.
 */
module EventProgram {
  import opened Text
  import opened Seqs

  datatype Session = Session(
    id: int,
    title: string,
    date: string,
    startTime: string,
    endTime: string,
    location: string,
    category: string,
    speakers: seq<string>,
    description: string,
    capacity: int,
    registered: int)

  /** The value of a select box that disables its filter. */
  const All := "all"

  /** The lower-cased search term occurs in the lower-cased title, description
      or one of the speakers; the location is not searched. */
  predicate MatchesSearch(e: Session, term: string) {
    var t := ToLower(term);
    || Includes(ToLower(e.title), t)
    || Includes(ToLower(e.description), t)
    || exists speaker :: speaker in e.speakers && Includes(ToLower(speaker), t)
  }

  predicate Matches(e: Session, term: string, category: string, day: string) {
    && MatchesSearch(e, term)
    && (category == All || e.category == category)
    && (day == All || e.date == day)
  }

  function Criteria(term: string, category: string, day: string): Session -> bool {
    (e: Session) => Matches(e, term, category, day)
  }

  /** `filteredEvents`: the sessions that match, as a subsequence of `events`;
      every occurrence of a session is kept exactly when it matches. */
  function FilteredEvents(events: seq<Session>, term: string, category: string, day: string): (r: seq<Session>)
    ensures SubsequenceOf(r, events)
    ensures forall e :: multiset(r)[e] == if Matches(e, term, category, day) then multiset(events)[e] else 0
  {
    var p := Criteria(term, category, day);
    FilterIsSubsequence(events, p);
    FilterCounts(events, p);
    Filter(events, p)
  }

  /** With an empty search term and both filters at "all", nothing is removed. */
  lemma UnfilteredShowsEverything(events: seq<Session>)
    ensures FilteredEvents(events, "", All, All) == events
  {
    forall e | e in events
      ensures Criteria("", All, All)(e)
    {
      IncludesEmpty(ToLower(e.title));
    }
    FilterAll(events, Criteria("", All, All));
  }

  /** After "Clear filters" only the day filter still narrows the list. */
  lemma ClearedFiltersKeepOnlyDay(events: seq<Session>, day: string)
    ensures FilteredEvents(events, "", All, day) == if day == All then events else OnDay(events, day)
  {
    if day == All {
      UnfilteredShowsEverything(events);
    } else {
      forall e | e in events
        ensures Criteria("", All, day)(e) == DayIs(day)(e)
      {
        IncludesEmpty(ToLower(e.title));
      }
      FilterAgree(events, Criteria("", All, day), DayIs(day));
    }
  }

  function Dates(events: seq<Session>): (r: seq<string>)
    ensures |r| == |events|
    ensures forall i :: 0 <= i < |events| ==> r[i] == events[i].date
  {
    seq(|events|, i requires 0 <= i < |events| => events[i].date)
  }

  function Categories(events: seq<Session>): (r: seq<string>)
    ensures |r| == |events|
    ensures forall i :: 0 <= i < |events| ==> r[i] == events[i].category
  {
    seq(|events|, i requires 0 <= i < |events| => events[i].category)
  }

  /** `uniqueDays`: every session date exactly once, in first-occurrence order. */
  function UniqueDays(events: seq<Session>): (r: seq<string>)
    ensures NoDuplicates(r)
    ensures forall d :: d in r <==> d in Dates(events)
    ensures forall d :: d in r <==> exists e :: e in events && e.date == d
    ensures forall i, j :: 0 <= i < j < |r| ==> FirstIndex(Dates(events), r[i]) < FirstIndex(Dates(events), r[j])
  {
    var dates := Dates(events);
    DistinctFirstOccurrenceOrder(dates);
    assert forall d :: d in dates <==> exists e :: e in events && e.date == d by {
      forall d | d in dates ensures exists e :: e in events && e.date == d {
        var i :| 0 <= i < |dates| && dates[i] == d;
        assert events[i] in events;
      }
      forall d | exists e :: e in events && e.date == d ensures d in dates {
        var e :| e in events && e.date == d;
        var i :| 0 <= i < |events| && events[i] == e;
        assert dates[i] == d;
      }
    }
    Distinct(dates)
  }

  /** `uniqueCategories`: every session category exactly once, in first-occurrence order. */
  function UniqueCategories(events: seq<Session>): (r: seq<string>)
    ensures NoDuplicates(r)
    ensures forall c :: c in r <==> c in Categories(events)
    ensures forall c :: c in r <==> exists e :: e in events && e.category == c
    ensures forall i, j :: 0 <= i < j < |r| ==> FirstIndex(Categories(events), r[i]) < FirstIndex(Categories(events), r[j])
  {
    var categories := Categories(events);
    DistinctFirstOccurrenceOrder(categories);
    assert forall c :: c in categories <==> exists e :: e in events && e.category == c by {
      forall c | c in categories ensures exists e :: e in events && e.category == c {
        var i :| 0 <= i < |categories| && categories[i] == c;
        assert events[i] in events;
      }
      forall c | exists e :: e in events && e.category == c ensures c in categories {
        var e :| e in events && e.category == c;
        var i :| 0 <= i < |events| && events[i] == e;
        assert categories[i] == c;
      }
    }
    Distinct(categories)
  }

  function DayIs(day: string): Session -> bool {
    (e: Session) => e.date == day
  }

  /** The sessions of `filtered` held on `day`, in their original order. */
  function OnDay(filtered: seq<Session>, day: string): (r: seq<Session>)
    ensures SubsequenceOf(r, filtered)
    ensures forall e :: multiset(r)[e] == if e.date == day then multiset(filtered)[e] else 0
  {
    FilterIsSubsequence(filtered, DayIs(day));
    FilterCounts(filtered, DayIs(day));
    Filter(filtered, DayIs(day))
  }

  /** `eventsByDay`: the `reduce` over the days that writes one entry per day
      into an accumulator record. Every day gets a key, possibly with an empty
      list. */
  method GroupByDay(days: seq<string>, filtered: seq<Session>) returns (byDay: map<string, seq<Session>>)
    ensures byDay.Keys == set d | d in days
    ensures forall d :: d in byDay ==> byDay[d] == OnDay(filtered, d)
  {
    byDay := map[];
    for i := 0 to |days|
      invariant byDay.Keys == set d | d in days[..i]
      invariant forall d :: d in byDay ==> byDay[d] == OnDay(filtered, d)
    {
      assert days[..i + 1] == days[..i] + [days[i]];
      byDay := byDay[days[i] := OnDay(filtered, days[i])];
    }
    assert days[..|days|] == days;
  }

  /** The day groups laid end to end, in the order of `days`. */
  function ConcatGroups(days: seq<string>, filtered: seq<Session>): seq<Session> {
    if days == [] then [] else OnDay(filtered, days[0]) + ConcatGroups(days[1..], filtered)
  }

  lemma OnDayCons(x: Session, rest: seq<Session>, day: string)
    ensures OnDay([x] + rest, day) == (if x.date == day then [x] else []) + OnDay(rest, day)
  {
    assert ([x] + rest)[0] == x;
    assert ([x] + rest)[1..] == rest;
  }

  lemma {:induction false} ConcatGroupsCons(days: seq<string>, x: Session, rest: seq<Session>)
    requires NoDuplicates(days)
    ensures multiset(ConcatGroups(days, [x] + rest))
         == multiset(ConcatGroups(days, rest)) + (if x.date in days then multiset{x} else multiset{})
  {
    if days != [] {
      var d, more := days[0], days[1..];
      var head := if x.date == d then [x] else [];
      var inMore := if x.date in more then multiset{x} else multiset{};
      var inDays := if x.date in days then multiset{x} else multiset{};
      assert NoDuplicates(more);
      assert multiset(head) + inMore == inDays by {
        assert x.date in days <==> x.date == d || x.date in more;
        assert x.date == d ==> x.date !in more;
      }
      assert multiset(OnDay([x] + rest, d)) == multiset(head) + multiset(OnDay(rest, d)) by {
        OnDayCons(x, rest, d);
      }
      assert multiset(ConcatGroups(more, [x] + rest)) == multiset(ConcatGroups(more, rest)) + inMore by {
        ConcatGroupsCons(more, x, rest);
      }
      assert ConcatGroups(days, [x] + rest) == OnDay([x] + rest, d) + ConcatGroups(more, [x] + rest);
      assert ConcatGroups(days, rest) == OnDay(rest, d) + ConcatGroups(more, rest);
      Regroup(OnDay([x] + rest, d), ConcatGroups(more, [x] + rest), OnDay(rest, d), ConcatGroups(more, rest),
              multiset(head), inMore);
    }
  }

  /** Two parts that each gained some elements, joined. */
  lemma Regroup<T>(a: seq<T>, b: seq<T>, a': seq<T>, b': seq<T>, h: multiset<T>, m: multiset<T>)
    requires multiset(a) == h + multiset(a') && multiset(b) == multiset(b') + m
    ensures multiset(a + b) == multiset(a' + b') + (h + m)
  {
  }

  /** When the days are distinct and cover every date, the day groups together
      are a rearrangement of the filtered list. */
  lemma {:induction false} GroupsPartition(days: seq<string>, filtered: seq<Session>)
    requires NoDuplicates(days)
    requires forall e :: e in filtered ==> e.date in days
    ensures multiset(ConcatGroups(days, filtered)) == multiset(filtered)
  {
    if filtered == [] {
      GroupsOfNothing(days);
    } else {
      var x, rest := filtered[0], filtered[1..];
      assert filtered == [x] + rest;
      GroupsPartition(days, rest);
      ConcatGroupsCons(days, x, rest);
    }
  }

  lemma {:induction false} GroupsOfNothing(days: seq<string>)
    ensures ConcatGroups(days, []) == []
  {
    if days != [] {
      GroupsOfNothing(days[1..]);
    }
  }

  /** The page's tabs: the groups of the filtered sessions over `uniqueDays`,
      together, hold every filtered session exactly as often as the filtered
      list does. */
  lemma ProgramTabsPartitionFiltered(events: seq<Session>, term: string, category: string, day: string)
    ensures var filtered := FilteredEvents(events, term, category, day);
            multiset(ConcatGroups(UniqueDays(events), filtered)) == multiset(filtered)
  {
    var filtered := FilteredEvents(events, term, category, day);
    forall e | e in filtered
      ensures e.date in UniqueDays(events)
    {
      assert multiset(filtered)[e] > 0;
      assert e in events;
    }
    GroupsPartition(UniqueDays(events), filtered);
  }

  predicate StartsNoLater(a: Session, b: Session) {
    LexLeq(a.startTime, b.startTime)
  }

  /** Ascending by `startTime` in string order. */
  predicate SortedByStart(s: seq<Session>) {
    forall i, j :: 0 <= i < j < |s| ==> StartsNoLater(s[i], s[j])
  }

  lemma {:induction false} AdjacentSortedIsSorted(s: seq<Session>)
    requires forall k :: 0 <= k && k + 1 < |s| ==> StartsNoLater(s[k], s[k + 1])
    ensures SortedByStart(s)
  {
    if |s| > 1 {
      AdjacentSortedIsSorted(s[1..]);
      forall j | 1 < j < |s|
        ensures StartsNoLater(s[0], s[j])
      {
        assert StartsNoLater(s[1..][0], s[1..][j - 1]);
        LexLeqTransitive(s[0].startTime, s[1].startTime, s[j].startTime);
      }
      forall i, j | 0 <= i < j < |s|
        ensures StartsNoLater(s[i], s[j])
      {
        if i > 0 {
          assert StartsNoLater(s[1..][i - 1], s[1..][j - 1]);
        }
      }
    }
  }

  /** Every neighbouring pair below `hi` is in order. */
  predicate AdjacentSorted(s: seq<Session>, hi: int) {
    forall k :: 0 <= k && k + 1 < hi && k + 1 < |s| ==> StartsNoLater(s[k], s[k + 1])
  }

  /** The insertion sort's inner-loop state: the session being moved sits at
      `j`; every neighbouring pair up to `i` is in order except around `j`,
      and the sessions on either side of it are in order with each other. */
  predicate Inserting(s: seq<Session>, i: int, j: int) {
    0 <= j <= i < |s|
    && (forall k :: 0 <= k && k + 1 <= i && k != j - 1 && k != j ==> StartsNoLater(s[k], s[k + 1]))
    && (0 < j < i ==> StartsNoLater(s[j - 1], s[j + 1]))
    && (j < i ==> StartsNoLater(s[j], s[j + 1]))
  }

  lemma StartInserting(s: seq<Session>, i: int)
    requires 0 <= i < |s| && AdjacentSorted(s, i)
    ensures Inserting(s, i, i)
  {
  }

  /** Swapping the moving session with a predecessor that starts strictly
      later moves the gap one place to the left. */
  lemma SwapLeft(s: seq<Session>, i: int, j: int)
    requires Inserting(s, i, j) && 0 < j && !StartsNoLater(s[j - 1], s[j])
    ensures Inserting(s[j - 1 := s[j]][j := s[j - 1]], i, j - 1)
  {
    LexLeqTotal(s[j - 1].startTime, s[j].startTime);
    var t := s[j - 1 := s[j]][j := s[j - 1]];
    if j < i {
      LexLeqTransitive(t[j - 1].startTime, t[j].startTime, t[j + 1].startTime);
    }
  }

  /** Once the moving session has stopped, the first `i + 1` are in order. */
  lemma DoneInserting(s: seq<Session>, i: int, j: int)
    requires Inserting(s, i, j) && (j == 0 || StartsNoLater(s[j - 1], s[j]))
    ensures AdjacentSorted(s, i + 1)
  {
  }

  lemma SwapMultiset(s: seq<Session>, x: int, y: int)
    requires 0 <= x < |s| && 0 <= y < |s|
    ensures multiset(s[x := s[y]][y := s[x]]) == multiset(s)
  {
  }

  /** `.sort((a, b) => a.startTime.localeCompare(b.startTime))` on one day's
      array: an insertion sort that moves a session left past every session
      that starts strictly later, so sessions with equal start times keep their
      order. */
  method SortByStartTime(a: array<Session>)
    modifies a
    ensures SortedByStart(a[..])
    ensures multiset(a[..]) == multiset(old(a[..]))
  {
    for i := 0 to a.Length
      invariant AdjacentSorted(a[..], i)
      invariant multiset(a[..]) == multiset(old(a[..]))
    {
      StartInserting(a[..], i);
      var j := i;
      while j > 0 && !StartsNoLater(a[j - 1], a[j])
        invariant Inserting(a[..], i, j)
        invariant multiset(a[..]) == multiset(old(a[..]))
      {
        SwapLeft(a[..], i, j);
        SwapMultiset(a[..], j - 1, j);
        a[j - 1], a[j] := a[j], a[j - 1];
        j := j - 1;
      }
      DoneInserting(a[..], i, j);
    }
    AdjacentSortedIsSorted(a[..]);
  }

  /** One day tab: when the day has a non-empty group, that group sorted by
      start time; otherwise nothing (the page shows its "no events" notice). */
  method ShowDay(byDay: map<string, seq<Session>>, day: string) returns (shown: seq<Session>)
    ensures day !in byDay ==> shown == []
    ensures day in byDay ==> multiset(shown) == multiset(byDay[day])
    ensures SortedByStart(shown)
  {
    if day !in byDay || |byDay[day]| == 0 {
      return [];
    }
    var a := new Session[|byDay[day]|](i requires 0 <= i < |byDay[day]| => byDay[day][i]);
    assert a[..] == byDay[day];
    SortByStartTime(a);
    shown := a[..];
  }

  /** The page's filter state. */
  class ProgramView {
    var searchTerm: string
    var categoryFilter: string
    var dayFilter: string

    constructor ()
      ensures searchTerm == "" && categoryFilter == All && dayFilter == All
    {
      searchTerm, categoryFilter, dayFilter := "", All, All;
    }

    method SetSearchTerm(term: string)
      modifies this
      ensures searchTerm == term
      ensures categoryFilter == old(categoryFilter) && dayFilter == old(dayFilter)
    {
      searchTerm := term;
    }

    method SetCategoryFilter(category: string)
      modifies this
      ensures categoryFilter == category
      ensures searchTerm == old(searchTerm) && dayFilter == old(dayFilter)
    {
      categoryFilter := category;
    }

    method SetDayFilter(day: string)
      modifies this
      ensures dayFilter == day
      ensures searchTerm == old(searchTerm) && categoryFilter == old(categoryFilter)
    {
      dayFilter := day;
    }

    /** "Clear filters": resets the search and the category, not the day. */
    method ClearFilters()
      modifies this
      ensures searchTerm == "" && categoryFilter == All
      ensures dayFilter == old(dayFilter)
      ensures forall events: seq<Session> :: Visible(events) == if dayFilter == All then events else OnDay(events, dayFilter)
    {
      searchTerm, categoryFilter := "", All;
      forall events: seq<Session>
        ensures Visible(events) == if dayFilter == All then events else OnDay(events, dayFilter)
      {
        ClearedFiltersKeepOnlyDay(events, dayFilter);
      }
    }

    function Visible(events: seq<Session>): seq<Session>
      reads this
    {
      FilteredEvents(events, searchTerm, categoryFilter, dayFilter)
    }
  }
}
