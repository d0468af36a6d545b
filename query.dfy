/**
 * The transaction listing: a user's records, optionally narrowed to one type,
 * narrowed to a date window, newest first.
 */
module Query {
  import opened Wrappers
  import opened Records
  import opened Lists

  /** The type filter that keeps every type. */
  const AllTypes: string := "all"

  /**
   * The date window of a listing. A numeric frequency of `days` keeps the records
   * dated at or after `now` minus that many days; the "custom" frequency keeps the
   * records whose day lies in the inclusive range [start, end], and only when both
   * bounds are given.
   */
  datatype Window =
    | Rolling(now: int, days: int)
    | Custom(start: Option<int>, end: Option<int>)

  /** The instant a rolling window starts at. */
  function Cutoff(now: int, days: int): (c: int)
    ensures DayOf(c) == DayOf(now) - days
    ensures c <= now <==> days >= 0
  {
    DayShift(now, days);
    now - days * TicksPerDay
  }

  /** Whether a record dated `date` passes the window; stated on whole days. */
  predicate DateAccepted(date: int, w: Window)
    ensures w.Rolling? && DayOf(date) > DayOf(w.now) - w.days ==> DateAccepted(date, w)
    ensures w.Rolling? && DayOf(date) < DayOf(w.now) - w.days ==> !DateAccepted(date, w)
    ensures w.Custom? && w.start.Some? && w.end.Some? ==>
      (DateAccepted(date, w) <==> w.start.value * TicksPerDay <= date < w.end.value * TicksPerDay + TicksPerDay)
    ensures w.Custom? && (w.start.None? || w.end.None?) ==> DateAccepted(date, w)
  {
    match w
    case Rolling(now, days) => date >= Cutoff(now, days)
    case Custom(start, end) =>
      start.Some? && end.Some? ==> start.value <= DayOf(date) <= end.value
  }

  /** Moving a timestamp back by whole days moves its day back by as many days. */
  lemma DayShift(t: int, days: int)
    ensures DayOf(t - days * TicksPerDay) == DayOf(t) - days
  {
    var d := DayOf(t) - days;
    var c := t - days * TicksPerDay;
    assert d * TicksPerDay <= c < d * TicksPerDay + TicksPerDay;
  }

  /** The three conditions a listed record meets, stated on one record. */
  predicate Matches(t: Transaction, userId: string, typeFilter: string, w: Window) {
    && t.userId == userId
    && (typeFilter == AllTypes || t.kind == typeFilter)
    && DateAccepted(t.date, w)
  }

  /** The records a listing shows, in store order: by owner, then by type, then by date. */
  function Selected(ts: seq<Transaction>, userId: string, typeFilter: string, w: Window): (r: seq<Transaction>)
    ensures forall t :: t in r <==> t in ts && Matches(t, userId, typeFilter, w)
  {
    var mine := Filter(ts, (t: Transaction) => t.userId == userId);
    var typed := if typeFilter != AllTypes then Filter(mine, (t: Transaction) => t.kind == typeFilter) else mine;
    match w
    case Rolling(now, days) => Filter(typed, (t: Transaction) => t.date >= Cutoff(now, days))
    case Custom(Some(start), Some(end)) => Filter(typed, (t: Transaction) => start <= DayOf(t.date) <= end)
    case Custom(_, _) => typed
  }

  /** Dates never increase along the list. */
  predicate NewestFirst(s: seq<Transaction>) {
    forall i, j :: 0 <= i < j < |s| ==> s[i].date >= s[j].date
  }

  /** Puts `x` in front of the first record of `r` that is not newer than it. */
  function Insert(x: Transaction, r: seq<Transaction>): (res: seq<Transaction>)
    ensures multiset(res) == multiset(r) + multiset{x}
  {
    if r == [] || r[0].date <= x.date then [x] + r
    else
      assert r == [r[0]] + r[1..];
      [r[0]] + Insert(x, r[1..])
  }

  /** Inserting into a list ordered newest first keeps it so. */
  lemma {:induction false} InsertSorted(x: Transaction, r: seq<Transaction>)
    requires NewestFirst(r)
    ensures NewestFirst(Insert(x, r))
  {
    var res := Insert(x, r);
    if r == [] || r[0].date <= x.date {
      assert res == [x] + r;
      forall i, j | 0 <= i < j < |res|
        ensures res[i].date >= res[j].date
      {
        assert res[j] == r[j - 1];
        if i > 0 {
          assert res[i] == r[i - 1];
        } else {
          assert r[0].date >= r[j - 1].date;
        }
      }
    } else {
      var rest := Insert(x, r[1..]);
      InsertSorted(x, r[1..]);
      assert res == [r[0]] + rest;
      forall i, j | 0 <= i < j < |res|
        ensures res[i].date >= res[j].date
      {
        var y := rest[j - 1];
        if i > 0 {
          assert res[i] == rest[i - 1] && res[j] == y;
        } else {
          assert y in multiset(rest);
          assert y == x || y in multiset(r[1..]);
          if y != x {
            var k :| 1 <= k < |r| && r[k] == y;
          }
        }
      }
    }
  }

  /** `sorted(s, key=date, reverse=True)` */
  function SortNewestFirst(s: seq<Transaction>): (r: seq<Transaction>)
    ensures NewestFirst(r)
    ensures multiset(r) == multiset(s)
  {
    if s == [] then []
    else
      assert s == [s[0]] + s[1..];
      var rest := SortNewestFirst(s[1..]);
      InsertSorted(s[0], rest);
      Insert(s[0], rest)
  }

  /** The listing `get_transactions` returns. */
  function GetTransactions(ts: seq<Transaction>, userId: string, typeFilter: string, w: Window): (r: seq<Transaction>)
    ensures forall t :: t in r <==> t in ts && Matches(t, userId, typeFilter, w)
    ensures forall t :: multiset(r)[t] == if Matches(t, userId, typeFilter, w) then multiset(ts)[t] else 0
    ensures NewestFirst(r)
  {
    var sel := Selected(ts, userId, typeFilter, w);
    SelectedIsOneFilter(ts, userId, typeFilter, w);
    FilterCount(ts, (t: Transaction) => Matches(t, userId, typeFilter, w));
    var r := SortNewestFirst(sel);
    assert forall t :: t in r <==> t in multiset(sel);
    r
  }

  /** The staged filters keep exactly what one filter on all three conditions keeps, in the same order. */
  lemma SelectedIsOneFilter(ts: seq<Transaction>, userId: string, typeFilter: string, w: Window)
    ensures Selected(ts, userId, typeFilter, w) == Filter(ts, (t: Transaction) => Matches(t, userId, typeFilter, w))
  {
    var owner := (t: Transaction) => t.userId == userId;
    var all := (t: Transaction) => Matches(t, userId, typeFilter, w);
    var mine := Filter(ts, owner);
    var typed := if typeFilter != AllTypes then Filter(mine, (t: Transaction) => t.kind == typeFilter) else mine;
    var ownerKind := (t: Transaction) => t.userId == userId && (typeFilter == AllTypes || t.kind == typeFilter);
    if typeFilter != AllTypes {
      FilterFuse(ts, owner, (t: Transaction) => t.kind == typeFilter, ownerKind);
    } else {
      FilterFuse(ts, owner, (t: Transaction) => true, ownerKind);
      FilterKeepsAll(mine, (t: Transaction) => true);
    }
    assert typed == Filter(ts, ownerKind);
    match w
    case Rolling(now, days) =>
      FilterFuse(ts, ownerKind, (t: Transaction) => t.date >= Cutoff(now, days), all);
    case Custom(Some(start), Some(end)) =>
      FilterFuse(ts, ownerKind, (t: Transaction) => start <= DayOf(t.date) <= end, all);
    case Custom(_, _) =>
      FilterFuse(ts, ownerKind, (t: Transaction) => true, all);
      FilterKeepsAll(typed, (t: Transaction) => true);
  }

  /** Inserting keeps the order of the records a single-date condition selects, with `x` first among them. */
  lemma {:induction false} InsertStable(x: Transaction, r: seq<Transaction>, p: Transaction -> bool)
    requires p(x) ==> forall y :: y in r && p(y) ==> y.date == x.date
    ensures Filter(Insert(x, r), p) == (if p(x) then [x] else []) + Filter(r, p)
  {
    if r == [] || r[0].date <= x.date {
      assert ([x] + r)[1..] == r;
    } else {
      var rest := Insert(x, r[1..]);
      InsertStable(x, r[1..], p);
      assert ([r[0]] + rest)[1..] == rest;
      assert !(p(x) && p(r[0]));
    }
  }

  /**
   * Sorting is stable: among records that share a date, the sorted list keeps
   * their original order (stated for any condition that selects records of one date).
   */
  lemma {:induction false} SortStable(s: seq<Transaction>, p: Transaction -> bool)
    requires forall x, y :: x in s && y in s && p(x) && p(y) ==> x.date == y.date
    ensures Filter(SortNewestFirst(s), p) == Filter(s, p)
  {
    if s != [] {
      var sorted := SortNewestFirst(s[1..]);
      SortStable(s[1..], p);
      forall y | y in sorted
        ensures y in s
      {
        assert y in multiset(s[1..]);
      }
      InsertStable(s[0], sorted, p);
      assert SortNewestFirst(s) == Insert(s[0], sorted);
      assert Filter(s, p) == (if p(s[0]) then [s[0]] else []) + Filter(s[1..], p);
    }
  }

  /**
   * The listing shows records with equal dates in the order the store holds them
   * (Python's sort is stable, also with `reverse=True`).
   */
  lemma ListingKeepsStoreOrderOnTies(ts: seq<Transaction>, userId: string, typeFilter: string, w: Window, date: int)
    ensures
      var sameDate := (t: Transaction) => t.date == date;
      Filter(GetTransactions(ts, userId, typeFilter, w), sameDate)
        == Filter(Filter(ts, (t: Transaction) => Matches(t, userId, typeFilter, w)), sameDate)
  {
    SelectedIsOneFilter(ts, userId, typeFilter, w);
    SortStable(Selected(ts, userId, typeFilter, w), (t: Transaction) => t.date == date);
  }

  /**
   * With the "custom" frequency a record of the right owner and type is listed exactly
   * when its day lies within both bounds, inclusively; when either bound is missing,
   * whatever its date.
   */
  lemma CustomRange(ts: seq<Transaction>, userId: string, typeFilter: string, start: Option<int>, end: Option<int>, t: Transaction)
    requires t in ts && t.userId == userId && (typeFilter == AllTypes || t.kind == typeFilter)
    ensures t in GetTransactions(ts, userId, typeFilter, Custom(start, end)) <==>
      (start.None? || end.None? || start.value <= DayOf(t.date) <= end.value)
  {
  }

  /** A rolling window over more days lists every record a shorter one lists. */
  lemma WiderWindowListsMore(ts: seq<Transaction>, userId: string, typeFilter: string, now: int, days: int, moreDays: int)
    requires days <= moreDays
    ensures forall t ::
      (t in GetTransactions(ts, userId, typeFilter, Rolling(now, days))
       ==> t in GetTransactions(ts, userId, typeFilter, Rolling(now, moreDays)))
  {
  }
}
