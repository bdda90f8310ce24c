/** The read-only views of the web front end over the fetched records:
    the sidebar's lost and found counts, the recent-items window, its
    search box and the date shown next to each item. */
module Listing {
  import opened Common
  import opened Text
  import opened Store
  import opened Pipeline

  // ---------------------------------------------------------------------
  // Sidebar counts

  /** `len([item for item in items if item['type'] == k])`: exact,
      case-sensitive comparison. */
  function CountKind(items: seq<Record>, k: string): (n: nat)
    ensures n <= |items|
    ensures n == 0 <==> forall x :: x in items ==> x.kind != k
    decreases |items|
  {
    if |items| == 0 then 0
    else (if items[0].kind == k then 1 else 0) + CountKind(items[1..], k)
  }

  function LostCount(items: seq<Record>): nat { CountKind(items, LostKind) }

  function FoundCount(items: seq<Record>): nat { CountKind(items, FoundKind) }

  /** The report form only offers these two kinds. */
  predicate FormKinds(items: seq<Record>)
  {
    forall x :: x in items ==> x.kind == LostKind || x.kind == FoundKind
  }

  /** The two counts never exceed the number of records, and add up to it
      exactly when every record carries one of the form's two kinds. */
  lemma {:induction false} CountsPartition(items: seq<Record>)
    ensures LostCount(items) + FoundCount(items) <= |items|
    ensures LostCount(items) + FoundCount(items) == |items| <==> FormKinds(items)
    decreases |items|
  {
    if |items| > 0 {
      CountsPartition(items[1..]);
      assert forall x :: x in items <==> x == items[0] || x in items[1..];
    }
  }

  /** The sidebar's lost count never exceeds the number of records the
      found-item scan treats as lost (which compares case-insensitively),
      and the two agree on records entered through the form. */
  lemma {:induction false} LostCountAgreesWithScan(items: seq<Record>)
    ensures LostCount(items) <= |LostRecords(items)|
    ensures FormKinds(items) ==> LostCount(items) == |LostRecords(items)|
    decreases |items|
  {
    if |items| > 0 {
      LostCountAgreesWithScan(items[1..]);
      assert items[0] in items;
      assert Lower(LostKind) == LostKind;
      assert Lower(FoundKind) == FoundKind;
      assert FormKinds(items) ==> FormKinds(items[1..]) by {
        forall x | x in items[1..] ensures x in items { }
      }
    }
  }

  // ---------------------------------------------------------------------
  // Recent items

  const RecentLimit := 20

  function Reverse<T>(s: seq<T>): (r: seq<T>)
    ensures |r| == |s|
    ensures forall i :: 0 <= i < |s| ==> r[i] == s[|s| - 1 - i]
    decreases |s|
  {
    if |s| == 0 then [] else Reverse(s[1..]) + [s[0]]
  }

  /** `items[-20:][::-1]`: the last twenty records fetched, newest first. */
  function Recent<T>(items: seq<T>): (r: seq<T>)
    ensures |r| == Min(RecentLimit, |items|)
    ensures forall i :: 0 <= i < |r| ==> r[i] == items[|items| - 1 - i]
  {
    Reverse(items[|items| - Min(RecentLimit, |items|)..])
  }

  /** Ids grow along the store, as `AUTOINCREMENT` hands them out. */
  predicate Ascending(items: seq<Record>)
  {
    forall i, j :: 0 <= i < j < |items| ==> items[i].id < items[j].id
  }

  lemma InsertKeepsAscending(store: seq<Record>, draft: Draft, now: string)
    requires Ascending(store)
    ensures Ascending(Insert(store, draft, now).0)
  {
    var r := Insert(store, draft, now);
    forall i, j | 0 <= i < j < |r.0| ensures r.0[i].id < r.0[j].id {
      assert r.0[i] == store[i];
      if j < |store| {
        assert r.0[j] == store[j];
      }
    }
  }

  /** On an ascending store the window lists ids in decreasing order, and
      every record it leaves out is older than every record it shows. */
  lemma RecentNewestFirst(items: seq<Record>)
    requires Ascending(items)
    ensures var r := Recent(items);
            && (forall i, j :: 0 <= i < j < |r| ==> r[i].id > r[j].id)
            && (forall i, j :: 0 <= i < |items| - |r| && 0 <= j < |r| ==> items[i].id < r[j].id)
  {
    var r := Recent(items);
    forall i, j | 0 <= i < j < |r| ensures r[i].id > r[j].id {
      assert r[i] == items[|items| - 1 - i] && r[j] == items[|items| - 1 - j];
    }
    forall i, j | 0 <= i < |items| - |r| && 0 <= j < |r| ensures items[i].id < r[j].id {
      assert r[j] == items[|items| - 1 - j];
    }
  }

  // ---------------------------------------------------------------------
  // Search

  /** The search term, lower-cased, occurs in the lower-cased title,
      description or kind. */
  predicate Hit(item: Record, term: string)
  {
    var t := Lower(term);
    Contains(Lower(item.title), t) || Contains(Lower(item.description), t)
    || Contains(Lower(item.kind), t)
  }

  /** `s` occurs in `t` in order, possibly with gaps. */
  predicate SubsequenceOf<T(==)>(s: seq<T>, t: seq<T>)
    decreases |t|
  {
    if |s| == 0 then true
    else if |t| == 0 then false
    else if s[0] == t[0] then SubsequenceOf(s[1..], t[1..])
    else SubsequenceOf(s, t[1..])
  }

  /** The list comprehension: the hits, in their original order, each as
      often as it occurs in the input. */
  function KeepHits(items: seq<Record>, term: string): (r: seq<Record>)
    ensures forall x :: x in r <==> x in items && Hit(x, term)
    ensures forall x :: multiset(r)[x] == if Hit(x, term) then multiset(items)[x] else 0
    ensures SubsequenceOf(r, items)
    decreases |items|
  {
    if |items| == 0 then []
    else
      var rest := KeepHits(items[1..], term);
      assert items == [items[0]] + items[1..];
      if Hit(items[0], term) then
        assert ([items[0]] + rest)[1..] == rest;
        [items[0]] + rest
      else
        assert |rest| > 0 ==> rest[0] in rest;
        rest
  }

  lemma {:induction false} SubsequenceOfSelf<T>(s: seq<T>)
    ensures SubsequenceOf(s, s)
    decreases |s|
  {
    if |s| > 0 {
      SubsequenceOfSelf(s[1..]);
    }
  }

  /** The search box: an empty term shows the window unchanged. */
  function Search(recent: seq<Record>, term: string): (r: seq<Record>)
    ensures term == "" ==> r == recent
    ensures term != "" ==> forall x :: x in r <==> x in recent && Hit(x, term)
    ensures term != "" ==> forall x :: multiset(r)[x] == if Hit(x, term) then multiset(recent)[x] else 0
    ensures SubsequenceOf(r, recent)
  {
    if term == "" then SubsequenceOfSelf(recent); recent else KeepHits(recent, term)
  }

  /** Every record contains the empty string, so the emptiness test before
      filtering changes nothing: the unguarded comprehension keeps the
      whole window as well. */
  lemma {:induction false} EmptyTermKeepsEverything(items: seq<Record>)
    ensures KeepHits(items, "") == items
    ensures forall term :: Search(items, term) == KeepHits(items, term)
    decreases |items|
  {
    if |items| > 0 {
      assert StartsWith(Lower(items[0].title), Lower(""));
      EmptyTermKeepsEverything(items[1..]);
    }
  }

  /** Searching for a record's kind in any capitalisation finds it. */
  lemma SearchFindsOwnKind(recent: seq<Record>, x: Record, term: string)
    requires x in recent && Lower(term) == Lower(x.kind)
    ensures x in Search(recent, term)
  {
    assert StartsWith(Lower(x.kind), Lower(term));
  }

  // ---------------------------------------------------------------------
  // Date column

  /** `s.split(' ')[0]`: everything before the first space. */
  function BeforeSpace(s: string): (r: string)
    ensures r <= s && ' ' !in r
    ensures |r| < |s| ==> s[|r|] == ' '
    decreases |s|
  {
    if |s| == 0 || s[0] == ' ' then "" else [s[0]] + BeforeSpace(s[1..])
  }

  /** `created_at.split(' ')[0] if ' ' in created_at else created_at`. */
  function DatePrefix(s: string): (r: string)
    ensures r <= s && ' ' !in r
    ensures |r| < |s| <==> ' ' in s
    ensures ' ' in s ==> s[|r|] == ' '
  {
    if ' ' in s then BeforeSpace(s) else s
  }

  /** A timestamp in SQLite's `CURRENT_TIMESTAMP` layout shows its date. */
  lemma SqliteTimestampShowsDate(date: string, time: string)
    requires ' ' !in date
    ensures DatePrefix(date + " " + time) == date
  {
    var s := date + " " + time;
    assert s[|date|] == ' ';
    var r := DatePrefix(s);
    assert r == s[..|r|];
    assert date == s[..|date|];
  }

  /** `datetime.isoformat()` joins date and time with `T`. */
  function IsoTimestamp(date: string, time: string): string
  {
    date + "T" + time
  }

  /** Records are stored with an ISO timestamp, which has no space: the
      date column shows the whole timestamp, not the date. */
  lemma IsoTimestampShownWhole(date: string, time: string)
    requires ' ' !in date && ' ' !in time
    ensures DatePrefix(IsoTimestamp(date, time)) == IsoTimestamp(date, time) != date
  {
    var s := IsoTimestamp(date, time);
    assert |s| > |date|;
  }

  /** The date part of either timestamp layout: everything before the
      first space or `T`. */
  function DisplayDate(s: string): (r: string)
    ensures r <= s && ' ' !in r && 'T' !in r
    ensures |r| < |s| ==> s[|r|] == ' ' || s[|r|] == 'T'
    decreases |s|
  {
    if |s| == 0 || s[0] == ' ' || s[0] == 'T' then "" else [s[0]] + DisplayDate(s[1..])
  }

  /** The corrected column shows the date of both layouts. */
  lemma DisplayDateShowsDate(date: string, time: string)
    requires ' ' !in date && 'T' !in date
    ensures DisplayDate(IsoTimestamp(date, time)) == date
    ensures DisplayDate(date + " " + time) == date
  {
    DisplayDateCutsAt(date, 'T', time);
    DisplayDateCutsAt(date, ' ', time);
  }

  lemma DisplayDateCutsAt(date: string, sep: char, time: string)
    requires ' ' !in date && 'T' !in date && (sep == ' ' || sep == 'T')
    ensures DisplayDate(date + [sep] + time) == date
  {
    var s := date + [sep] + time;
    var r := DisplayDate(s);
    assert s[|date|] == sep;
    assert r == s[..|r|];
    assert date == s[..|date|];
  }
}
