/** The list view's transform (src/components/UserTable.tsx): the sort
    comparator, the sort of a copy of the users, the page arithmetic, the
    pager's conditions and the busy marker around a delete.

    The display locale's collation (`localeCompare(…, 'ru')`) and the epoch
    time of a date string (`new Date(…).getTime()`) are parameters. */
module UserTable {
  import opened UserTypes
  import Api

  // ---------------------------------------------------------------------
  // The comparator.
  // ---------------------------------------------------------------------

  /** A collation: its "not after" relation (`collate(x, y) <= 0`) is a
      total preorder, as every `localeCompare` ordering is. */
  ghost predicate IsCollation(collate: (string, string) -> int) {
    (forall x, y :: collate(x, y) <= 0 || collate(y, x) <= 0) &&
    (forall x, y, z :: collate(x, y) <= 0 && collate(y, z) <= 0 ==> collate(x, z) <= 0)
  }

  /** What the comparator closes over: the active field and direction, the
      locale's collation and the epoch-time reading of a date string. */
  datatype SortOrder = SortOrder(
    field: SortField,
    direction: SortDirection,
    collate: (string, string) -> int,
    epoch: string -> int)

  function NumericCompare(direction: SortDirection, x: int, y: int): int {
    if direction == Asc then x - y else y - x
  }

  function TextCompare(direction: SortDirection, collate: (string, string) -> int, x: string, y: string): int {
    if direction == Asc then collate(x, y) else collate(y, x)
  }

  /** The comparator passed to `sort`: negative when `a` goes first. Each
      field's key is compared in the chosen direction: ids and epoch times
      as numbers, names and e-mails by the collation. */
  function Compare(o: SortOrder, a: User, b: User): (r: int)
    ensures o.field == Id ==>
      (r <= 0 <==> if o.direction == Asc then a.id <= b.id else b.id <= a.id)
    ensures o.field == RegistrationDate ==>
      (r <= 0 <==> if o.direction == Asc then o.epoch(a.registrationDate) <= o.epoch(b.registrationDate)
                   else o.epoch(b.registrationDate) <= o.epoch(a.registrationDate))
    ensures o.field == FirstName ==>
      (r <= 0 <==> if o.direction == Asc then o.collate(a.firstName, b.firstName) <= 0
                   else o.collate(b.firstName, a.firstName) <= 0)
    ensures o.field == LastName ==>
      (r <= 0 <==> if o.direction == Asc then o.collate(a.lastName, b.lastName) <= 0
                   else o.collate(b.lastName, a.lastName) <= 0)
    ensures o.field == Email ==>
      (r <= 0 <==> if o.direction == Asc then o.collate(a.email, b.email) <= 0
                   else o.collate(b.email, a.email) <= 0)
  {
    match o.field
    case Id => NumericCompare(o.direction, a.id, b.id)
    case FirstName => TextCompare(o.direction, o.collate, a.firstName, b.firstName)
    case LastName => TextCompare(o.direction, o.collate, a.lastName, b.lastName)
    case Email => TextCompare(o.direction, o.collate, a.email, b.email)
    case RegistrationDate =>
      NumericCompare(o.direction, o.epoch(a.registrationDate), o.epoch(b.registrationDate))
  }

  /** `a` may stand before `b` in the sorted list. */
  predicate Precedes(o: SortOrder, a: User, b: User) {
    Compare(o, a, b) <= 0
  }

  /** Descending order is ascending order with the arguments swapped, for
      every field, text or number. */
  lemma DescendingSwapsArguments(o: SortOrder, a: User, b: User)
    ensures Compare(o.(direction := Desc), a, b) == Compare(o.(direction := Asc), b, a)
  {
  }

  /** Any two users are comparable. */
  lemma PrecedesTotal(o: SortOrder, a: User, b: User)
    requires IsCollation(o.collate)
    ensures Precedes(o, a, b) || Precedes(o, b, a)
  {
    match o.field
    case Id =>
    case FirstName => assert o.collate(a.firstName, b.firstName) <= 0 || o.collate(b.firstName, a.firstName) <= 0;
    case LastName => assert o.collate(a.lastName, b.lastName) <= 0 || o.collate(b.lastName, a.lastName) <= 0;
    case Email => assert o.collate(a.email, b.email) <= 0 || o.collate(b.email, a.email) <= 0;
    case RegistrationDate =>
  }

  lemma PrecedesTransitive(o: SortOrder, a: User, b: User, c: User)
    requires IsCollation(o.collate)
    requires Precedes(o, a, b) && Precedes(o, b, c)
    ensures Precedes(o, a, c)
  {
    var up := o.direction == Asc;
    match o.field
    case Id =>
    case FirstName =>
      if up { assert o.collate(a.firstName, b.firstName) <= 0 && o.collate(b.firstName, c.firstName) <= 0; }
      else { assert o.collate(c.firstName, b.firstName) <= 0 && o.collate(b.firstName, a.firstName) <= 0; }
    case LastName =>
      if up { assert o.collate(a.lastName, b.lastName) <= 0 && o.collate(b.lastName, c.lastName) <= 0; }
      else { assert o.collate(c.lastName, b.lastName) <= 0 && o.collate(b.lastName, a.lastName) <= 0; }
    case Email =>
      if up { assert o.collate(a.email, b.email) <= 0 && o.collate(b.email, c.email) <= 0; }
      else { assert o.collate(c.email, b.email) <= 0 && o.collate(b.email, a.email) <= 0; }
    case RegistrationDate =>
  }

  ghost predicate Sorted(o: SortOrder, s: seq<User>) {
    forall i, j :: 0 <= i < j < |s| ==> Precedes(o, s[i], s[j])
  }

  /** What a sorted list means for each field: ascending order gives
      non-decreasing keys (ids and epoch times as numbers, names and
      e-mails under the collation), descending order non-increasing ones. */
  lemma SortedKeys(o: SortOrder, s: seq<User>, i: int, j: int)
    requires Sorted(o, s) && 0 <= i < j < |s|
    ensures o.field == Id ==>
      if o.direction == Asc then s[i].id <= s[j].id else s[i].id >= s[j].id
    ensures o.field == RegistrationDate ==>
      var x, y := o.epoch(s[i].registrationDate), o.epoch(s[j].registrationDate);
      if o.direction == Asc then x <= y else x >= y
    ensures o.field == FirstName ==>
      if o.direction == Asc then o.collate(s[i].firstName, s[j].firstName) <= 0
      else o.collate(s[j].firstName, s[i].firstName) <= 0
    ensures o.field == LastName ==>
      if o.direction == Asc then o.collate(s[i].lastName, s[j].lastName) <= 0
      else o.collate(s[j].lastName, s[i].lastName) <= 0
    ensures o.field == Email ==>
      if o.direction == Asc then o.collate(s[i].email, s[j].email) <= 0
      else o.collate(s[j].email, s[i].email) <= 0
  {
    assert Precedes(o, s[i], s[j]);
  }

  // ---------------------------------------------------------------------
  // Sorting a copy.
  // ---------------------------------------------------------------------

  method Swap(a: array<User>, i: int, j: int)
    requires 0 <= i < j < a.Length
    modifies a
    ensures a[i] == old(a[j]) && a[j] == old(a[i])
    ensures forall k :: 0 <= k < a.Length && k != i && k != j ==> a[k] == old(a[k])
    ensures multiset(a[..]) == old(multiset(a[..]))
  {
    a[i], a[j] := a[j], a[i];
  }

  /** The in-place sort the engine runs on the copied array. */
  method SortInPlace(a: array<User>, o: SortOrder)
    requires IsCollation(o.collate)
    modifies a
    ensures Sorted(o, a[..])
    ensures multiset(a[..]) == old(multiset(a[..]))
  {
    var i := 0;
    while i < a.Length
      invariant 0 <= i <= a.Length
      invariant forall p, q :: 0 <= p < q < i ==> Precedes(o, a[p], a[q])
      invariant multiset(a[..]) == old(multiset(a[..]))
    {
      var j := i;
      while j > 0 && Compare(o, a[j - 1], a[j]) > 0
        invariant 0 <= j <= i
        invariant forall p, q :: 0 <= p < q <= i && p != j && q != j ==> Precedes(o, a[p], a[q])
        invariant forall q :: j < q <= i ==> Precedes(o, a[j], a[q])
        invariant multiset(a[..]) == old(multiset(a[..]))
      {
        PrecedesTotal(o, a[j - 1], a[j]);
        Swap(a, j - 1, j);
        j := j - 1;
      }
      forall p | 0 <= p < j
        ensures Precedes(o, a[p], a[j])
      {
        if p < j - 1 {
          PrecedesTransitive(o, a[p], a[j - 1], a[j]);
        }
      }
      i := i + 1;
    }
  }

  /** `[...users].sort(comparator)`: a sorted permutation of `users`; the
      input sequence itself is a value and stays as it was. */
  method SortUsers(users: seq<User>, o: SortOrder) returns (sorted: seq<User>)
    requires IsCollation(o.collate)
    ensures |sorted| == |users|
    ensures multiset(sorted) == multiset(users)
    ensures Sorted(o, sorted)
  {
    var a := new User[|users|](i requires 0 <= i < |users| => users[i]);
    assert a[..] == users;
    SortInPlace(a, o);
    sorted := a[..];
    assert |sorted| == |multiset(sorted)| == |multiset(users)| == |users|;
  }

  // ---------------------------------------------------------------------
  // Pages.
  // ---------------------------------------------------------------------

  function Min(x: int, y: int): int {
    if x <= y then x else y
  }

  /** How `Array.prototype.slice` reads one of its bounds against a length:
      a negative bound counts from the end, and the result is clamped. */
  function RelativeIndex(k: int, len: nat): (r: nat)
    ensures r <= len
    ensures k >= 0 ==> r == Min(k, len)
    ensures k < 0 ==> r == if len + k < 0 then 0 else len + k
  {
    if k < 0 then (if len + k < 0 then 0 else len + k)
    else if k < len then k else len
  }

  /** `s.slice(start, end)`. */
  function Slice<T>(s: seq<T>, start: int, end: int): (r: seq<T>)
    ensures |r| <= |s|
    ensures 0 <= start <= end ==> r == s[Min(start, |s|)..Min(end, |s|)]
  {
    var from, to := RelativeIndex(start, |s|), RelativeIndex(end, |s|);
    if from < to then s[from..to] else []
  }

  /** `Math.ceil(count / perPage)`: the least number of pages of
      `perPage` rows that holds `count` rows. */
  function TotalPages(count: nat, perPage: nat): (pages: nat)
    requires perPage > 0
    ensures pages * perPage >= count
    ensures pages > 0 ==> (pages - 1) * perPage < count
  {
    var q := (count + perPage - 1) / perPage;
    assert q * perPage + (count + perPage - 1) % perPage == count + perPage - 1;
    q
  }

  /** `startIndex`: page `page` starts where page `page - 1` ends. */
  function StartIndex(page: int, perPage: nat): (start: int)
    ensures page >= 1 ==> start >= 0
    ensures page == 1 ==> start == 0
    ensures start + perPage == page * perPage
  {
    (page - 1) * perPage
  }

  /** `paginatedUsers`: the rows of page `page`, with no range check. */
  function PageOf(sorted: seq<User>, page: int, perPage: nat): (rows: seq<User>)
    ensures |rows| <= perPage
    ensures page >= 1 ==>
      rows == sorted[Min(StartIndex(page, perPage), |sorted|)..Min(StartIndex(page, perPage) + perPage, |sorted|)]
    ensures page >= 1 && StartIndex(page, perPage) >= |sorted| ==> rows == []
    ensures page == 0 ==> rows == []
  {
    var start := StartIndex(page, perPage);
    assert page >= 1 ==> 0 <= start;
    Slice(sorted, start, start + perPage)
  }

  /** Pages 1 to `k`, one after the other. */
  function PagesUpTo(sorted: seq<User>, k: nat, perPage: nat): seq<User> {
    if k == 0 then [] else PagesUpTo(sorted, k - 1, perPage) + PageOf(sorted, k, perPage)
  }

  lemma {:induction false} PagesUpToIsPrefix(sorted: seq<User>, k: nat, perPage: nat)
    ensures PagesUpTo(sorted, k, perPage) == sorted[..Min(k * perPage, |sorted|)]
  {
    if k > 0 {
      PagesUpToIsPrefix(sorted, k - 1, perPage);
      assert StartIndex(k, perPage) == (k - 1) * perPage;
      assert k * perPage == (k - 1) * perPage + perPage;
      var n := |sorted|;
      var a, b := Min((k - 1) * perPage, n), Min(k * perPage, n);
      assert sorted[..a] + sorted[a..b] == sorted[..b];
    }
  }

  /** Pages 1 to `totalPages` in order put the sorted list back together. */
  lemma PagesReassemble(sorted: seq<User>, perPage: nat)
    requires perPage > 0
    ensures PagesUpTo(sorted, TotalPages(|sorted|, perPage), perPage) == sorted
  {
    PagesUpToIsPrefix(sorted, TotalPages(|sorted|, perPage), perPage);
  }

  /** The last page holds what the full pages before it leave over. */
  lemma LastPageSize(sorted: seq<User>, perPage: nat)
    requires perPage > 0 && |sorted| > 0
    ensures var total := TotalPages(|sorted|, perPage);
      |PageOf(sorted, total, perPage)| == |sorted| - (total - 1) * perPage
  {
    var total := TotalPages(|sorted|, perPage);
    assert total * perPage == (total - 1) * perPage + perPage;
  }

  /** 25 rows at 10 a page make 3 pages, the third holding 5 rows; 21 rows
      make 3 pages and 20 rows 2. */
  lemma PageCountExamples(sorted: seq<User>)
    requires |sorted| == 25
    ensures TotalPages(25, 10) == 3 && |PageOf(sorted, 3, 10)| == 5
    ensures TotalPages(21, 10) == 3 && TotalPages(20, 10) == 2
  {
  }

  lemma SubrangeSortedSubset(o: SortOrder, s: seq<User>, from: nat, to: nat)
    requires from <= to <= |s| && Sorted(o, s)
    ensures multiset(s[from..to]) <= multiset(s)
    ensures Sorted(o, s[from..to])
  {
    assert s == s[..from] + s[from..to] + s[to..];
    var r := s[from..to];
    forall i, j | 0 <= i < j < |r|
      ensures Precedes(o, r[i], r[j])
    {
      assert r[i] == s[from + i] && r[j] == s[from + j];
    }
  }

  /** A page of a sorted list is sorted and a sub-multiset of the list. */
  lemma PageIsSortedSubset(sorted: seq<User>, page: int, perPage: nat, o: SortOrder)
    requires Sorted(o, sorted)
    ensures var rows := PageOf(sorted, page, perPage);
      multiset(rows) <= multiset(sorted) && Sorted(o, rows)
  {
    var start := StartIndex(page, perPage);
    var from := RelativeIndex(start, |sorted|);
    var to := RelativeIndex(start + perPage, |sorted|);
    var rows := PageOf(sorted, page, perPage);
    assert rows == Slice(sorted, start, start + perPage);
    if from < to {
      assert rows == sorted[from..to];
      SubrangeSortedSubset(o, sorted, from, to);
    } else {
      assert rows == [];
    }
  }

  // ---------------------------------------------------------------------
  // The pager.
  // ---------------------------------------------------------------------

  /** The pager as rendered: absent, or the two arrow buttons' disabled
      flags, the "shown from–to" label and the numbered page buttons. */
  datatype Pager =
    | Hidden
    | Shown(prevDisabled: bool, nextDisabled: bool, shownFrom: int, shownTo: int, pageButtons: seq<int>)

  function PagerView(count: nat, page: int, perPage: nat): (v: Pager)
    requires perPage > 0
    ensures v.Shown? <==> TotalPages(count, perPage) > 1
    ensures v.Shown? ==> v.pageButtons == seq(TotalPages(count, perPage), i => i + 1)
  {
    var total := TotalPages(count, perPage);
    var start := StartIndex(page, perPage);
    if total > 1 then
      Shown(page == 1, page == total, start + 1, Min(start + perPage, count), seq(total, i => i + 1))
    else Hidden
  }

  lemma MulMonotone(x: int, y: int, c: nat)
    requires x <= y
    ensures x * c <= y * c
  {
  }

  /** A page in range starts inside the list. */
  lemma PageInRangeStartsInside(count: nat, page: int, perPage: nat)
    requires perPage > 0 && 1 <= page <= TotalPages(count, perPage)
    ensures 0 <= StartIndex(page, perPage) < count
  {
    var total := TotalPages(count, perPage);
    MulMonotone(page - 1, total - 1, perPage);
  }

  /** On a page in range, the label names exactly the rows that page shows,
      and the arrows are disabled exactly at the two ends. */
  lemma PagerDescribesPage(sorted: seq<User>, page: int, perPage: nat)
    requires perPage > 0 && 1 <= page <= TotalPages(|sorted|, perPage)
    ensures var v := PagerView(|sorted|, page, perPage);
      v.Shown? ==>
        && v.shownFrom == StartIndex(page, perPage) + 1
        && v.shownTo - v.shownFrom + 1 == |PageOf(sorted, page, perPage)| >= 1
        && (v.prevDisabled <==> page == 1)
        && (v.nextDisabled <==> page == TotalPages(|sorted|, perPage))
  {
    PageInRangeStartsInside(|sorted|, page, perPage);
    var start := StartIndex(page, perPage);
    assert |PageOf(sorted, page, perPage)| == Min(start + perPage, |sorted|) - start;
  }

  /** From a page at least 1, every enabled pager button leads to a page at
      least 1, and from a page in range it leads to a page in range. */
  lemma PagerTargetsInRange(count: nat, page: int, perPage: nat)
    requires perPage > 0 && page >= 1
    ensures var v := PagerView(count, page, perPage);
      v.Shown? ==>
        && (!v.prevDisabled ==> page - 1 >= 1)
        && (page <= TotalPages(count, perPage) && !v.nextDisabled ==> page + 1 <= TotalPages(count, perPage))
        && (forall k :: 0 <= k < |v.pageButtons| ==> 1 <= v.pageButtons[k] <= TotalPages(count, perPage))
  {
  }

  /** When the list shrinks under the current page (a delete on the last
      page), `next` stays enabled and leads further out: the guard is
      `currentPage === totalPages`, not `>=`. */
  lemma NextEnabledPastLastPage(sorted: seq<User>, page: int, perPage: nat)
    requires perPage > 0 && TotalPages(|sorted|, perPage) > 1 && page > TotalPages(|sorted|, perPage)
    ensures !PagerView(|sorted|, page, perPage).nextDisabled
    ensures PageOf(sorted, page, perPage) == []
  {
    var total := TotalPages(|sorted|, perPage);
    assert StartIndex(page, perPage) >= total * perPage by {
      assert page - 1 >= total;
    }
  }

  // ---------------------------------------------------------------------
  // Deleting a row.
  // ---------------------------------------------------------------------

  /** A row's delete button is disabled (and reads "deleting…") while its
      id is the one being deleted. */
  predicate DeleteButtonDisabled(deletingId: Option<int>, rowId: int): (disabled: bool)
    ensures deletingId.None? ==> !disabled
    ensures disabled ==> deletingId.Some? && deletingId.value == rowId
    ensures deletingId == Some(rowId) ==> disabled
  {
    deletingId == Some(rowId)
  }

  /** At most one row's delete button is disabled at a time. */
  lemma AtMostOneRowBusy(deletingId: Option<int>, a: int, b: int)
    requires DeleteButtonDisabled(deletingId, a) && DeleteButtonDisabled(deletingId, b)
    ensures a == b
  {
  }

  /** The outcome of a delete click: cancelled at the confirmation, or the
      mutation's result and the query keys its `onSuccess` invalidated. */
  datatype DeleteAttempt =
    | Cancelled
    | Attempted(request: Api.Request, outcome: Result<()>, invalidated: seq<QueryKey>)

  /** The table's `deletingId` state and its `handleDelete`. */
  class DeleteControl {
    var deletingId: Option<int>

    constructor ()
      ensures deletingId == None
    {
      deletingId := None;
    }

    /** `confirmed` is the user's answer to the confirmation dialog and
        `response` what the store answers to the DELETE. `trace` lists the
        values `deletingId` takes, in order. */
    method HandleDelete(id: int, confirmed: bool, response: Api.Response<()>)
      returns (attempt: DeleteAttempt, trace: seq<Option<int>>)
      modifies this
      ensures !confirmed ==> attempt == Cancelled && trace == [] && deletingId == old(deletingId)
      ensures confirmed ==> trace == [Some(id), None] && deletingId == None
      ensures confirmed ==> DeleteButtonDisabled(trace[0], id) && !DeleteButtonDisabled(deletingId, id)
      ensures confirmed ==> attempt.Attempted? && attempt.request == Api.DeleteUserRequest(id)
      ensures confirmed ==> attempt.outcome == Api.DeleteUser(response)
      ensures confirmed ==> attempt.invalidated == if attempt.outcome.Ok? then [UsersKey] else []
    {
      trace := [];
      if !confirmed {
        attempt := Cancelled;
        return;
      }
      deletingId := Some(id);
      trace := trace + [deletingId];
      var outcome := Api.DeleteUser(response);
      var invalidated := if outcome.Ok? then [UsersKey] else [];
      // the `finally` block runs on success and on failure alike
      deletingId := None;
      trace := trace + [deletingId];
      attempt := Attempted(Api.DeleteUserRequest(id), outcome, invalidated);
    }
  }
}
