/** The list page (src/pages/UserListPage.tsx): its three pieces of view
    state, the header-click and pager callbacks that update them, and the
    rows it hands to the table. */
module UserListPage {
  import opened UserTypes
  import UserTable

  /** `ITEMS_PER_PAGE`. */
  const ItemsPerPage: nat := 10

  datatype SortState = SortState(field: SortField, direction: SortDirection)

  function Flip(d: SortDirection): (e: SortDirection)
    ensures e != d
  {
    if d == Asc then Desc else Asc
  }

  /** The sort state after a click on the header of `clicked`. */
  function NextSort(s: SortState, clicked: SortField): (t: SortState)
    ensures clicked == s.field ==> t.field == s.field && t.direction != s.direction
    ensures clicked != s.field ==> t.field == clicked && t.direction == Asc
  {
    if s.field == clicked then SortState(s.field, Flip(s.direction))
    else SortState(clicked, Asc)
  }

  /** Two clicks on the active column restore the sort state. */
  lemma SortTwiceRestores(s: SortState)
    ensures NextSort(NextSort(s, s.field), s.field) == s
  {
  }

  /** Whatever the state, the clicked column becomes the active one, and a
      second click on it only flips the direction. */
  lemma ClickedColumnBecomesActive(s: SortState, clicked: SortField)
    ensures NextSort(s, clicked).field == clicked
    ensures NextSort(NextSort(s, clicked), clicked).field == clicked
    ensures NextSort(NextSort(s, clicked), clicked).direction != NextSort(s, clicked).direction
  {
  }

  class ListPage {
    var currentPage: int
    var sortField: SortField
    var sortDirection: SortDirection

    function Sort(): SortState
      reads this
    {
      SortState(sortField, sortDirection)
    }

    /** The initial state: page 1, sorted by id, ascending. */
    constructor ()
      ensures currentPage == 1 && sortField == Id && sortDirection == Asc
    {
      currentPage := 1;
      sortField := Id;
      sortDirection := Asc;
    }

    /** `handleSort`: the page stays where it is. */
    method HandleSort(field: SortField)
      modifies this
      ensures Sort() == NextSort(old(Sort()), field)
      ensures currentPage == old(currentPage)
    {
      if sortField == field {
        sortDirection := if sortDirection == Asc then Desc else Asc;
      } else {
        sortField := field;
        sortDirection := Asc;
      }
    }

    /** `handlePageChange`: no range check, nothing else changes. */
    method HandlePageChange(page: int)
      modifies this
      ensures currentPage == page
      ensures Sort() == old(Sort())
    {
      currentPage := page;
    }

    /** What the table shows for the fetched `users`: the sorted copy, the
        rows of its current page, and the pager. */
    method Render(users: seq<User>, collate: (string, string) -> int, epoch: string -> int)
      returns (sorted: seq<User>, rows: seq<User>, pager: UserTable.Pager)
      requires UserTable.IsCollation(collate)
      ensures multiset(sorted) == multiset(users)
      ensures UserTable.Sorted(UserTable.SortOrder(sortField, sortDirection, collate, epoch), sorted)
      ensures rows == UserTable.PageOf(sorted, currentPage, ItemsPerPage)
      ensures |rows| <= ItemsPerPage
      ensures multiset(rows) <= multiset(users)
      ensures UserTable.Sorted(UserTable.SortOrder(sortField, sortDirection, collate, epoch), rows)
      ensures 1 <= currentPage <= UserTable.TotalPages(|users|, ItemsPerPage) ==> |rows| >= 1
      ensures pager == UserTable.PagerView(|users|, currentPage, ItemsPerPage)
    {
      var order := UserTable.SortOrder(sortField, sortDirection, collate, epoch);
      sorted := UserTable.SortUsers(users, order);
      rows := UserTable.PageOf(sorted, currentPage, ItemsPerPage);
      UserTable.PageIsSortedSubset(sorted, currentPage, ItemsPerPage, order);
      if 1 <= currentPage <= UserTable.TotalPages(|users|, ItemsPerPage) {
        UserTable.PageInRangeStartsInside(|users|, currentPage, ItemsPerPage);
      }
      pager := UserTable.PagerView(|users|, currentPage, ItemsPerPage);
    }
  }

  /** Starting at page 1 and moving only through enabled pager buttons,
      the current page never drops below 1. */
  lemma PagerKeepsPageAtLeastOne(count: nat, page: int, target: int)
    requires page >= 1
    requires var v := UserTable.PagerView(count, page, ItemsPerPage);
      v.Shown? &&
      ((target == page - 1 && !v.prevDisabled) ||
       (target == page + 1 && !v.nextDisabled) ||
       target in v.pageButtons)
    ensures target >= 1
  {
    UserTable.PagerTargetsInRange(count, page, ItemsPerPage);
  }
}
