/** The pagination bar (src/components/shared/pagination.js): the page
    count, which buttons are disabled or active, and the three navigation
    actions, each of which writes a whole pagination object to the store. */
module PaginationBar {

  import opened Values
  import opened PageMath
  import opened StoreState
  import opened Listeners
  import Store

  /** `Math.ceil(totalItems / itemsPerPage)`; unlike the store's count this
      is 0 when there are no items. */
  function PagesCount(p: Pagination): (n: nat)
    requires p.totalItems >= 0 && p.itemsPerPage > 0
    ensures p.totalItems <= n * p.itemsPerPage < p.totalItems + p.itemsPerPage
    ensures n == 0 <==> p.totalItems == 0
  {
    CeilDiv(p.totalItems, p.itemsPerPage)
  }

  predicate PrevDisabled(p: Pagination) {
    p.currentPage == 1
  }

  predicate NextDisabled(p: Pagination)
    requires p.totalItems >= 0 && p.itemsPerPage > 0
  {
    p.currentPage == PagesCount(p)
  }

  /** One numbered button of the bar. */
  datatype PageButton = PageButton(number: int, active: bool)

  /** `[...Array(pagesCount)].map(...)`: one button per page. */
  function PageButtons(p: Pagination): seq<PageButton>
    requires p.totalItems >= 0 && p.itemsPerPage > 0
  {
    seq(PagesCount(p), i => PageButton(i + 1, i + 1 == p.currentPage))
  }

  /** The buttons are numbered `1..pagesCount` in order; only the one for the
      current page is active, and one is active exactly when the current page
      is in range. */
  lemma PageButtonsShape(p: Pagination)
    requires p.totalItems >= 0 && p.itemsPerPage > 0
    ensures var b := PageButtons(p);
      && |b| == PagesCount(p)
      && (forall i :: 0 <= i < |b| ==> b[i].number == i + 1)
      && (forall i :: 0 <= i < |b| ==> (b[i].active <==> b[i].number == p.currentPage))
      && (forall i, j :: 0 <= i < |b| && 0 <= j < |b| && b[i].active && b[j].active ==> i == j)
      && ((exists i :: 0 <= i < |b| && b[i].active) <==> 1 <= p.currentPage <= PagesCount(p))
  {
    var b := PageButtons(p);
    if 1 <= p.currentPage <= PagesCount(p) {
      assert b[p.currentPage - 1].active;
    }
  }

  /** The object each action hands to `updatePagination`: the current one
      with `currentPage` replaced, every other field spread unchanged. */
  function MovedTo(p: Pagination, page: int): (patch: PaginationPatch)
    ensures Patched(p, patch) == p.(currentPage := page)
  {
    PaginationPatch(Some(page), Some(p.itemsPerPage), Some(p.totalItems))
  }

  /** Any action the bar leaves enabled keeps a page that was in range in range:
      previous when not on page 1, next when not on the last page, and a
      numbered button. */
  lemma NavigationStaysInRange(p: Pagination, page: int)
    requires p.totalItems >= 0 && p.itemsPerPage > 0
    requires 1 <= p.currentPage <= PagesCount(p)
    requires || (page == p.currentPage - 1 && !PrevDisabled(p))
             || (page == p.currentPage + 1 && !NextDisabled(p))
             || (exists b :: b in PageButtons(p) && b.number == page)
    ensures var q := Patched(p, MovedTo(p, page));
      1 <= q.currentPage <= PagesCount(q) && q.itemsPerPage == p.itemsPerPage && q.totalItems == p.totalItems
  {
    if exists b :: b in PageButtons(p) && b.number == page {
      var b :| b in PageButtons(p) && b.number == page;
      var i :| 0 <= i < |PageButtons(p)| && PageButtons(p)[i] == b;
    }
  }

  /** With no items there are no page buttons, yet next stays enabled on
      page 1 and moves to page 2, past the store's single empty page. */
  lemma NextEnabledWithoutItems(p: Pagination)
    requires p.totalItems == 0 && p.itemsPerPage > 0 && p.currentPage == 1
    ensures PageButtons(p) == [] && PrevDisabled(p) && !NextDisabled(p)
    ensures Patched(p, MovedTo(p, p.currentPage + 1)).currentPage == 2
  {
  }

  /** The bar's copy of the store's pagination slice. */
  class PaginationView {
    var pagination: Pagination
    /** Empty until the first notification. */
    var language: string
    const subscription: ListenerId

    /** Copies the store's pagination and subscribes `callback`, which the
        store invokes as `OnStoreState`. */
    constructor (store: Store.EmployeeStore, callback: ListenerId)
      requires store.Valid()
      modifies store`listeners
      ensures pagination == store.state.pagination && language == ""
      ensures subscription == callback
      ensures store.Valid() && store.listeners == Added(old(store.listeners), callback)
    {
      pagination := store.state.pagination;
      language := "";
      subscription := callback;
      new;
      var _ := store.Subscribe(callback);
    }

    /** The store listener: take over the language and pagination slices. */
    method OnStoreState(state: State)
      modifies this`pagination, this`language
      ensures pagination == state.pagination && language == state.language
    {
      if language != state.language {
        language := state.language;
      }
      if pagination != state.pagination {
        pagination := state.pagination;
      }
    }

    /** `disconnectedCallback`. */
    method Disconnect(store: Store.EmployeeStore)
      requires store.Valid()
      modifies store`listeners
      ensures store.Valid() && store.listeners == Removed(old(store.listeners), subscription)
    {
      var _ := store.Unsubscribe(subscription);
    }

    /** `_goToPreviousPage`. */
    method GoToPreviousPage(store: Store.EmployeeStore)
      modifies store`state, store`events, store`storage
      ensures store.state == UpdatePagination(old(store.state), MovedTo(pagination, pagination.currentPage - 1))
      ensures store.state.pagination == pagination.(currentPage := pagination.currentPage - 1)
      ensures store.Published(old(store.events))
    {
      store.UpdatePagination(PaginationPatch(Some(pagination.currentPage - 1), Some(pagination.itemsPerPage), Some(pagination.totalItems)));
    }

    /** `_goToNextPage`. */
    method GoToNextPage(store: Store.EmployeeStore)
      modifies store`state, store`events, store`storage
      ensures store.state == UpdatePagination(old(store.state), MovedTo(pagination, pagination.currentPage + 1))
      ensures store.state.pagination == pagination.(currentPage := pagination.currentPage + 1)
      ensures store.Published(old(store.events))
    {
      store.UpdatePagination(PaginationPatch(Some(pagination.currentPage + 1), Some(pagination.itemsPerPage), Some(pagination.totalItems)));
    }

    /** `_goToPageNumber`. */
    method GoToPageNumber(store: Store.EmployeeStore, pageNumber: int)
      modifies store`state, store`events, store`storage
      ensures store.state == UpdatePagination(old(store.state), MovedTo(pagination, pageNumber))
      ensures store.state.pagination == pagination.(currentPage := pageNumber)
      ensures store.Published(old(store.events))
    {
      store.UpdatePagination(PaginationPatch(Some(pageNumber), Some(pagination.itemsPerPage), Some(pagination.totalItems)));
    }

    /** What `render` derives: the page count, the two disabled flags and the buttons. */
    method Render() returns (pagesCount: nat, prevDisabled: bool, nextDisabled: bool, buttons: seq<PageButton>)
      requires pagination.totalItems >= 0 && pagination.itemsPerPage > 0
      ensures pagesCount == PagesCount(pagination) && |buttons| == pagesCount
      ensures prevDisabled == PrevDisabled(pagination) && nextDisabled == NextDisabled(pagination)
      ensures buttons == PageButtons(pagination)
    {
      var currentPage := pagination.currentPage;
      pagesCount := CeilDiv(pagination.totalItems, pagination.itemsPerPage);
      prevDisabled := currentPage == 1;
      nextDisabled := currentPage == pagesCount;
      buttons := seq(pagesCount, i => PageButton(i + 1, i + 1 == currentPage));
    }
  }
}
