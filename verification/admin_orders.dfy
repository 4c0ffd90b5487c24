/**
 * The order management screen: stored orders sorted newest first, narrowed by a
 * search term and a status filter, and a status change that rewrites one order
 * and stores the list back. The filtering effect re-runs after every change of
 * the list, the term or the filter; the page's invariant records that.
 */
module AdminOrders {
  import opened Wrappers
  import opened Text
  import opened Domain
  import Seqs
  import Sorting

  datatype StatusFilter = AllStatuses | OnlyStatus(status: OrderStatus)

  /** `loadOrders`: the stored orders, newest `createdAt` first. */
  function LoadedOrders(stored: seq<Order>): (r: seq<Order>)
    ensures multiset(r) == multiset(stored)
    ensures Sorting.SortedDesc(r, (o: Order) => o.createdAt)
  {
    Sorting.SortDesc(stored, (o: Order) => o.createdAt)
  }

  /** Order number or name contains the term ignoring case, or the phone contains it as typed. */
  predicate MatchesSearch(o: Order, term: string)
    ensures term == "" ==> MatchesSearch(o, term)
  {
    assert term == "" ==> OccursAt(o.phone, term, 0);
    || Contains(Lower(o.orderNumber), Lower(term))
    || Contains(Lower(o.customerName), Lower(term))
    || Contains(o.phone, term)
  }

  predicate MatchesStatus(o: Order, filter: StatusFilter) {
    filter.AllStatuses? || o.status == filter.status
  }

  function SearchCond(term: string): Order -> bool {
    (o: Order) => MatchesSearch(o, term)
  }

  function StatusCond(status: OrderStatus): Order -> bool {
    (o: Order) => o.status == status
  }

  /** `filterOrders`: the search (when the term is non-empty), then the status filter (unless "all"). */
  function FilterOrders(orders: seq<Order>, term: string, filter: StatusFilter): (r: seq<Order>)
    ensures |r| <= |orders| && forall i :: 0 <= i < |r| ==> r[i] in orders
    ensures term == "" && filter == AllStatuses ==> r == orders
  {
    var searched := if term != "" then Seqs.Filter(orders, SearchCond(term)) else orders;
    if filter.OnlyStatus? then Seqs.Filter(searched, StatusCond(filter.status)) else searched
  }

  /** The conditions an order must meet to be listed. */
  predicate Listed(o: Order, term: string, filter: StatusFilter) {
    (term == "" || MatchesSearch(o, term)) && MatchesStatus(o, filter)
  }

  function ListedCond(term: string, filter: StatusFilter): Order -> bool {
    (o: Order) => Listed(o, term, filter)
  }

  /** Filtering is one pass with the conjunction of the search and the status condition. */
  lemma FilterOrdersIsConjunction(orders: seq<Order>, term: string, filter: StatusFilter)
    ensures FilterOrders(orders, term, filter) == Seqs.Filter(orders, ListedCond(term, filter))
  {
    var search := (o: Order) => term == "" || MatchesSearch(o, term);
    var status := (o: Order) => MatchesStatus(o, filter);
    var searched := if term != "" then Seqs.Filter(orders, SearchCond(term)) else orders;
    if term != "" {
      Seqs.FilterExt(orders, SearchCond(term), search);
    } else {
      Seqs.FilterAll(orders, search);
    }
    assert searched == Seqs.Filter(orders, search);
    if filter.OnlyStatus? {
      Seqs.FilterExt(searched, StatusCond(filter.status), status);
    } else {
      Seqs.FilterAll(searched, status);
    }
    assert FilterOrders(orders, term, filter) == Seqs.Filter(searched, status);
    Seqs.FilterFilter(orders, search, status);
    Seqs.FilterExt(orders, Seqs.And(search, status), ListedCond(term, filter));
  }

  /** Exactly the loaded orders meeting both conditions are listed, in their loaded order. */
  lemma FilterOrdersSpec(orders: seq<Order>, term: string, filter: StatusFilter)
    ensures forall i :: 0 <= i < |FilterOrders(orders, term, filter)| ==>
      FilterOrders(orders, term, filter)[i] in orders && Listed(FilterOrders(orders, term, filter)[i], term, filter)
    ensures forall i :: 0 <= i < |orders| && Listed(orders[i], term, filter) ==> orders[i] in FilterOrders(orders, term, filter)
    ensures Seqs.IsSubsequence(FilterOrders(orders, term, filter), orders)
    ensures term == "" && filter == AllStatuses ==> FilterOrders(orders, term, filter) == orders
  {
    FilterOrdersIsConjunction(orders, term, filter);
    Seqs.FilterIsSubsequence(orders, ListedCond(term, filter));
  }

  /** `updateOrderStatus` on the list: the orders with that id get the new status. */
  function UpdateStatus(orders: seq<Order>, id: string, status: OrderStatus): (r: seq<Order>)
    ensures |r| == |orders| && forall i :: 0 <= i < |r| ==> r[i].id == orders[i].id
    ensures forall i :: 0 <= i < |r| && orders[i].id != id ==> r[i] == orders[i]
  {
    seq(|orders|, i requires 0 <= i < |orders| =>
      if orders[i].id == id then orders[i].(status := status) else orders[i])
  }

  /**
   * Only the status of the order with that id changes, to the new value whatever it
   * was before; length, order, other fields and other orders stay. Updating again
   * to the same status changes nothing, and a later update overrides an earlier one.
   */
  lemma UpdateStatusSpec(orders: seq<Order>, id: string, status: OrderStatus, later: OrderStatus)
    ensures |UpdateStatus(orders, id, status)| == |orders|
    ensures forall i :: 0 <= i < |orders| && orders[i].id == id ==>
      UpdateStatus(orders, id, status)[i] == orders[i].(status := status)
    ensures forall i :: 0 <= i < |orders| && orders[i].id != id ==> UpdateStatus(orders, id, status)[i] == orders[i]
    ensures UpdateStatus(UpdateStatus(orders, id, status), id, status) == UpdateStatus(orders, id, status)
    ensures UpdateStatus(UpdateStatus(orders, id, status), id, later) == UpdateStatus(orders, id, later)
  {
  }

  /** A status change keeps the list sorted newest first. */
  lemma UpdateStatusKeepsOrder(orders: seq<Order>, id: string, status: OrderStatus)
    requires Sorting.SortedDesc(orders, (o: Order) => o.createdAt)
    ensures Sorting.SortedDesc(UpdateStatus(orders, id, status), (o: Order) => o.createdAt)
  {
  }

  /** The screen's state. */
  class OrdersPage {
    var orders: seq<Order>
    var filteredOrders: seq<Order>
    var searchTerm: string
    var statusFilter: StatusFilter
    var selectedOrder: Option<Order>
    var isModalOpen: bool

    /** The filtering effect has run on the current list, term and filter. */
    ghost predicate Valid()
      reads this
    {
      filteredOrders == FilterOrders(orders, searchTerm, statusFilter)
    }

    constructor ()
      ensures Valid() && orders == [] && searchTerm == "" && statusFilter == AllStatuses
      ensures selectedOrder.None? && !isModalOpen
    {
      orders, filteredOrders, searchTerm, statusFilter := [], [], "", AllStatuses;
      selectedOrder, isModalOpen := None, false;
    }

    method LoadOrders(store: OrderStore)
      modifies this
      ensures Valid() && orders == LoadedOrders(store.orders)
      ensures searchTerm == old(searchTerm) && statusFilter == old(statusFilter)
      ensures selectedOrder == old(selectedOrder) && isModalOpen == old(isModalOpen)
    {
      orders := LoadedOrders(store.orders);
      filteredOrders := FilterOrders(orders, searchTerm, statusFilter);
    }

    method SetSearchTerm(term: string)
      modifies this
      ensures Valid() && searchTerm == term
      ensures orders == old(orders) && statusFilter == old(statusFilter) && selectedOrder == old(selectedOrder)
      ensures isModalOpen == old(isModalOpen)
    {
      searchTerm := term;
      filteredOrders := FilterOrders(orders, searchTerm, statusFilter);
    }

    method SetStatusFilter(filter: StatusFilter)
      modifies this
      ensures Valid() && statusFilter == filter
      ensures orders == old(orders) && searchTerm == old(searchTerm) && selectedOrder == old(selectedOrder)
      ensures isModalOpen == old(isModalOpen)
    {
      statusFilter := filter;
      filteredOrders := FilterOrders(orders, searchTerm, statusFilter);
    }

    /** `updateOrderStatus`: rewrite the list, store it, and mirror the change in the open order. */
    method UpdateOrderStatus(orderId: string, newStatus: OrderStatus, store: OrderStore)
      modifies this, store
      ensures Valid() && orders == UpdateStatus(old(orders), orderId, newStatus)
      ensures store.orders == orders
      ensures old(selectedOrder).Some? && old(selectedOrder).value.id == orderId ==>
        selectedOrder == Some(old(selectedOrder).value.(status := newStatus))
      ensures !(old(selectedOrder).Some? && old(selectedOrder).value.id == orderId) ==> selectedOrder == old(selectedOrder)
      ensures searchTerm == old(searchTerm) && statusFilter == old(statusFilter) && isModalOpen == old(isModalOpen)
    {
      var updatedOrders := UpdateStatus(orders, orderId, newStatus);
      orders := updatedOrders;
      store.orders := updatedOrders;
      if selectedOrder.Some? && selectedOrder.value.id == orderId {
        selectedOrder := Some(selectedOrder.value.(status := newStatus));
      }
      filteredOrders := FilterOrders(orders, searchTerm, statusFilter);
    }

    method OpenOrderModal(order: Order)
      modifies this
      ensures Valid() == old(Valid())
      ensures selectedOrder == Some(order) && isModalOpen
      ensures orders == old(orders) && filteredOrders == old(filteredOrders)
      ensures searchTerm == old(searchTerm) && statusFilter == old(statusFilter)
    {
      selectedOrder := Some(order);
      isModalOpen := true;
    }

    method CloseOrderModal()
      modifies this
      ensures Valid() == old(Valid())
      ensures selectedOrder.None? && !isModalOpen
      ensures orders == old(orders) && filteredOrders == old(filteredOrders)
      ensures searchTerm == old(searchTerm) && statusFilter == old(statusFilter)
    {
      selectedOrder := None;
      isModalOpen := false;
    }
  }
}
