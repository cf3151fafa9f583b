/** The admin orders list (src/app/admin/orders/page.tsx): the customer name each loaded order
    shows, and the status tabs and search over the list. */
module Orders {
  import opened Wrappers
  import opened Seqs
  import opened Text

  /** The `orders.status` enum. */
  datatype OrderStatus = Pending | Paid | Processing | Shipped | Delivered | Cancelled

  /** The status as stored and as the tabs name it. */
  function StatusName(s: OrderStatus): (r: string)
    ensures r != "all"
  {
    match s
    case Pending => "pending"
    case Paid => "paid"
    case Processing => "processing"
    case Shipped => "shipped"
    case Delivered => "delivered"
    case Cancelled => "cancelled"
  }

  /** Distinct statuses have distinct names, so a tab selects exactly one status. */
  lemma StatusNameInjective(a: OrderStatus, b: OrderStatus)
    ensures StatusName(a) == StatusName(b) <==> a == b
  {
  }

  /** The guest fields of the `shipping_details` JSON that the page reads. */
  datatype ShippingDetails = ShippingDetails(firstName: Option<string>, lastName: Option<string>, fullName: Option<string>)

  /** An `orders` row. */
  datatype RawOrder = RawOrder(id: string, userId: Option<string>, status: OrderStatus, shippingDetails: Option<ShippingDetails>)

  /** An order as the table holds it: the row plus the derived `customerName`. */
  datatype ListedOrder = ListedOrder(order: RawOrder, customerName: string)

  /** The shipping details, with a missing object read as one with no fields. */
  function Details(order: RawOrder): ShippingDetails {
    order.shippingDetails.GetOr(ShippingDetails(None, None, None))
  }

  const Guest: string := "Invitado"
  const Customer: string := "Cliente"

  /** The `customerName` chain of `loadOrders`. `profileName` is the `full_name` of the profile
      found for `user_id` (`None` when there is no profile or no name); the lookup itself is a
      backend query. */
  function CustomerName(order: RawOrder, profileName: Option<string>): string {
    if Truthy(order.userId) then OrElse(profileName, Customer)
    else if order.shippingDetails.Some? then
      var d := order.shippingDetails.value;
      if Truthy(d.fullName) then d.fullName.value
      else if Truthy(d.firstName) && Truthy(d.lastName) then d.firstName.value + " " + d.lastName.value
      else Guest
    else Guest
  }

  /** A registered customer is named by the profile, or "Cliente"; a guest by `full_name`,
      else by "firstName lastName" when both are present, else "Invitado". The name is never
      empty, a registered customer's name ignores the shipping details, and a guest's ignores
      any profile. */
  lemma CustomerNameSpec(order: RawOrder, profileName: Option<string>, otherProfile: Option<string>)
    ensures Truthy(order.userId) && Truthy(profileName) ==> CustomerName(order, profileName) == profileName.value
    ensures Truthy(order.userId) && !Truthy(profileName) ==> CustomerName(order, profileName) == Customer
    ensures var d := Details(order);
      !Truthy(order.userId) && Truthy(d.fullName) ==> CustomerName(order, profileName) == d.fullName.value
    ensures var d := Details(order);
      !Truthy(order.userId) && !Truthy(d.fullName) && Truthy(d.firstName) && Truthy(d.lastName) ==>
        CustomerName(order, profileName) == d.firstName.value + " " + d.lastName.value
    ensures var d := Details(order);
      !Truthy(order.userId) && !Truthy(d.fullName) && !(Truthy(d.firstName) && Truthy(d.lastName)) ==>
        CustomerName(order, profileName) == Guest
    ensures CustomerName(order, profileName) != ""
    ensures Truthy(order.userId) ==>
      CustomerName(order, profileName) == CustomerName(order.(shippingDetails := None), profileName)
    ensures !Truthy(order.userId) ==> CustomerName(order, profileName) == CustomerName(order, otherProfile)
  {
  }

  /** The list `loadOrders` stores: every row with its derived name, in the loaded order;
      `profiles` gives the profile name for a `user_id`. A failed query leaves the list empty. */
  function WithNames(data: Option<seq<RawOrder>>, profiles: string -> Option<string>): (r: seq<ListedOrder>)
    ensures |r| == |data.GetOr([])|
    ensures forall i :: 0 <= i < |r| ==> r[i].order == data.value[i]
    ensures forall i :: 0 <= i < |r| ==>
      r[i].customerName == CustomerName(data.value[i], if Truthy(data.value[i].userId) then profiles(data.value[i].userId.value) else None)
    ensures forall i :: 0 <= i < |r| ==> r[i].customerName != ""
  {
    var rows := data.GetOr([]);
    seq(|rows|, i requires 0 <= i < |rows| =>
      var name := CustomerName(rows[i], if Truthy(rows[i].userId) then profiles(rows[i].userId.value) else None);
      CustomerNameSpec(rows[i], if Truthy(rows[i].userId) then profiles(rows[i].userId.value) else None, None);
      ListedOrder(rows[i], name))
  }

  /** `matchStatus && matchSearch`: the customer name matched case-insensitively, the order id
      case-sensitively. */
  predicate Matches(o: ListedOrder, filter: string, search: string) {
    (filter == "all" || StatusName(o.order.status) == filter)
    && (MatchesQuery(o.customerName, search) || Contains(o.order.id, search))
  }

  function Filtered(orders: seq<ListedOrder>, filter: string, search: string): seq<ListedOrder> {
    Filter(orders, o => Matches(o, filter, search))
  }

  /** An order is shown iff its status is the tab's (or the tab is "all") and the search is in
      its lower-cased name or, case-sensitively, in its id; the list keeps its order. */
  lemma FilteredSpec(orders: seq<ListedOrder>, filter: string, search: string)
    ensures forall o :: o in Filtered(orders, filter, search) <==>
      o in orders && (filter == "all" || StatusName(o.order.status) == filter)
      && (Contains(Lower(o.customerName), Lower(search)) || Contains(o.order.id, search))
    ensures Subseq(Filtered(orders, filter, search), orders)
  {
    FilterIsSubseq(orders, o => Matches(o, filter, search));
  }

  /** The "all" tab with an empty search shows every order; searching an order's own id under a
      tab that admits it always finds it. */
  lemma FilteredCoverage(orders: seq<ListedOrder>, o: ListedOrder, filter: string)
    ensures Filtered(orders, "all", "") == orders
    ensures o in orders && (filter == "all" || StatusName(o.order.status) == filter) ==>
      o in Filtered(orders, filter, o.order.id)
  {
    forall x | x in orders ensures Matches(x, "all", "") {
      ContainsEmpty(x.order.id);
    }
    FilterKeepsAll(orders, x => Matches(x, "all", ""));
    ContainsSelf(o.order.id);
  }

  /** The page state: the loaded list and the two controls. */
  class OrdersPage {
    var orders: seq<ListedOrder>
    var filter: string
    var search: string

    /** After `loadOrders`. */
    constructor (data: Option<seq<RawOrder>>, profiles: string -> Option<string>)
      ensures orders == WithNames(data, profiles) && filter == "all" && search == ""
    {
      orders := WithNames(data, profiles);
      filter := "all";
      search := "";
    }

    /** A status tab. */
    method SetFilter(tab: string)
      modifies this
      ensures filter == tab && orders == old(orders) && search == old(search)
    {
      filter := tab;
    }

    method SetSearch(query: string)
      modifies this
      ensures search == query && orders == old(orders) && filter == old(filter)
    {
      search := query;
    }

    /** The rows shown. */
    method Shown() returns (rows: seq<ListedOrder>)
      ensures rows == Filtered(orders, filter, search)
    {
      rows := Filtered(orders, filter, search);
    }
  }
}
