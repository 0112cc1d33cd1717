/** The dashboard controller: the six state fields, the load step with its validation and
    error path, the two setters of the controls, the recomputation of the visible list, and
    the choice of what is shown. */
module ShipmentDashboard {
  import opened ShipmentCard
  import opened VisibleList

  datatype Option<T> = None | Some(value: T)

  /** What the data source hands to the load step: nothing (null, undefined or another falsy
      value), a value that is not an array, or an array of records. An empty array is a valid
      payload. */
  datatype Payload = Missing | NotAnArray | Records(items: seq<Shipment>)

  /** The message of the error the load step raises on a malformed payload. */
  const InvalidDataFormat: string := "Invalid data format"

  /** The sort order the dashboard starts with. */
  const NoSorting: string := "none"

  /** The list area of the data view: the empty-state message or one card per record. */
  datatype Body = EmptyState | CardList(cards: seq<Card>)

  /** The three mutually exclusive views. */
  datatype Screen =
    | LoadingScreen
    | ErrorScreen(message: string)
    | DataScreen(options: seq<string>, filterStatus: string, sortOrder: string, count: nat, body: Body)

  /** The error view is chosen by the truthiness of the error state: absent and empty
      messages do not count. */
  predicate ErrorShown(error: Option<string>)
  {
    error.Some? && error.value != ""
  }

  class Dashboard {
    var shipments: seq<Shipment>
    var filteredShipments: seq<Shipment>
    var loading: bool
    var error: Option<string>
    var filterStatus: string
    var sortOrder: string

    /** The visible list is the derivation of the current records, filter and order. */
    ghost predicate Settled()
      reads this
    {
      filteredShipments == Visible(shipments, filterStatus, sortOrder)
    }

    /** The state before the first load: no records, loading, no error, every status, no
        sorting. */
    constructor ()
      ensures shipments == [] && filteredShipments == []
      ensures loading && error == None
      ensures filterStatus == AllStatuses && sortOrder == NoSorting
      ensures Settled()
    {
      shipments := [];
      filteredShipments := [];
      loading := true;
      error := None;
      filterStatus := AllStatuses;
      sortOrder := NoSorting;
    }

    /** The load step once the data has arrived: a payload that is missing or not an array
        raises InvalidDataFormat, which ends as the error state with the records untouched;
        otherwise the records and the visible list both become the payload. Either way
        loading ends. */
    method Load(data: Payload)
      modifies this
      ensures !loading
      ensures filterStatus == old(filterStatus) && sortOrder == old(sortOrder)
      ensures data.Records? ==>
        shipments == data.items && filteredShipments == data.items && error == None
      ensures !data.Records? ==>
        && error == Some(InvalidDataFormat)
        && shipments == old(shipments) && filteredShipments == old(filteredShipments)
      ensures (data.Records? && filterStatus == AllStatuses
               && sortOrder != Ascending && sortOrder != Descending) ==> Settled()
      ensures forall formatDate :: View(formatDate).ErrorScreen? <==> !data.Records?
      ensures forall formatDate :: View(formatDate).DataScreen? <==> data.Records?
    {
      loading := true;
      error := None;
      if !data.Records? {
        error := Some(InvalidDataFormat);
      } else {
        shipments := data.items;
        filteredShipments := data.items;
      }
      loading := false;
    }

    /** The status filter control. */
    method SetFilter(status: string)
      modifies this
      ensures filterStatus == status
      ensures shipments == old(shipments) && filteredShipments == old(filteredShipments)
      ensures loading == old(loading) && error == old(error) && sortOrder == old(sortOrder)
    {
      filterStatus := status;
    }

    /** The sort order control. */
    method SetSort(order: string)
      modifies this
      ensures sortOrder == order
      ensures shipments == old(shipments) && filteredShipments == old(filteredShipments)
      ensures loading == old(loading) && error == old(error) && filterStatus == old(filterStatus)
    {
      sortOrder := order;
    }

    /** The effect that runs whenever the records, the filter or the order change: the
        visible list is derived afresh and nothing else changes, the records included. */
    method Recompute()
      modifies this
      ensures Settled()
      ensures shipments == old(shipments) && loading == old(loading) && error == old(error)
      ensures filterStatus == old(filterStatus) && sortOrder == old(sortOrder)
    {
      filteredShipments := ComputeVisible(shipments, filterStatus, sortOrder);
    }

    /** What is shown: loading wins over the error, which wins over the data; the data view
        carries the filter options, the two control values, the number of visible records,
        and the empty-state message exactly when no record is visible, otherwise one card
        per visible record in order. */
    function View(formatDate: int -> string): (v: Screen)
      reads this
      ensures loading ==> v == LoadingScreen
      ensures !loading && ErrorShown(error) ==> v == ErrorScreen(error.value)
      ensures !loading && !ErrorShown(error) ==>
        && v.DataScreen?
        && v.options == StatusOptions(shipments)
        && v.filterStatus == filterStatus && v.sortOrder == sortOrder
        && v.count == |filteredShipments|
        && (v.body == EmptyState <==> filteredShipments == [])
        && (v.body.CardList? ==>
              && |v.body.cards| == |filteredShipments|
              && forall i :: 0 <= i < |filteredShipments| ==>
                   v.body.cards[i] == RenderCard(filteredShipments[i], formatDate))
    {
      if loading then LoadingScreen
      else if ErrorShown(error) then ErrorScreen(error.value)
      else
        var visible := filteredShipments;
        var body := if visible == [] then EmptyState
                    else CardList(seq(|visible|, i requires 0 <= i < |visible| => RenderCard(visible[i], formatDate)));
        DataScreen(StatusOptions(shipments), filterStatus, sortOrder, |filteredShipments|, body)
    }
  }

  /** A dashboard that loaded an empty list shows the empty-state message, a count of 0 and
      no cards. */
  lemma EmptyDatasetView(d: Dashboard, formatDate: int -> string)
    requires !d.loading && d.error == None && d.shipments == [] && d.Settled()
    ensures d.View(formatDate) == DataScreen([AllStatuses], d.filterStatus, d.sortOrder, 0, EmptyState)
  {
    assert Filtered([], d.filterStatus) == [];
    assert StableSorted([], false) == [] && StableSorted([], true) == [];
    assert FirstSeen(Statuses([])) == [];
  }

  /** The whole life of a dashboard over three records, two of them delivered: after loading,
      filtering on "Delivered" and sorting earliest first, the two delivered records are
      shown in delivery order. */
  method DeliveredEarliestFirst(formatDate: int -> string)
  {
    var r0 := Shipment("1", "TRK-1", "Delivered", "A", 3, "S", "R");
    var r1 := Shipment("2", "TRK-2", "Pending", "B", 1, "S", "R");
    var r2 := Shipment("3", "TRK-3", "Delivered", "C", 2, "S", "R");
    var d := new Dashboard();
    d.Load(Records([r0, r1, r2]));
    d.SetFilter("Delivered");
    d.SetSort(Ascending);
    d.Recompute();
    DeliveredScenario(r0, r1, r2);
    assert d.filteredShipments == [r2, r0];
    assert d.View(formatDate).count == 2;
  }

  /** The visible list of the three-record example. */
  lemma DeliveredScenario(r0: Shipment, r1: Shipment, r2: Shipment)
    requires r0.status == "Delivered" && r1.status == "Pending" && r2.status == "Delivered"
    requires r0.estimatedDelivery == 3 && r1.estimatedDelivery == 1 && r2.estimatedDelivery == 2
    ensures Visible([r0, r1, r2], "Delivered", Ascending) == [r2, r0]
  {
    var s, f := [r0, r1, r2], [r0, r2];
    assert [r0][..0] == [] && [r0, r1][..1] == [r0] && s[..2] == [r0, r1];
    assert WithStatus([r0], "Delivered") == [r0];
    assert WithStatus([r0, r1], "Delivered") == [r0];
    assert WithStatus(s, "Delivered") == f;
    assert Filtered(s, "Delivered") == f;
    assert f[..1] == [r0];
    assert StableSorted([r0], false) == [r0];
    assert Compare(r0, r2, false) > 0;
    assert Insert([], r2, false) == [r2];
    assert Insert([r0], r2, false) == [r2, r0];
    assert StableSorted(f, false) == [r2, r0];
  }
}
