/** The shipment record and the card that renders one record: the status-to-treatment
    table with its Pending fallback, and the fixed header-plus-four-rows layout. */
module ShipmentCard {

  /** One tracking record. `estimatedDelivery` stands for the parsed delivery date as an
      abstract timestamp; the date string itself and its parsing are not modelled. */
  datatype Shipment = Shipment(
    id: string,
    trackingNumber: string,
    status: string,
    lastLocation: string,
    estimatedDelivery: int,
    sender: string,
    receiver: string)

  /** The five display treatments of the status badge. */
  datatype Treatment = DeliveredStyle | InTransitStyle | OutForDeliveryStyle | PendingStyle | CancelledStyle

  /** The lookup table of the badge: exactly five keys. */
  const StatusTable: map<string, Treatment> := map[
    "Delivered" := DeliveredStyle,
    "In Transit" := InTransitStyle,
    "Out for Delivery" := OutForDeliveryStyle,
    "Pending" := PendingStyle,
    "Cancelled" := CancelledStyle]

  /** The treatment of a status: a table lookup that falls back to Pending for any other
      string. Read backwards, every treatment but Pending has exactly one status, and Pending
      is what "Pending" and every unknown status get. */
  function StatusTreatment(status: string): (t: Treatment)
    ensures t == DeliveredStyle <==> status == "Delivered"
    ensures t == InTransitStyle <==> status == "In Transit"
    ensures t == OutForDeliveryStyle <==> status == "Out for Delivery"
    ensures t == CancelledStyle <==> status == "Cancelled"
    ensures t == PendingStyle <==> status == "Pending" || status !in StatusTable.Keys
  {
    if status in StatusTable then StatusTable[status] else PendingStyle
  }

  /** The status string that names each treatment. */
  function CanonicalStatus(t: Treatment): string
  {
    match t
    case DeliveredStyle => "Delivered"
    case InTransitStyle => "In Transit"
    case OutForDeliveryStyle => "Out for Delivery"
    case PendingStyle => "Pending"
    case CancelledStyle => "Cancelled"
  }

  /** Every treatment is reached, by its own name, and the five names are the table's keys. */
  lemma CanonicalStatusRoundTrip(t: Treatment)
    ensures CanonicalStatus(t) in StatusTable.Keys
    ensures StatusTreatment(CanonicalStatus(t)) == t
  {
  }

  /** An unknown status is styled like "Pending". */
  lemma UnknownStatusIsPending(status: string)
    requires status !in StatusTable.Keys
    ensures StatusTreatment(status) == StatusTreatment("Pending")
  {
  }

  /** One labelled line of the card body. */
  datatype Row = Row(caption: string, value: string)

  /** A rendered card: the header (tracking number and the status badge, whose text is the
      raw status and whose style is the looked-up treatment) and the body rows. */
  datatype Card = Card(trackingNumber: string, badgeText: string, badgeTreatment: Treatment, rows: seq<Row>)

  /** The labels of the body rows, in display order. */
  const RowLabels: seq<string> := ["From:", "To:", "Last Location:", "Estimated Delivery:"]

  function Labels(rows: seq<Row>): (ls: seq<string>)
    ensures |ls| == |rows|
    ensures forall i :: 0 <= i < |rows| ==> ls[i] == rows[i].caption
  {
    seq(|rows|, i requires 0 <= i < |rows| => rows[i].caption)
  }

  /** Renders one record. Date formatting is a locale-dependent library call, so the
      formatter is a parameter. */
  function RenderCard(s: Shipment, formatDate: int -> string): (c: Card)
    ensures c.trackingNumber == s.trackingNumber
    ensures c.badgeText == s.status && c.badgeTreatment == StatusTreatment(s.status)
    ensures Labels(c.rows) == RowLabels
    ensures c.rows[0].value == s.sender && c.rows[1].value == s.receiver
    ensures c.rows[2].value == s.lastLocation && c.rows[3].value == formatDate(s.estimatedDelivery)
  {
    Card(s.trackingNumber, s.status, StatusTreatment(s.status),
         [Row("From:", s.sender),
          Row("To:", s.receiver),
          Row("Last Location:", s.lastLocation),
          Row("Estimated Delivery:", formatDate(s.estimatedDelivery))])
  }

  /** The row structure does not depend on the record: any two cards, whatever their field
      contents (empty strings included) and formatters, have the same four labels. */
  lemma CardLayoutIsFixed(s1: Shipment, s2: Shipment, f1: int -> string, f2: int -> string)
    ensures |RenderCard(s1, f1).rows| == |RenderCard(s2, f2).rows| == 4
    ensures Labels(RenderCard(s1, f1).rows) == Labels(RenderCard(s2, f2).rows)
  {
  }

  /** A card shows exactly the tracking number, the status, the sender, the receiver, the
      last location and the formatted delivery date: two records give the same card if and
      only if they agree on these (the id is not shown). */
  lemma CardShowsExactly(s1: Shipment, s2: Shipment, formatDate: int -> string)
    ensures RenderCard(s1, formatDate) == RenderCard(s2, formatDate) <==>
      && s1.trackingNumber == s2.trackingNumber
      && s1.status == s2.status
      && s1.sender == s2.sender
      && s1.receiver == s2.receiver
      && s1.lastLocation == s2.lastLocation
      && formatDate(s1.estimatedDelivery) == formatDate(s2.estimatedDelivery)
  {
    var c1, c2 := RenderCard(s1, formatDate), RenderCard(s2, formatDate);
    if c1 == c2 {
      assert c1.rows[0] == c2.rows[0] && c1.rows[1] == c2.rows[1];
      assert c1.rows[2] == c2.rows[2] && c1.rows[3] == c2.rows[3];
    }
  }

  /** An unknown status is displayed verbatim on the badge while styled as Pending. */
  lemma UnknownStatusShownVerbatim(s: Shipment, formatDate: int -> string)
    requires s.status !in StatusTable.Keys
    ensures RenderCard(s, formatDate).badgeText == s.status
    ensures RenderCard(s, formatDate).badgeTreatment == PendingStyle
  {
  }
}
