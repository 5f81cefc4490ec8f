/** How the order card shows an order (fe/src/components/OrderCard.tsx): the
    colour of the status badge, whether the order is still processing, and
    which body the card shows. */
module OrderCard {
  import opened Types

  const Green: string := "#4caf50"
  const Red: string := "#f44336"
  const Orange: string := "#ff9800"
  const Blue: string := "#2196f3"
  const Grey: string := "#9e9e9e"

  /** getStatusColor: a switch over the status string with a grey default. */
  function StatusColor(status: string): (c: string)
    ensures c in {Green, Red, Orange, Blue, Grey}
  {
    if status == "confirmed" then Green
    else if status == "failed" then Red
    else if status == "pending" then Orange
    else if status in ["routing", "building", "signing", "sending"] then Blue
    else Grey
  }

  /** The statuses `isProcessing` lists. */
  const ProcessingStatuses: seq<string> := ["pending", "routing", "building", "signing", "sending"]

  predicate IsProcessing(status: string) {
    status in ProcessingStatuses
  }

  /** The two bodies a card can show. */
  datatype CardBody = ProcessingLogs(logs: seq<LogEntry>) | DetailsView(order: Order)

  /** The card body: the log while processing (an absent log shown as empty),
      the order details otherwise. */
  function Body(o: Order): (b: CardBody)
    ensures b.DetailsView? <==> o.status in {Confirmed, Failed}
    ensures b.ProcessingLogs? ==> b.logs == Entries(o)
    ensures b.DetailsView? ==> b.order == o
  {
    if IsProcessing(o.status.Name()) then ProcessingLogs(Entries(o)) else DetailsView(o)
  }

  // ---------------------------------------------------------------------------
  // Lemmas

  /** A status string is processing exactly when it names one of the five
      lifecycle states before the outcome. */
  lemma ProcessingExactly(status: string)
    ensures IsProcessing(status) <==>
      exists s: OrderStatus :: s.Name() == status && s != Confirmed && s != Failed
  {
    if IsProcessing(status) {
      var i :| 0 <= i < |ProcessingStatuses| && ProcessingStatuses[i] == status;
      var s := [Pending, Routing, Building, Signing, Sending][i];
      assert s.Name() == status;
    }
  }

  /** Grey is the colour of exactly the strings that name no status. */
  lemma GreyExactly(status: string)
    ensures StatusColor(status) == Grey <==> forall s: OrderStatus :: s.Name() != status
  {
    if StatusColor(status) != Grey {
      var s :=
        if status == "confirmed" then Confirmed
        else if status == "failed" then Failed
        else if status == "pending" then Pending
        else if status == "routing" then Routing
        else if status == "building" then Building
        else if status == "signing" then Signing
        else Sending;
      assert s.Name() == status;
    }
  }

  /** The badge and the body agree: the processing statuses are orange or
      blue, the outcomes green or red. */
  lemma ColourMatchesProcessing(s: OrderStatus)
    ensures IsProcessing(s.Name()) <==> StatusColor(s.Name()) in {Orange, Blue}
    ensures s == Confirmed || s == Failed <==> StatusColor(s.Name()) in {Green, Red}
    ensures StatusColor(s.Name()) == Blue <==> s in {Routing, Building, Signing, Sending}
    ensures StatusColor(s.Name()) == Green <==> s == Confirmed
    ensures StatusColor(s.Name()) == Red <==> s == Failed
    ensures StatusColor(s.Name()) == Orange <==> s == Pending
  {
    match s
    case Pending =>
    case Routing =>
    case Building =>
    case Signing =>
    case Sending =>
    case Confirmed =>
    case Failed =>
  }
}
