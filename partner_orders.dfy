/**
 * The partner's order page: the four delivery stages, the one action button
 * that moves an order to the next stage, the local copy of the orders after
 * a successful status change, the progress dots and the status icon.
 */
module PartnerOrders {
  import opened Wrappers

  /** The stages, in delivery order. */
  const Stages: seq<string> := ["pending", "preparing", "on_the_way", "delivered"]

  /** `stages.indexOf(status)`: the position of `x`, or -1. */
  function IndexOf(s: seq<string>, x: string): (r: int)
    ensures -1 <= r < |s|
    ensures r >= 0 ==> s[r] == x && forall j :: 0 <= j < r ==> s[j] != x
    ensures r == -1 <==> x !in s
  {
    if s == [] then -1
    else if s[0] == x then 0
    else
      var r := IndexOf(s[1..], x);
      assert forall j :: 1 <= j < |s| ==> s[j] == s[1..][j - 1];
      if r == -1 then -1 else r + 1
  }

  /** `getStatusIndex`: the stage position of a status, -1 for any other string. */
  function StatusIndex(status: string): (r: int)
    ensures -1 <= r < |Stages|
    ensures r >= 0 ==> Stages[r] == status
    ensures r == -1 <==> status !in Stages
  {
    IndexOf(Stages, status)
  }

  /** The action button's target status, if any. */
  function NextStatus(status: string): (r: Option<string>)
    ensures r.Some? <==> status in Stages[..3]
    ensures forall k :: 0 <= k < 3 && Stages[k] == status ==> r == Some(Stages[k + 1])
  {
    assert Stages[..3] == ["pending", "preparing", "on_the_way"];
    if status == "pending" then Some("preparing")
    else if status == "preparing" then Some("on_the_way")
    else if status == "on_the_way" then Some("delivered")
    else None
  }

  lemma StagesIndexed()
    ensures StatusIndex("pending") == 0 && StatusIndex("preparing") == 1
    ensures StatusIndex("on_the_way") == 2 && StatusIndex("delivered") == 3
  {
    assert Stages[0] == "pending" && Stages[1] == "preparing" && Stages[2] == "on_the_way" && Stages[3] == "delivered";
  }

  /**
   * The offered action moves exactly one stage forward: there is one exactly
   * for the first three stages, and none for "delivered" or an unknown status.
   */
  lemma NextStatusAdvancesOneStage(status: string)
    ensures NextStatus(status).Some? <==> 0 <= StatusIndex(status) < 3
    ensures NextStatus(status).Some? ==> StatusIndex(NextStatus(status).value) == StatusIndex(status) + 1
  {
    StagesIndexed();
    if status !in ["pending", "preparing", "on_the_way"] {
      if StatusIndex(status) >= 0 {
        assert Stages[StatusIndex(status)] == status;
      }
    }
  }

  /** The order fields the page reads; `status` is the one it overwrites. */
  datatype OrderCard = OrderCard(id: string, status: string, deliveryAddress: string, totalAmount: int)

  /**
   * The local `updateOrderStatus`: after the PATCH succeeded every order
   * with the id gets the new status; after a failure nothing changes.
   */
  function ApplyStatus(orders: seq<OrderCard>, id: string, status: string, succeeded: bool): (r: seq<OrderCard>)
    ensures |r| == |orders|
    ensures forall i :: 0 <= i < |orders| ==> r[i].(status := orders[i].status) == orders[i]
    ensures forall i :: 0 <= i < |orders| ==>
      r[i].status == if succeeded && orders[i].id == id then status else orders[i].status
  {
    if !succeeded then orders
    else seq(|orders|, i requires 0 <= i < |orders| => if orders[i].id == id then orders[i].(status := status) else orders[i])
  }

  /** Progress dot `i` is completed when it is at or before the order's stage. */
  predicate DotCompleted(i: int, status: string) {
    i <= StatusIndex(status)
  }

  /** Progress dot `i` is active when it is the order's stage. */
  predicate DotActive(i: int, status: string) {
    i == StatusIndex(status)
  }

  /**
   * Dot `i` is active exactly at the order's stage and completed exactly for
   * the stages up to it; an unknown status marks no dot at all.
   */
  lemma DotsFollowStage(status: string)
    ensures forall i :: 0 <= i < |Stages| ==> (DotActive(i, status) <==> Stages[i] == status)
    ensures forall i :: 0 <= i < |Stages| ==>
      (DotCompleted(i, status) <==> exists j :: i <= j < |Stages| && Stages[j] == status)
    ensures status !in Stages ==> forall i :: 0 <= i < |Stages| ==> !DotActive(i, status) && !DotCompleted(i, status)
  {
    StagesIndexed();
  }

  const PendingIcon := "\U{1F4E6}"
  const PreparingIcon := "\U{1F468}\U{200D}\U{1F373}"
  const OnTheWayIcon := "\U{1F6B4}"
  const DeliveredIcon := "\U{2705}"
  const UnknownIcon := "\U{2753}"

  const IconMap: map<string, string> :=
    map["pending" := PendingIcon, "preparing" := PreparingIcon, "on_the_way" := OnTheWayIcon, "delivered" := DeliveredIcon]

  /** `getStatusIcon`: the stage's icon, the question mark for any other status. */
  function StatusIcon(status: string): (r: string)
    ensures status !in Stages ==> r == UnknownIcon
    ensures status in Stages ==> r != UnknownIcon && r == IconMap[status]
  {
    if status in IconMap && IconMap[status] != "" then IconMap[status] else UnknownIcon
  }
}
