/** Checkout reconciliation: bringing a stored order in line with the payment
    status that the payment provider reports for its checkout session. */
module Reconciliation {
  import opened Common
  import opened Domain

  /** The provider's record of a checkout session, as far as it is used. */
  datatype CheckoutSession = CheckoutSession(PaymentStatus: string, PaymentIntentId: Option<string>)

  /** The answer of the provider's "retrieve session" call. */
  datatype SessionLookup = Retrieved(session: CheckoutSession) | ProviderError(message: string)

  /** The status an order takes once `s` has been applied to it. */
  function Reconcile(o: Order, s: CheckoutSession, now: Timestamp): (r: Order)
    // Only the three reconciled fields can change.
    ensures r == o.(Status := r.Status, CompletedDate := r.CompletedDate, StripePaymentIntentId := r.StripePaymentIntentId)
    // The status table, both directions.
    ensures r.Status == Completed <==> o.Status == Completed || s.PaymentStatus == "paid"
    ensures r.Status == Failed <==>
      (o.Status == Failed && s.PaymentStatus != "paid") || (o.Status == Pending && s.PaymentStatus == "unpaid")
    ensures r.Status == Pending <==>
      o.Status == Pending && s.PaymentStatus != "paid" && s.PaymentStatus != "unpaid"
    // Completion data is written exactly when the order becomes Completed.
    ensures r.Status == Completed && o.Status != Completed ==>
      r.CompletedDate == Some(now) && r.StripePaymentIntentId == s.PaymentIntentId
    // Failing an order touches nothing but its status.
    ensures r.Status == Failed && o.Status != Failed ==> r == o.(Status := Failed)
    ensures r.Status == o.Status ==> r == o
  {
    if s.PaymentStatus == "paid" && o.Status != Completed then
      o.(Status := Completed, CompletedDate := Some(now), StripePaymentIntentId := s.PaymentIntentId)
    else if s.PaymentStatus == "unpaid" && o.Status == Pending then
      o.(Status := Failed)
    else
      o
  }

  /** The transitions reconciliation can make: none, from Pending to a final
      status, or from Failed to Completed. */
  predicate MayFollow(from: OrderStatus, to: OrderStatus) {
    from == to || from == Pending || (from == Failed && to == Completed)
  }

  /** Applying reconciliation once per (session, time) call, in order. */
  function ReconcileAll(o: Order, calls: seq<(CheckoutSession, Timestamp)>): Order
    decreases |calls|
  {
    if calls == [] then o
    else ReconcileAll(Reconcile(o, calls[0].0, calls[0].1), calls[1..])
  }

  /** Reconciling a second time with the same session changes nothing,
      whenever it happens. */
  lemma ReconcileIdempotent(o: Order, s: CheckoutSession, t1: Timestamp, t2: Timestamp)
    ensures Reconcile(Reconcile(o, s, t1), s, t2) == Reconcile(o, s, t1)
  {
  }

  /** Replaying the same session any number of times is the same as doing it once. */
  lemma {:induction false} RepeatedSessionIsIdempotent(o: Order, s: CheckoutSession, calls: seq<(CheckoutSession, Timestamp)>)
    requires calls != []
    requires forall i :: 0 <= i < |calls| ==> calls[i].0 == s
    ensures ReconcileAll(o, calls) == Reconcile(o, s, calls[0].1)
    decreases |calls|
  {
    if |calls| > 1 {
      var o1 := Reconcile(o, s, calls[0].1);
      RepeatedSessionIsIdempotent(o1, s, calls[1..]);
      ReconcileIdempotent(o, s, calls[0].1, calls[1].1);
    }
  }

  /** A Completed order is final: no sequence of provider answers changes any
      of its fields, completion date and payment intent included. */
  lemma {:induction false} CompletedIsFinal(o: Order, calls: seq<(CheckoutSession, Timestamp)>)
    requires o.Status == Completed
    ensures ReconcileAll(o, calls) == o
    decreases |calls|
  {
    if calls != [] {
      CompletedIsFinal(Reconcile(o, calls[0].0, calls[0].1), calls[1..]);
    }
  }

  /** Across any sequence of reconciliations the status only moves along the
      allowed transitions: never back to Pending, never away from Completed. */
  lemma {:induction false} StatusOnlyAdvances(o: Order, calls: seq<(CheckoutSession, Timestamp)>)
    ensures MayFollow(o.Status, ReconcileAll(o, calls).Status)
    decreases |calls|
  {
    if calls != [] {
      var o1 := Reconcile(o, calls[0].0, calls[0].1);
      StatusOnlyAdvances(o1, calls[1..]);
    }
  }

  /** Looking the order up again by session id after a reconciliation finds
      the same row, and reconciling it again leaves it as it is. */
  lemma StoreReconcileIdempotent(orders: seq<Order>, sessionId: string, s: CheckoutSession, t1: Timestamp, t2: Timestamp)
    requires FindOrderBySession(orders, sessionId).Some?
    ensures var i := FindOrderBySession(orders, sessionId).value;
      var after := orders[i := Reconcile(orders[i], s, t1)];
      && FindOrderBySession(after, sessionId) == Some(i)
      && Reconcile(after[i], s, t2) == after[i]
  {
    var i := FindOrderBySession(orders, sessionId).value;
    var after := orders[i := Reconcile(orders[i], s, t1)];
    var bySession := (o: Order) => o.StripeSessionId == Some(sessionId);
    FirstIndexUnchanged(orders, after, bySession, i);
    ReconcileIdempotent(orders[i], s, t1, t2);
  }
}
