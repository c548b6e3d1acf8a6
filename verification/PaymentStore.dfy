/** Payments and the per-process store that the engine's reconcile path reads. */
module PaymentStore {
  import opened Common
  import Decimal

  datatype PaymentStatus = Pending | Processing | Confirmed | Failed

  datatype Urgency = Standard | Fast | Urgent

  datatype Payment = Payment(
    id: string,
    sender: string,
    recipient: string,
    amount: u64,
    asset: string,
    status: PaymentStatus,
    txHash: Option<string>,
    feeStroops: u64,
    urgency: Urgency,
    error: Option<string>,
    createdAt: string,
    updatedAt: string)

  predicate IsTerminal(status: PaymentStatus) {
    status.Confirmed? || status.Failed?
  }

  function StatusName(status: PaymentStatus): string {
    match status
    case Pending => "pending"
    case Processing => "processing"
    case Confirmed => "confirmed"
    case Failed => "failed"
  }

  function UrgencyName(urgency: Urgency): string {
    match urgency
    case Standard => "standard"
    case Fast => "fast"
    case Urgent => "urgent"
  }

  function Nullable(s: Option<string>): Value {
    if s.Some? then String(s.value) else Null
  }

  /** The JSON body that is stored with a completed claim and replayed. */
  function ToValue(p: Payment): Value {
    Object(map[
      "id" := String(p.id), "sender" := String(p.sender), "recipient" := String(p.recipient),
      "amount" := Number(Decimal.Natural(p.amount)), "asset" := String(p.asset),
      "status" := String(StatusName(p.status)), "tx_hash" := Nullable(p.txHash),
      "fee_stroops" := Number(Decimal.Natural(p.feeStroops)), "urgency" := String(UrgencyName(p.urgency)),
      "error" := Nullable(p.error), "created_at" := String(p.createdAt), "updated_at" := String(p.updatedAt)])
  }

  type Payments = map<string, Payment>

  /** What the adapter reported for a submission. */
  datatype Settlement = Accepted(txHash: string) | Rejected(reason: string)

  /** What never changes about a payment once it is made. */
  predicate SameOrder(p: Payment, q: Payment) {
    && q.id == p.id && q.sender == p.sender && q.recipient == p.recipient && q.amount == p.amount
    && q.asset == p.asset && q.feeStroops == p.feeStroops && q.urgency == p.urgency && q.createdAt == p.createdAt
  }

  function WithStatus(p: Payment, status: PaymentStatus, now: string): (q: Payment)
    ensures SameOrder(p, q) && q.txHash == p.txHash && q.error == p.error
    ensures q.status == status && q.updatedAt == now
  {
    p.(status := status, updatedAt := now)
  }

  function Settled(p: Payment, outcome: Settlement, now: string): (q: Payment)
    ensures SameOrder(p, q) && IsTerminal(q.status) && q.updatedAt == now
    ensures outcome.Accepted? ==> q.status == Confirmed && q.txHash == Some(outcome.txHash) && q.error == p.error
    ensures outcome.Rejected? ==> q.status == Failed && q.error == Some(outcome.reason) && q.txHash == p.txHash
  {
    match outcome
    case Accepted(txHash) => p.(status := Confirmed, txHash := Some(txHash), updatedAt := now)
    case Rejected(reason) => p.(status := Failed, error := Some(reason), updatedAt := now)
  }

  /** `q` is payment `p` with this status, hash, error and update time, and nothing else changed. */
  predicate Changed(p: Payment, q: Payment, status: PaymentStatus, txHash: Option<string>, error: Option<string>,
                    now: string)
  {
    SameOrder(p, q) && q.status == status && q.txHash == txHash && q.error == error && q.updatedAt == now
  }

  class PaymentStore {
    var payments: map<string, Payment>

    constructor ()
      ensures payments == map[]
    {
      payments := map[];
    }

    method Insert(payment: Payment)
      modifies this
      ensures payments == old(payments)[payment.id := payment]
    {
      payments := payments[payment.id := payment];
    }

    method Get(id: string) returns (r: Result<Payment>)
      ensures r == if id in payments then Ok(payments[id]) else Err(NotFound)
    {
      if id in payments {
        r := Ok(payments[id]);
      } else {
        r := Err(NotFound);
      }
    }

    method SetStatus(id: string, status: PaymentStatus, now: string) returns (r: Result<()>)
      modifies this
      ensures r.Ok? <==> id in old(payments)
      ensures r.Ok? ==> payments == old(payments)[id := WithStatus(old(payments)[id], status, now)]
      ensures r.Ok? ==>
                Changed(old(payments)[id], payments[id], status, old(payments)[id].txHash, old(payments)[id].error, now)
      ensures r.Err? ==> payments == old(payments) && r.error == NotFound
    {
      var payment :- Get(id);
      payment := payment.(status := status);
      payment := payment.(updatedAt := now);
      payments := payments[id := payment];
      r := Ok(());
    }

    method SetConfirmed(id: string, txHash: string, now: string) returns (r: Result<()>)
      modifies this
      ensures r.Ok? <==> id in old(payments)
      ensures r.Ok? ==> payments == old(payments)[id := Settled(old(payments)[id], Accepted(txHash), now)]
      ensures r.Ok? ==>
                Changed(old(payments)[id], payments[id], Confirmed, Some(txHash), old(payments)[id].error, now)
      ensures r.Err? ==> payments == old(payments) && r.error == NotFound
    {
      var payment :- Get(id);
      payment := payment.(status := Confirmed);
      payment := payment.(txHash := Some(txHash));
      payment := payment.(updatedAt := now);
      payments := payments[id := payment];
      r := Ok(());
    }

    method SetFailed(id: string, reason: string, now: string) returns (r: Result<()>)
      modifies this
      ensures r.Ok? <==> id in old(payments)
      ensures r.Ok? ==> payments == old(payments)[id := Settled(old(payments)[id], Rejected(reason), now)]
      ensures r.Ok? ==>
                Changed(old(payments)[id], payments[id], Failed, old(payments)[id].txHash, Some(reason), now)
      ensures r.Err? ==> payments == old(payments) && r.error == NotFound
    {
      var payment :- Get(id);
      payment := payment.(status := Failed);
      payment := payment.(error := Some(reason));
      payment := payment.(updatedAt := now);
      payments := payments[id := payment];
      r := Ok(());
    }
  }
}
