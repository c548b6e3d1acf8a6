/** What the JSON body of a payment tells. */
module PaymentBody {
  import opened Common
  import opened PaymentStore
  import Decimal

  /** The words of the JSON body read back. */
  function StatusOf(name: string): (r: Option<PaymentStatus>)
    ensures r == Some(Pending) <==> name == "pending"
    ensures r == Some(Processing) <==> name == "processing"
    ensures r == Some(Confirmed) <==> name == "confirmed"
    ensures r == Some(Failed) <==> name == "failed"
  {
    match name
    case "pending" => Some(Pending)
    case "processing" => Some(Processing)
    case "confirmed" => Some(Confirmed)
    case "failed" => Some(Failed)
    case _ => None
  }

  function UrgencyOf(name: string): (r: Option<Urgency>)
    ensures r == Some(Standard) <==> name == "standard"
    ensures r == Some(Fast) <==> name == "fast"
    ensures r == Some(Urgent) <==> name == "urgent"
  {
    match name
    case "standard" => Some(Standard)
    case "fast" => Some(Fast)
    case "urgent" => Some(Urgent)
    case _ => None
  }

  lemma NamesReadBack(status: PaymentStatus, urgency: Urgency)
    ensures StatusOf(StatusName(status)) == Some(status) && UrgencyOf(UrgencyName(urgency)) == Some(urgency)
  {
  }

  lemma BodyParties(p: Payment)
    ensures var f := ToValue(p).fields;
            && {"id", "sender", "recipient", "amount", "asset", "urgency"} <= f.Keys
            && f["id"] == String(p.id) && f["sender"] == String(p.sender) && f["recipient"] == String(p.recipient)
            && f["amount"] == Number(Decimal.Natural(p.amount)) && f["asset"] == String(p.asset)
            && f["urgency"] == String(UrgencyName(p.urgency))
  {
  }

  lemma BodyProgress(p: Payment)
    ensures var f := ToValue(p).fields;
            && {"status", "tx_hash", "fee_stroops", "error", "created_at", "updated_at"} <= f.Keys
            && f["status"] == String(StatusName(p.status)) && f["tx_hash"] == Nullable(p.txHash)
            && f["fee_stroops"] == Number(Decimal.Natural(p.feeStroops)) && f["error"] == Nullable(p.error)
            && f["created_at"] == String(p.createdAt) && f["updated_at"] == String(p.updatedAt)
  {
  }

  /** A body has twelve fields, and each reads back as what it is named after. */
  lemma BodyTells(p: Payment)
    ensures var f := ToValue(p).fields;
            && f.Keys == {"id", "sender", "recipient", "amount", "asset", "status", "tx_hash", "fee_stroops", "urgency",
                          "error", "created_at", "updated_at"}
            && f["id"] == String(p.id) && f["sender"] == String(p.sender) && f["recipient"] == String(p.recipient)
            && f["asset"] == String(p.asset)
            && f["created_at"] == String(p.createdAt) && f["updated_at"] == String(p.updatedAt)
            && f["tx_hash"] == Nullable(p.txHash) && f["error"] == Nullable(p.error)
            && f["amount"].Number? && Decimal.Parse(f["amount"].token) == p.amount
            && f["fee_stroops"].Number? && Decimal.Parse(f["fee_stroops"].token) == p.feeStroops
            && f["status"].String? && StatusOf(f["status"].s) == Some(p.status)
            && f["urgency"].String? && UrgencyOf(f["urgency"].s) == Some(p.urgency)
  {
    BodyParties(p);
    BodyProgress(p);
    NamesReadBack(p.status, p.urgency);
    Decimal.ParseInvertsNatural(p.amount);
    Decimal.ParseInvertsNatural(p.feeStroops);
  }

  /** A body tells every field of the payment it was made from. */
  lemma ToValueInjective(p: Payment, q: Payment)
    ensures ToValue(p) == ToValue(q) <==> p == q
  {
    BodyParties(p);
    BodyParties(q);
    BodyProgress(p);
    BodyProgress(q);
    Decimal.NaturalInjective(p.amount, q.amount);
    Decimal.NaturalInjective(p.feeStroops, q.feeStroops);
  }
}
