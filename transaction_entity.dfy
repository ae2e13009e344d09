/** The `transactions` table: one entry of the held-funds ledger. */
module TransactionEntity {
  import opened Common

  /** Exactly four states. */
  datatype TransactionStatus = Pending | Completed | Failed | Refunded

  /** Exactly three kinds. */
  datatype TransactionType = Payment | Payout | Refund

  function StatusName(s: TransactionStatus): (name: string)
  {
    match s
    case Pending => "pending"
    case Completed => "completed"
    case Failed => "failed"
    case Refunded => "refunded"
  }

  function ParseStatus(name: string): (s: Option<TransactionStatus>)
    ensures s.Some? ==> StatusName(s.value) == name
    ensures forall k :: StatusName(k) == name ==> s == Some(k)
  {
    if name == "pending" then Some(Pending)
    else if name == "completed" then Some(Completed)
    else if name == "failed" then Some(Failed)
    else if name == "refunded" then Some(Refunded)
    else None
  }

  function TypeName(t: TransactionType): (name: string)
  {
    match t
    case Payment => "payment"
    case Payout => "payout"
    case Refund => "refund"
  }

  function ParseType(name: string): (t: Option<TransactionType>)
    ensures t.Some? ==> TypeName(t.value) == name
    ensures forall k :: TypeName(k) == name ==> t == Some(k)
  {
    if name == "payment" then Some(Payment)
    else if name == "payout" then Some(Payout)
    else if name == "refund" then Some(Refund)
    else None
  }

  /** One row. Amounts are exact reals (decimal(10,2) columns in the
      database); times are minutes since the epoch. */
  datatype Transaction = Transaction(
    id: string,
    txType: TransactionType,
    userId: string,
    hostId: Option<string>,
    reservationId: Option<string>,
    amount: real,
    commissionAmount: real,
    vatAmount: real,
    netAmount: real,
    currency: string,
    status: TransactionStatus,
    stripePaymentIntentId: Option<string>,
    stripeChargeId: Option<string>,
    stripeTransferId: Option<string>,
    isReleased: bool,
    releasedAt: Option<int>,
    notes: Option<string>,
    createdAt: int)

  /** A row built from its required columns: status PENDING, not released,
      currency EUR, and every nullable column null. */
  function NewTransaction(id: string, txType: TransactionType, userId: string,
                          amount: real, commissionAmount: real, vatAmount: real, netAmount: real,
                          createdAt: int): (t: Transaction)
    ensures t.id == id && t.txType == txType && t.userId == userId && t.createdAt == createdAt
    ensures t.amount == amount && t.commissionAmount == commissionAmount
    ensures t.vatAmount == vatAmount && t.netAmount == netAmount
    ensures t.status == Pending && !t.isReleased && t.currency == "EUR"
    ensures t.hostId.None? && t.reservationId.None? && t.releasedAt.None? && t.notes.None?
    ensures t.stripePaymentIntentId.None? && t.stripeChargeId.None? && t.stripeTransferId.None?
  {
    Transaction(id, txType, userId, None, None, amount, commissionAmount, vatAmount, netAmount,
                "EUR", Pending, None, None, None, false, None, None, createdAt)
  }
}
