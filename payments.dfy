/** The escrow ledger: a payment is split into platform commission, VAT on
    that commission and the host's net share; it is captured by the gateway's
    webhook, held for a retention period, then released to the host, unless
    it is refunded first. */
module Payments {
  import opened Common
  import opened Sorting
  import opened TransactionEntity
  import opened Users
  import opened Hosts

  /** The configuration keys the service reads; an absent key takes its
      default (commission 0.10, VAT 0.21, retention 7 days). */
  datatype PaymentConfig = PaymentConfig(
    commissionRate: Option<real>,
    vatRate: Option<real>,
    retentionDays: Option<int>)

  const DefaultCommissionRate: real := 0.10
  const DefaultVatRate: real := 0.21
  const DefaultRetentionDays: int := 7

  /** How a gross amount is divided. */
  datatype FeeSplit = FeeSplit(commission: real, vat: real, fee: real, net: real)

  /** The commission is a share of the gross amount, the VAT a share of the
      commission; the platform keeps both as its fee and the host gets the
      rest, so the three parts add up to the gross amount exactly. */
  function SplitAmount(amount: real, commissionRate: real, vatRate: real): (s: FeeSplit)
    ensures s.commission == amount * commissionRate
    ensures s.vat == s.commission * vatRate
    ensures s.fee == s.commission + s.vat
    ensures s.net + s.commission + s.vat == amount
  {
    var commission := amount * commissionRate;
    var vat := commission * vatRate;
    var fee := commission + vat;
    FeeSplit(commission, vat, fee, amount - fee)
  }

  /** With the default rates, 100 splits into 10 commission, 2.10 VAT and
      87.90 for the host. */
  lemma DefaultSplitOfHundred()
    ensures SplitAmount(100.0, DefaultCommissionRate, DefaultVatRate) == FeeSplit(10.0, 2.1, 12.1, 87.9)
  {
    var s := SplitAmount(100.0, DefaultCommissionRate, DefaultVatRate);
    assert s.commission == 10.0;
    assert s.vat == 2.1;
  }

  lemma MulMono(a: real, b: real, c: real)
    requires a >= 0.0 && b <= c
    ensures a * b <= a * c
  {}

  /** As long as commission and its VAT together do not exceed the whole
      amount, the host's share is between nothing and the gross amount. */
  lemma NetWithinAmount(amount: real, commissionRate: real, vatRate: real)
    requires amount >= 0.0 && commissionRate >= 0.0 && vatRate >= 0.0
    requires commissionRate * (1.0 + vatRate) <= 1.0
    ensures 0.0 <= SplitAmount(amount, commissionRate, vatRate).net <= amount
  {
    var s := SplitAmount(amount, commissionRate, vatRate);
    var k := commissionRate * (1.0 + vatRate);
    assert s.fee == amount * k by {
      calc {
        s.fee;
        amount * commissionRate + amount * commissionRate * vatRate;
        amount * (commissionRate + commissionRate * vatRate);
        amount * k;
      }
    }
    MulMono(amount, 0.0, k);
    MulMono(amount, k, 1.0);
  }

  /** Whether the release batch picks a row: captured, not yet released, and
      created no later than the cutoff. */
  predicate Eligible(t: Transaction, cutoff: int) {
    t.status == Completed && !t.isReleased && t.createdAt <= cutoff
  }

  function ReleasedAt(t: Transaction, now: int): Transaction {
    t.(isReleased := true, releasedAt := Some(now))
  }

  /** The table after one release batch at `now` with the given cutoff. */
  function Release(table: map<string, Transaction>, cutoff: int, now: int): (r: map<string, Transaction>)
    ensures r.Keys == table.Keys
  {
    map id | id in table :: if Eligible(table[id], cutoff) then ReleasedAt(table[id], now) else table[id]
  }

  /** The table part way through a batch: the rows in `done` are flagged. */
  function ReleasedSome(table: map<string, Transaction>, done: set<string>, now: int): (r: map<string, Transaction>)
    ensures r.Keys == table.Keys
  {
    map id | id in table :: if id in done then ReleasedAt(table[id], now) else table[id]
  }

  /** Flagging one more row is one update of the table. */
  lemma ReleasedSomeStep(table: map<string, Transaction>, done: set<string>, id: string, now: int)
    requires id in table
    ensures ReleasedSome(table, done + {id}, now) == ReleasedSome(table, done, now)[id := ReleasedAt(table[id], now)]
  {
    var a := ReleasedSome(table, done + {id}, now);
    var b := ReleasedSome(table, done, now)[id := ReleasedAt(table[id], now)];
    assert forall k :: k in a ==> a[k] == b[k];
  }

  /** Flagging exactly the eligible rows is the batch. */
  lemma ReleasedSomeAll(table: map<string, Transaction>, cutoff: int, now: int)
    ensures ReleasedSome(table, (set id | id in table && Eligible(table[id], cutoff)), now) == Release(table, cutoff, now)
  {
    var a := ReleasedSome(table, (set id | id in table && Eligible(table[id], cutoff)), now);
    var b := Release(table, cutoff, now);
    assert forall k :: k in a ==> a[k] == b[k];
  }

  /** A row a batch releases is never picked again: any later batch, with
      any cutoff, leaves it as the first batch left it. A batch with the
      same or an earlier cutoff changes nothing at all. */
  lemma ReleaseIdempotent(table: map<string, Transaction>, cutoff: int, now: int, laterCutoff: int, later: int)
    ensures forall id :: id in table && Eligible(table[id], cutoff) ==>
              !Eligible(Release(table, cutoff, now)[id], laterCutoff)
              && Release(Release(table, cutoff, now), laterCutoff, later)[id] == Release(table, cutoff, now)[id]
    ensures laterCutoff <= cutoff ==> Release(Release(table, cutoff, now), laterCutoff, later) == Release(table, cutoff, now)
  {
    var once := Release(table, cutoff, now);
    var twice := Release(once, laterCutoff, later);
    forall id | id in table && Eligible(table[id], cutoff)
      ensures !Eligible(once[id], laterCutoff) && twice[id] == once[id]
    {
      assert once[id].isReleased;
    }
    if laterCutoff <= cutoff {
      forall id | id in once ensures twice[id] == once[id] {
        if Eligible(table[id], cutoff) {
          assert once[id].isReleased;
        } else {
          assert once[id] == table[id];
        }
      }
    }
  }

  /** A captured, unreleased transaction is released by a batch run at
      `now` (whose cutoff is the retention period earlier) exactly when
      `now` is at least the retention period after its creation. */
  lemma RetentionBoundary(table: map<string, Transaction>, id: string, retentionDays: int, now: int)
    requires id in table && table[id].status == Completed && !table[id].isReleased
    ensures Release(table, now - retentionDays * MinutesPerDay, now)[id].isReleased
            <==> now >= table[id].createdAt + retentionDays * MinutesPerDay
  {}

  /** `refundTransaction` on one row: only a COMPLETED transaction with a
      payment intent id can be refunded; it becomes REFUNDED with the reason
      as its note. Whether it was already released is not looked at. */
  function RefundOutcome(t: Transaction, reason: string): (o: Result<Transaction>)
    ensures o.Ok? <==> t.status == Completed && !Blank(t.stripePaymentIntentId)
    ensures o.Ok? ==> o.value == t.(status := Refunded, notes := Some(reason))
    ensures o.Err? ==> o.error.BadRequest?
  {
    if t.status != Completed then Err(BadRequest("Only completed transactions can be refunded"))
    else if Blank(t.stripePaymentIntentId) then Err(BadRequest("Transaction has no associated payment intent"))
    else Ok(t.(status := Refunded, notes := Some(reason)))
  }

  /** What every row of the ledger satisfies. */
  predicate WellFormed(t: Transaction) {
    && (t.isReleased <==> t.releasedAt.Some?)
    && (t.txType == Payment ==> t.netAmount + t.commissionAmount + t.vatAmount == t.amount)
  }

  class PaymentsService {
    var transactions: map<string, Transaction>
    const users: UsersService
    const hosts: HostsService
    const config: PaymentConfig

    ghost predicate Valid()
      reads this, users
    {
      && users.Valid()
      && (forall id :: id in transactions ==> transactions[id].id == id && WellFormed(transactions[id]))
    }

    constructor (users: UsersService, hosts: HostsService, config: PaymentConfig)
      requires users.Valid()
      ensures Valid() && transactions == map[]
      ensures this.users == users && this.hosts == hosts && this.config == config
    {
      transactions := map[];
      this.users := users;
      this.hosts := hosts;
      this.config := config;
    }

    /** The cutoff of a batch run at `now`: the retention period earlier. */
    function Cutoff(now: int): int {
      now - config.retentionDays.GetOr(DefaultRetentionDays) * MinutesPerDay
    }

    /** `findById`: the row, or NotFound. */
    function FindById(id: string): (r: Result<Transaction>)
      reads this
      ensures r.Ok? <==> id in transactions
      ensures r.Ok? ==> r.value == transactions[id]
      ensures r.Err? ==> r.error.NotFound?
    {
      if id in transactions then Ok(transactions[id])
      else Err(NotFound("Transaction with ID " + id + " not found"))
    }

    /** `findByUser`: the rows the user paid and the rows paid to the user
        as a host. */
    function FindByUser(userId: string): (r: set<Transaction>)
      reads this
      ensures forall t :: t in r <==> t in transactions.Values && (t.userId == userId || t.hostId == Some(userId))
    {
      set t | t in transactions.Values && (t.userId == userId || t.hostId == Some(userId))
    }

    /** `createPaymentIntent`. Customer and host must exist. A customer with
        no gateway customer id gets `newCustomerId` (the one the gateway
        creates) written to the user row, and this happens before the host's
        connected account is checked. A host without a connected account is
        refused and no transaction is stored. Otherwise one PENDING PAYMENT
        row carrying the split, the reservation and `intentId` (the id of
        the intent the gateway creates) is stored; its id is returned. */
    method CreatePaymentIntent(userId: string, hostId: string, amount: real, reservationId: string,
                               newCustomerId: string, intentId: string, now: int) returns (r: Result<string>)
      requires Valid()
      modifies this, users
      ensures Valid()
      ensures r.Ok? <==> userId in old(users.users) && hostId in hosts.hosts && !Blank(hosts.hosts[hostId].stripeConnectId)
      ensures r.Err? ==> transactions == old(transactions)
      ensures r.Err? && (userId !in old(users.users) || hostId !in hosts.hosts) ==> r.error.NotFound?
      ensures r.Err? && userId in old(users.users) && hostId in hosts.hosts ==> r.error.BadRequest?
      ensures userId in old(users.users) && hostId in hosts.hosts && Blank(old(users.users)[userId].stripeCustomerId)
              ==> users.users == old(users.users)[userId := old(users.users)[userId].(stripeCustomerId := Some(newCustomerId))]
      ensures !(userId in old(users.users) && hostId in hosts.hosts && Blank(old(users.users)[userId].stripeCustomerId))
              ==> users.users == old(users.users)
      ensures r.Ok? ==>
        var s := SplitAmount(amount, config.commissionRate.GetOr(DefaultCommissionRate), config.vatRate.GetOr(DefaultVatRate));
        && r.value !in old(transactions)
        && transactions == old(transactions)[r.value :=
             NewTransaction(r.value, Payment, userId, amount, s.commission, s.vat, s.net, now)
               .(hostId := Some(hostId), reservationId := Some(reservationId), stripePaymentIntentId := Some(intentId))]
    {
      var user := users.FindById(userId);
      if user.Err? {
        return Err(user.error);
      }
      var host := hosts.FindById(hostId);
      if host.Err? {
        return Err(host.error);
      }
      if Blank(user.value.stripeCustomerId) {
        // the patch carries no password, so no hash is involved
        var _ := users.Update(userId, CustomerIdPatch(newCustomerId), "");
      }
      if Blank(host.value.stripeConnectId) {
        return Err(BadRequest("Host Stripe account not set up"));
      }
      var s := SplitAmount(amount, config.commissionRate.GetOr(DefaultCommissionRate), config.vatRate.GetOr(DefaultVatRate));
      FreshIdExists(transactions.Keys);
      var id :| id !in transactions;
      var t := NewTransaction(id, Payment, userId, amount, s.commission, s.vat, s.net, now)
                 .(hostId := Some(hostId), reservationId := Some(reservationId), stripePaymentIntentId := Some(intentId));
      transactions := transactions[id := t];
      r := Ok(id);
    }

    /** `handlePaymentIntentSucceeded`: a row with that intent id must exist;
        it becomes COMPLETED whatever its status was, and takes the first
        charge id when the gateway reports any charge. */
    method HandlePaymentIntentSucceeded(intentId: string, charges: seq<string>) returns (r: Result<Transaction>)
      requires Valid()
      modifies this
      ensures Valid()
      ensures r.Ok? <==> exists id :: id in old(transactions) && old(transactions)[id].stripePaymentIntentId == Some(intentId)
      ensures r.Err? ==> r.error.NotFound? && transactions == old(transactions)
      ensures r.Ok? ==> r.value.id in old(transactions)
                        && old(transactions)[r.value.id].stripePaymentIntentId == Some(intentId)
                        && r.value == old(transactions)[r.value.id].(
                             status := Completed,
                             stripeChargeId := if |charges| > 0 then Some(charges[0]) else old(transactions)[r.value.id].stripeChargeId)
                        && transactions == old(transactions)[r.value.id := r.value]
    {
      if !exists id :: id in transactions && transactions[id].stripePaymentIntentId == Some(intentId) {
        return Err(NotFound("Transaction with payment intent " + intentId + " not found"));
      }
      var id :| id in transactions && transactions[id].stripePaymentIntentId == Some(intentId);
      var t := transactions[id].(status := Completed);
      if |charges| > 0 {
        t := t.(stripeChargeId := Some(charges[0]));
      }
      transactions := transactions[id := t];
      r := Ok(t);
    }

    /** `processReleasePendingPayments`: every eligible row is flagged as
        released at `now`, and the flagged rows are returned. */
    method ProcessReleasePendingPayments(now: int) returns (released: seq<Transaction>)
      requires Valid()
      modifies this
      ensures Valid()
      ensures transactions == Release(old(transactions), Cutoff(now), now)
      ensures Distinct(released)
      ensures forall t :: t in released <==> t.id in old(transactions) && Eligible(old(transactions)[t.id], Cutoff(now))
                                             && t == transactions[t.id]
    {
      var cutoff := Cutoff(now);
      ghost var before := transactions;
      var eligible := set id | id in transactions && Eligible(transactions[id], cutoff);
      var remaining := eligible;
      released := [];
      while remaining != {}
        invariant remaining <= eligible
        invariant transactions == ReleasedSome(before, eligible - remaining, now)
        invariant Distinct(released)
        invariant forall t :: t in released <==> t.id in eligible - remaining && t == ReleasedAt(before[t.id], now)
        decreases remaining
      {
        var id :| id in remaining;
        var t := ReleasedAt(transactions[id], now);
        ReleasedSomeStep(before, eligible - remaining, id, now);
        assert eligible - (remaining - {id}) == (eligible - remaining) + {id};
        transactions := transactions[id := t];
        released := released + [t];
        remaining := remaining - {id};
      }
      ReleasedSomeAll(before, cutoff, now);
    }

    /** `refundTransaction`: the row must exist, then `RefundOutcome`
        decides. */
    method RefundTransaction(id: string, reason: string) returns (r: Result<Transaction>)
      requires Valid()
      modifies this
      ensures Valid()
      ensures r.Ok? <==> id in old(transactions) && RefundOutcome(old(transactions)[id], reason).Ok?
      ensures r.Ok? ==> r.value == old(transactions)[id].(status := Refunded, notes := Some(reason))
                        && transactions == old(transactions)[id := r.value]
      ensures r.Err? ==> transactions == old(transactions)
      ensures r.Err? && id !in old(transactions) ==> r.error.NotFound?
      ensures r.Err? && id in old(transactions) ==> r.error.BadRequest?
    {
      var found := FindById(id);
      if found.Err? {
        return Err(found.error);
      }
      r := RefundOutcome(found.value, reason);
      if r.Ok? {
        transactions := transactions[id := r.value];
      }
    }
  }
}
