/** The rental models: day counts, the pending-payment test, the status badges,
    the defaults of a new payment, and the hook `Aluguel.save` runs on the
    rented car before it writes the rental row. */
module RentalModels {
  import opened Common
  import opened Schema
  import opened Store

  /** `SolicitacaoAluguel.calcular_dias`: the whole days from start to end, at
      least one, when both dates are set; 0 when one is missing. */
  function RequestDays(start: Option<int>, end: Option<int>): (d: int)
    ensures start.None? || end.None? ==> d == 0
    ensures start.Some? && end.Some? ==> d >= 1
    ensures start.Some? && end.Some? && end.value - start.value >= SecondsPerDay ==>
      d * SecondsPerDay <= end.value - start.value < (d + 1) * SecondsPerDay
    ensures start.Some? && end.Some? && end.value - start.value < 2 * SecondsPerDay ==> d == 1
  {
    if start.Some? && end.Some? then
      var days := (end.value - start.value) / SecondsPerDay;
      if days < 1 then 1 else days
    else 0
  }

  /** `Aluguel.calcular_duracao`: the whole days from start to end, floored, with
      no lower bound (an end before the start gives a negative count). */
  function RentalDuration(start: Option<int>, end: Option<int>): (d: int)
    ensures start.None? || end.None? ==> d == 0
    ensures start.Some? && end.Some? ==>
      d * SecondsPerDay <= end.value - start.value < (d + 1) * SecondsPerDay
  {
    if start.Some? && end.Some? then (end.value - start.value) / SecondsPerDay else 0
  }

  /** The two day counts agree whenever the rental lasts at least a day. */
  lemma DaysAgreeFromOneDay(start: int, end: int)
    requires end - start >= SecondsPerDay
    ensures RequestDays(Some(start), Some(end)) == RentalDuration(Some(start), Some(end))
  {
  }

  /** `SolicitacaoAluguel.tem_pagamento_pendente` for request `q`: its created
      rental has a payment, and that payment is still unpaid. */
  ghost function HasPendingPayment(s: State, q: RentalRequest): (b: bool)
    requires PaymentsOk(s.payments.rows, s.rentals.rows.Keys)
    ensures b <==> q.createdRental.Some? && exists p | p in s.payments.rows ::
      s.payments.rows[p].rental == q.createdRental.value && s.payments.rows[p].status == Unpaid
  {
    match q.createdRental
    case None => false
    case Some(a) =>
      match s.PaymentOf(a)
      case None => false
      case Some(p) =>
        assert forall p' | p' in s.payments.rows && s.payments.rows[p'].rental == a :: p' == p;
        s.payments.rows[p].status == Unpaid
  }

  /** `Pagamento.get_status_badge`. */
  function PaymentBadge(status: string): (c: string)
    ensures c == "bg-warning" <==> status == Unpaid.Name()
    ensures c == "bg-info" <==> status == Processing.Name()
    ensures c == "bg-success" <==> status == Paid.Name()
    ensures c == "bg-danger" <==> status == Refused.Name()
    ensures status == Voided.Name() ==> c == "bg-secondary"
    ensures (forall st: PaymentStatus :: status != st.Name()) ==> c == "bg-secondary"
  {
    var badges := map[
      "pendente" := "bg-warning", "processando" := "bg-info", "aprovado" := "bg-success",
      "recusado" := "bg-danger", "cancelado" := "bg-secondary"];
    if status in badges then badges[status] else "bg-secondary"
  }

  /** `SolicitacaoAluguel.get_status_badge`. */
  function RequestBadge(status: string): (c: string)
    ensures c == "bg-warning" <==> status == Pending.Name()
    ensures c == "bg-success" <==> status == Approved.Name()
    ensures c == "bg-danger" <==> status == Rejected.Name()
    ensures status == CancelledByClient.Name() ==> c == "bg-secondary"
    ensures (forall st: RequestStatus :: status != st.Name()) ==> c == "bg-secondary"
  {
    var badges := map[
      "pendente" := "bg-warning", "aprovado" := "bg-success",
      "rejeitado" := "bg-danger", "cancelado" := "bg-secondary"];
    if status in badges then badges[status] else "bg-secondary"
  }

  /** `Aluguel.get_status_badge`. */
  function RentalBadge(status: string): (c: string)
    ensures c == "bg-info" <==> status == Active.Name()
    ensures c == "bg-success" <==> status == Finished.Name()
    ensures status == Cancelled.Name() ==> c == "bg-secondary"
    ensures (forall st: RentalStatus :: status != st.Name()) ==> c == "bg-secondary"
  {
    var badges := map["ativo" := "bg-info", "finalizado" := "bg-success", "cancelado" := "bg-secondary"];
    if status in badges then badges[status] else "bg-secondary"
  }

  /** A new `Pagamento` row before its optional fields are filled in: the method
      and the status take their defaults, and it has not been paid. */
  function NewPayment(rental: Id, amount: int, due: int): (p: Payment)
    ensures p.rental == rental && p.amount == amount && p.due == due
    ensures p.payMethod == Pix && p.status == Unpaid
    ensures p.paidAt == None && p.pixKey == None && p.pixQrCode == None
    ensures p.barcode == None && p.digitLine == None
  {
    Payment(rental, Pix, amount, Unpaid, due, None, None, None, None, None)
  }

  /** The `outros_ativos` query: some active rental other than the one stored under `pk` uses car `car`. */
  predicate OtherActiveRental(rentals: map<Id, Rental>, pk: Option<Id>, car: Id) {
    exists k | k in rentals :: Some(k) != pk && rentals[k].car == car && rentals[k].status == Active
  }

  /** The car table once `Aluguel.save` has run its hook for rental `r`, stored under
      key `pk` (None for a rental not yet inserted). Only the rental's car
      changes, and only in its status. */
  function CarsAfterSave(s: State, pk: Option<Id>, r: Rental): (cars: Table<Car>)
    requires r.car in s.cars.rows
    ensures r.car in cars.rows
    ensures cars == s.cars.Update(r.car, s.cars.rows[r.car].(status := cars.rows[r.car].status))
    ensures r.status == Active ==> cars.rows[r.car].status == Rented
    ensures r.status != Active && !OtherActiveRental(s.rentals.rows, pk, r.car) ==>
      cars.rows[r.car].status == Available
    ensures r.status != Active && OtherActiveRental(s.rentals.rows, pk, r.car) ==>
      cars == s.cars
  {
    var car := s.cars.rows[r.car];
    match r.status
    case Active =>
      if car.status != Rented then s.cars.Update(r.car, car.(status := Rented)) else s.cars
    case _ =>
      if !OtherActiveRental(s.rentals.rows, pk, r.car) then s.cars.Update(r.car, car.(status := Available))
      else s.cars
  }

  /** The rows a rental references exist. */
  predicate RentalRefsExist(s: State, r: Rental) {
    r.profile in s.profiles.rows && r.car in s.cars.rows && r.staff in s.users.rows
  }

  /** `Aluguel.save`: the hook on the car, then the insert (under a new key, the
      second component) or the update (under `pk`) of the rental row. */
  function SaveRentalSpec(s: State, pk: Option<Id>, r: Rental): (res: (State, Id))
    requires r.car in s.cars.rows
    ensures res.0.rentals.rows == s.rentals.rows[res.1 := r] && res.0.cars == CarsAfterSave(s, pk, r)
  {
    match pk
    case Some(k) => (s.(cars := CarsAfterSave(s, pk, r), rentals := s.rentals.Update(k, r)), k)
    case None => (s.(cars := CarsAfterSave(s, pk, r), rentals := s.rentals.Insert(r)), s.rentals.next)
  }

  /** `Aluguel.save` on the database object. */
  method SaveRental(db: Db, pk: Option<Id>, r: Rental) returns (id: Id)
    requires r.car in db.cars.rows
    modifies db
    ensures (db.Snapshot(), id) == SaveRentalSpec(old(db.Snapshot()), pk, r)
  {
    ghost var s := db.Snapshot();
    var car := db.cars.rows[r.car];
    if r.status == Active && car.status != Rented {
      db.cars := db.cars.Update(r.car, car.(status := Rented));
    }
    if (r.status == Finished || r.status == Cancelled) && !OtherActiveRental(db.rentals.rows, pk, r.car) {
      db.cars := db.cars.Update(r.car, car.(status := Available));
    }
    assert db.cars == CarsAfterSave(s, pk, r);
    if pk.Some? {
      id := pk.value;
      db.rentals := db.rentals.Update(id, r);
    } else {
      id := db.rentals.next;
      db.rentals := db.rentals.Insert(r);
    }
  }

  /** Saving a rental whose references exist keeps the database valid; a new
      rental gets a key no rental had, and nothing but the rental's car and the
      rental row change. */
  lemma SaveRentalKeepsValid(s: State, pk: Option<Id>, r: Rental)
    requires s.Valid() && RentalRefsExist(s, r)
    requires pk.Some? ==> pk.value in s.rentals.rows
    ensures var (s', id) := SaveRentalSpec(s, pk, r);
      && s'.Valid()
      && (pk.None? ==> id !in s.rentals.rows && s'.rentals.rows.Keys == s.rentals.rows.Keys + {id})
      && (pk.Some? ==> s'.rentals.rows.Keys == s.rentals.rows.Keys)
      && s' == s.(cars := s'.cars, rentals := s'.rentals)
  {
    var cars := CarsAfterSave(s, pk, r);
    CarStatusKeepsValid(s, r.car, cars.rows[r.car].status);
    if pk.Some? {
      UpdateRentalKeepsValid(s.(cars := cars), pk.value, r);
      UpdateDeleteKeepKeys(s.rentals, pk.value, r);
    } else {
      InsertRentalKeepsValid(s.(cars := cars), r);
      InsertFresh(s.rentals, r);
    }
  }

  /** After a save, an active rental's car is never left available: either the
      saved rental is active and its car rented, or the car had another active
      rental and is untouched. */
  lemma SavedRentalIsOnlyActiveWhenCarRented(s: State, pk: Option<Id>, r: Rental)
    requires r.car in s.cars.rows
    requires forall k | k in s.rentals.rows :: s.rentals.rows[k].car in s.cars.rows
    requires forall k | k in s.rentals.rows && s.rentals.rows[k].status == Active ::
      s.cars.rows[s.rentals.rows[k].car].status == Rented
    ensures var s' := SaveRentalSpec(s, pk, r).0;
      forall k | k in s'.rentals.rows && s'.rentals.rows[k].status == Active ::
        s'.cars.rows[s'.rentals.rows[k].car].status == Rented
  {
    var (s', id) := SaveRentalSpec(s, pk, r);
    forall k | k in s'.rentals.rows && s'.rentals.rows[k].status == Active
      ensures s'.cars.rows[s'.rentals.rows[k].car].status == Rented
    {
      if k != id && s'.rentals.rows[k].car == r.car && r.status != Active {
        assert OtherActiveRental(s.rentals.rows, pk, r.car) by {
          assert Some(k) != pk;
        }
      }
    }
  }
}
