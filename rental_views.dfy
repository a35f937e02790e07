/** The staff views on rentals and payments of the rental app, and the access
    check of a rental's detail page. As for the request views, each view is a
    function to the new database and the answer, and a method making the same
    writes on the `Db` object. */
module RentalViews {
  import opened Common
  import opened Schema
  import opened Store
  import opened Sessions
  import opened Decorators
  import opened RentalModels

  /** The payments left once those of rental `a` are deleted with it (CASCADE). */
  function PaymentsWithout(payments: Table<Payment>, a: Id): (t: Table<Payment>)
    ensures t.next == payments.next
    ensures forall p :: p in t.rows <==> p in payments.rows && payments.rows[p].rental != a
    ensures forall p | p in t.rows :: t.rows[p] == payments.rows[p]
  {
    Table(map p | p in payments.rows && payments.rows[p].rental != a :: payments.rows[p], payments.next)
  }

  /** The requests once rental `a` is deleted: those that created it now point to
      no rental (SET_NULL); every other field and row is kept. */
  function RequestsUnlinked(requests: Table<RentalRequest>, a: Id): (t: Table<RentalRequest>)
    ensures t.next == requests.next && t.rows.Keys == requests.rows.Keys
    ensures forall k | k in t.rows :: t.rows[k].createdRental != Some(a)
    ensures forall k | k in t.rows ::
      t.rows[k] == if requests.rows[k].createdRental == Some(a) then requests.rows[k].(createdRental := None) else requests.rows[k]
  {
    var rows := map k | k in requests.rows ::
      if requests.rows[k].createdRental == Some(a) then requests.rows[k].(createdRental := None) else requests.rows[k];
    Table(rows, requests.next)
  }

  /** `aluguel.delete()`: the rental row goes, with its payment, and the requests
      that created it are unlinked. The car is not touched. */
  function DeleteRentalRow(s: State, a: Id): (s': State)
    ensures s'.rentals.rows == s.rentals.rows - {a} && s'.rentals.next == s.rentals.next
    ensures s'.payments == PaymentsWithout(s.payments, a) && s'.requests == RequestsUnlinked(s.requests, a)
    ensures s' == s.(rentals := s'.rentals, payments := s'.payments, requests := s'.requests)
  {
    s.(rentals := s.rentals.Delete(a), payments := PaymentsWithout(s.payments, a), requests := RequestsUnlinked(s.requests, a))
  }

  /** `aluguel_delete`: a staff user deletes a rental. When it was active its car is
      set available, whether or not another active rental uses the car. */
  function DeleteRentalSpec(s: State, ses: SessionData, pk: Id, post: bool): (res: (State, Reply))
    requires s.Linked()
    ensures res.1 != Success ==> res.0 == s
    ensures res.1 == Success <==> StaffRequired(ses) == Admit && pk in s.rentals.rows && post
    ensures res.1 == Success ==>
      var r := s.rentals.rows[pk];
      && res.0.rentals.rows == s.rentals.rows - {pk}
      && (r.status == Active ==> res.0.cars == s.cars.Update(r.car, s.cars.rows[r.car].(status := Available)))
      && (r.status != Active ==> res.0.cars == s.cars)
      && res.0 == DeleteRentalRow(s.(cars := res.0.cars), pk)
  {
    var gate := StaffRequired(ses);
    if gate.Deny? then (s, gate.reply)
    else if pk !in s.rentals.rows then (s, NotFound)
    else if !post then (s, Page)
    else
      var r := s.rentals.rows[pk];
      var s1 := if r.status == Active then s.(cars := s.cars.Update(r.car, s.cars.rows[r.car].(status := Available))) else s;
      (DeleteRentalRow(s1, pk), Success)
  }

  method DeleteRental(db: Db, ses: SessionData, pk: Id, post: bool) returns (reply: Reply)
    requires db.Snapshot().Linked()
    modifies db
    ensures (db.Snapshot(), reply) == DeleteRentalSpec(old(db.Snapshot()), ses, pk, post)
  {
    var gate := StaffRequired(ses);
    if gate.Deny? {
      return gate.reply;
    }
    if pk !in db.rentals.rows {
      return NotFound;
    }
    if !post {
      return Page;
    }
    var r := db.rentals.rows[pk];
    if r.status == Active {
      var car := db.cars.rows[r.car];
      db.cars := db.cars.Update(r.car, car.(status := Available));
    }
    db.payments := PaymentsWithout(db.payments, pk);
    db.requests := RequestsUnlinked(db.requests, pk);
    db.rentals := db.rentals.Delete(pk);
    return Success;
  }

  /** Deleting an active rental frees its car even when another active rental
      still uses it: that rental stays active on a car marked available. */
  lemma DeleteFreesCarDespiteOtherActive(s: State, ses: SessionData, pk: Id, other: Id)
    requires s.Linked() && StaffRequired(ses) == Admit
    requires pk in s.rentals.rows && s.rentals.rows[pk].status == Active
    requires other in s.rentals.rows && other != pk
    requires s.rentals.rows[other].status == Active && s.rentals.rows[other].car == s.rentals.rows[pk].car
    ensures var s' := DeleteRentalSpec(s, ses, pk, true).0;
      && other in s'.rentals.rows && s'.rentals.rows[other].status == Active
      && s'.rentals.rows[other].car in s'.cars.rows
      && s'.cars.rows[s'.rentals.rows[other].car].status == Available
  {
  }

  /** The rental table's constraints hold of any subset of its rows. */
  lemma RentalsShrinkOk(rentals: map<Id, Rental>, profiles: set<Id>, cars: set<Id>, users: set<Id>, a: Id)
    requires RentalsOk(rentals, profiles, cars, users)
    ensures RentalsOk(rentals - {a}, profiles, cars, users)
  {
  }

  /** Unlinked requests satisfy their constraints without rental `a`. */
  lemma RequestsUnlinkedOk(requests: Table<RentalRequest>, profiles: set<Id>, cars: set<Id>, rentals: set<Id>, a: Id)
    requires RequestsOk(requests.rows, profiles, cars, rentals)
    ensures RequestsOk(RequestsUnlinked(requests, a).rows, profiles, cars, rentals - {a})
  {
    var rs := RequestsUnlinked(requests, a).rows;
    forall x, y | x in rs && y in rs && rs[x].createdRental.Some? && rs[x].createdRental == rs[y].createdRental
      ensures x == y
    {
      assert requests.rows[x].createdRental == requests.rows[y].createdRental;
    }
  }

  /** The remaining payments satisfy their constraints without rental `a`. */
  lemma PaymentsWithoutOk(payments: Table<Payment>, rentals: set<Id>, a: Id)
    requires PaymentsOk(payments.rows, rentals)
    ensures PaymentsOk(PaymentsWithout(payments, a).rows, rentals - {a})
  {
    var ps := PaymentsWithout(payments, a).rows;
    forall x, y | x in ps && y in ps && ps[x].rental == ps[y].rental ensures x == y {
      assert payments.rows[x].rental == payments.rows[y].rental;
    }
  }

  /** Deleting a rental with its cascades keeps the database valid. */
  lemma DeleteRentalRowKeepsValid(s: State, a: Id)
    requires s.Valid()
    ensures DeleteRentalRow(s, a).Valid()
  {
    DeleteKeepsKeys(s.rentals, a);
    RentalsShrinkOk(s.rentals.rows, s.profiles.rows.Keys, s.cars.rows.Keys, s.users.rows.Keys, a);
    RequestsUnlinkedOk(s.requests, s.profiles.rows.Keys, s.cars.rows.Keys, s.rentals.rows.Keys, a);
    PaymentsWithoutOk(s.payments, s.rentals.rows.Keys, a);
  }

  /** Deleting a rental keeps the database valid. */
  lemma DeleteRentalKeepsValid(s: State, ses: SessionData, pk: Id, post: bool)
    requires s.Valid() && s.Linked()
    ensures DeleteRentalSpec(s, ses, pk, post).0.Valid()
  {
    var (s', reply) := DeleteRentalSpec(s, ses, pk, post);
    if reply == Success {
      var r := s.rentals.rows[pk];
      if r.status == Active {
        CarStatusKeepsValid(s, r.car, Available);
        DeleteRentalRowKeepsValid(s.(cars := s.cars.Update(r.car, s.cars.rows[r.car].(status := Available))), pk);
      } else {
        DeleteRentalRowKeepsValid(s, pk);
      }
    }
  }

  /** The status named by the `status` field of the POST, if it is one of the three. */
  function ParseRentalStatus(raw: Option<string>): (st: Option<RentalStatus>)
    ensures st.Some? <==> raw.Some? && raw.value in {Active.Name(), Finished.Name(), Cancelled.Name()}
    ensures st.Some? ==> st.value.Name() == raw.value
  {
    if raw == Some(Active.Name()) then Some(Active)
    else if raw == Some(Finished.Name()) then Some(Finished)
    else if raw == Some(Cancelled.Name()) then Some(Cancelled)
    else None
  }

  /** The rental `pk` saved, through `Aluguel.save`, with status `st`. */
  function SaveWithStatus(s: State, pk: Id, st: RentalStatus): (s': State)
    requires pk in s.rentals.rows && s.rentals.rows[pk].car in s.cars.rows
    ensures s'.rentals.rows.Keys == s.rentals.rows.Keys
    ensures s'.rentals.rows == s.rentals.rows[pk := s.rentals.rows[pk].(status := st)]
    ensures s'.cars == CarsAfterSave(s, Some(pk), s.rentals.rows[pk].(status := st))
    ensures s' == s.(cars := s'.cars, rentals := s'.rentals)
  {
    SaveRentalSpec(s, Some(pk), s.rentals.rows[pk].(status := st)).0
  }

  /** `aluguel_change_status`: a staff user POSTs one of the three statuses and the
      rental is saved with it, whatever its current status; any other value, or a
      GET, changes nothing. */
  function ChangeRentalStatusSpec(s: State, ses: SessionData, pk: Id, post: bool, raw: Option<string>): (res: (State, Reply))
    requires s.Linked()
    ensures res.1 != Success ==> res.0 == s
    ensures res.1 == Success <==>
      && StaffRequired(ses) == Admit && pk in s.rentals.rows && post
      && raw.Some? && raw.value in {Active.Name(), Finished.Name(), Cancelled.Name()}
    ensures res.1 == Success ==> res.0 == SaveWithStatus(s, pk, ParseRentalStatus(raw).value)
    ensures res.1 == Success ==> res.0.rentals.rows[pk].status.Name() == raw.value
  {
    var gate := StaffRequired(ses);
    if gate.Deny? then (s, gate.reply)
    else if pk !in s.rentals.rows then (s, NotFound)
    else if !post then (s, Redirect)
    else
      match ParseRentalStatus(raw)
      case None => (s, Redirect)
      case Some(st) => (SaveWithStatus(s, pk, st), Success)
  }

  method ChangeRentalStatus(db: Db, ses: SessionData, pk: Id, post: bool, raw: Option<string>) returns (reply: Reply)
    requires db.Snapshot().Linked()
    modifies db
    ensures (db.Snapshot(), reply) == ChangeRentalStatusSpec(old(db.Snapshot()), ses, pk, post, raw)
  {
    var gate := StaffRequired(ses);
    if gate.Deny? {
      return gate.reply;
    }
    if pk !in db.rentals.rows {
      return NotFound;
    }
    if !post {
      return Redirect;
    }
    var st := ParseRentalStatus(raw);
    if st.None? {
      return Redirect;
    }
    var r := db.rentals.rows[pk];
    var _ := SaveRental(db, Some(pk), r.(status := st.value));
    return Success;
  }

  /** `aluguel_finalizar` (`to` = Finished) and `aluguel_cancelar` (`to` = Cancelled):
      a POST on an active rental saves it with the new status; a rental that is not
      active is left as it is, with a warning. */
  function CloseRentalSpec(s: State, ses: SessionData, pk: Id, post: bool, to: RentalStatus): (res: (State, Reply))
    requires s.Linked()
    ensures res.1 != Success ==> res.0 == s
    ensures res.1 == Success <==> StaffRequired(ses) == Admit && pk in s.rentals.rows && post && s.rentals.rows[pk].status == Active
    ensures StaffRequired(ses) == Admit && pk in s.rentals.rows && post && s.rentals.rows[pk].status != Active ==>
      res == (s, Warning)
    ensures res.1 == Success ==> res.0 == SaveWithStatus(s, pk, to)
  {
    var gate := StaffRequired(ses);
    if gate.Deny? then (s, gate.reply)
    else if pk !in s.rentals.rows then (s, NotFound)
    else if !post then (s, Page)
    else if s.rentals.rows[pk].status != Active then (s, Warning)
    else (SaveWithStatus(s, pk, to), Success)
  }

  method FinalizeRental(db: Db, ses: SessionData, pk: Id, post: bool) returns (reply: Reply)
    requires db.Snapshot().Linked()
    modifies db
    ensures (db.Snapshot(), reply) == CloseRentalSpec(old(db.Snapshot()), ses, pk, post, Finished)
  {
    reply := CloseRental(db, ses, pk, post, Finished);
  }

  method CancelRental(db: Db, ses: SessionData, pk: Id, post: bool) returns (reply: Reply)
    requires db.Snapshot().Linked()
    modifies db
    ensures (db.Snapshot(), reply) == CloseRentalSpec(old(db.Snapshot()), ses, pk, post, Cancelled)
  {
    reply := CloseRental(db, ses, pk, post, Cancelled);
  }

  /** The body the two closing views share. */
  method CloseRental(db: Db, ses: SessionData, pk: Id, post: bool, to: RentalStatus) returns (reply: Reply)
    requires db.Snapshot().Linked()
    modifies db
    ensures (db.Snapshot(), reply) == CloseRentalSpec(old(db.Snapshot()), ses, pk, post, to)
  {
    var gate := StaffRequired(ses);
    if gate.Deny? {
      return gate.reply;
    }
    if pk !in db.rentals.rows {
      return NotFound;
    }
    if !post {
      return Page;
    }
    var r := db.rentals.rows[pk];
    if r.status != Active {
      return Warning;
    }
    var _ := SaveRental(db, Some(pk), r.(status := to));
    return Success;
  }

  /** Closing a rental frees its car exactly when no other active rental uses it. */
  lemma ClosingFreesCarUnlessShared(s: State, ses: SessionData, pk: Id, to: RentalStatus)
    requires s.Linked() && to != Active
    requires CloseRentalSpec(s, ses, pk, true, to).1 == Success
    ensures var s' := CloseRentalSpec(s, ses, pk, true, to).0;
      var car := s.rentals.rows[pk].car;
      && s'.rentals.rows[pk].status == to
      && (!OtherActiveRental(s.rentals.rows, Some(pk), car) ==> s'.cars.rows[car].status == Available)
      && (OtherActiveRental(s.rentals.rows, Some(pk), car) ==> s'.cars == s.cars)
  {
  }

  /** Saving a rental with a new status keeps the database valid. */
  lemma SaveWithStatusKeepsValid(s: State, pk: Id, st: RentalStatus)
    requires s.Valid() && pk in s.rentals.rows
    ensures s.rentals.rows[pk].car in s.cars.rows
    ensures SaveWithStatus(s, pk, st).Valid()
  {
    SaveRentalKeepsValid(s, Some(pk), s.rentals.rows[pk].(status := st));
  }

  /** A free status change keeps the database valid. */
  lemma ChangeRentalStatusKeepsValid(s: State, ses: SessionData, pk: Id, post: bool, raw: Option<string>)
    requires s.Valid() && s.Linked()
    ensures ChangeRentalStatusSpec(s, ses, pk, post, raw).0.Valid()
  {
    if pk in s.rentals.rows && ParseRentalStatus(raw).Some? {
      SaveWithStatusKeepsValid(s, pk, ParseRentalStatus(raw).value);
    }
  }

  /** Finalising or cancelling keeps the database valid. */
  lemma CloseRentalKeepsValid(s: State, ses: SessionData, pk: Id, post: bool, to: RentalStatus)
    requires s.Valid() && s.Linked()
    ensures CloseRentalSpec(s, ses, pk, post, to).0.Valid()
  {
    if pk in s.rentals.rows {
      SaveWithStatusKeepsValid(s, pk, to);
    }
  }

  /** `aluguel_detail`: who may see rental `pk`. Staff users see every rental; any
      other logged-in user only a rental of their own profile. Nothing is written. */
  ghost function RentalDetailSpec(s: State, ses: SessionData, pk: Id): (reply: Reply)
    ensures reply == Page <==>
      && ClientRequired(ses) == Admit && pk in s.rentals.rows && ses.userId.value in s.users.rows
      && (s.users.rows[ses.userId.value].isStaff || s.ProfileOf(ses.userId.value) == Some(s.rentals.rows[pk].profile))
    ensures ClientRequired(ses) == Admit && pk in s.rentals.rows && ses.userId.value in s.users.rows && reply != Page ==>
      reply == Error
  {
    var gate := ClientRequired(ses);
    if gate.Deny? then gate.reply
    else if pk !in s.rentals.rows then NotFound
    else if ses.userId.value !in s.users.rows then NotFound
    else if s.users.rows[ses.userId.value].isStaff then Page
    else
      match s.ProfileOf(ses.userId.value)
      case None => Error
      case Some(p) => if s.rentals.rows[pk].profile != p then Error else Page
  }

  /** With one profile per user, a client is shown a rental exactly when the
      rental's profile belongs to them. */
  lemma ClientSeesOnlyOwnRentals(s: State, ses: SessionData, pk: Id)
    requires s.Valid() && ses.LoggedIn() && pk in s.rentals.rows
    requires ses.userId.value in s.users.rows && !s.users.rows[ses.userId.value].isStaff
    ensures RentalDetailSpec(s, ses, pk) == Page <==>
      s.profiles.rows[s.rentals.rows[pk].profile].user == ses.userId.value
  {
    var p := s.rentals.rows[pk].profile;
    if s.profiles.rows[p].user == ses.userId.value {
      ProfileOfUnique(s, ses.userId.value, p);
    }
  }

  /** `confirmar_pagamento`: a staff user's POST marks the payment paid at `now`,
      whatever its status was. */
  function ConfirmPaymentSpec(s: State, ses: SessionData, now: int, pk: Id, post: bool): (res: (State, Reply))
    ensures res.1 != Success ==> res.0 == s
    ensures res.1 == Success <==> StaffRequired(ses) == Admit && pk in s.payments.rows && post
    ensures res.1 == Success ==>
      res.0 == s.(payments := s.payments.Update(pk, s.payments.rows[pk].(status := Paid, paidAt := Some(now))))
  {
    var gate := StaffRequired(ses);
    if gate.Deny? then (s, gate.reply)
    else if pk !in s.payments.rows then (s, NotFound)
    else if !post then (s, Page)
    else (s.(payments := s.payments.Update(pk, s.payments.rows[pk].(status := Paid, paidAt := Some(now)))), Success)
  }

  method ConfirmPayment(db: Db, ses: SessionData, now: int, pk: Id, post: bool) returns (reply: Reply)
    modifies db
    ensures (db.Snapshot(), reply) == ConfirmPaymentSpec(old(db.Snapshot()), ses, now, pk, post)
  {
    var gate := StaffRequired(ses);
    if gate.Deny? {
      return gate.reply;
    }
    if pk !in db.payments.rows {
      return NotFound;
    }
    if !post {
      return Page;
    }
    var p := db.payments.rows[pk];
    db.payments := db.payments.Update(pk, p.(status := Paid, paidAt := Some(now)));
    return Success;
  }

  /** Confirming a payment keeps the database valid. */
  lemma ConfirmPaymentKeepsValid(s: State, ses: SessionData, now: int, pk: Id, post: bool)
    requires s.Valid()
    ensures ConfirmPaymentSpec(s, ses, now, pk, post).0.Valid()
  {
    if pk in s.payments.rows {
      UpdatePaymentKeepsValid(s, pk, s.payments.rows[pk].(status := Paid, paidAt := Some(now)));
    }
  }

  /** A confirmed payment no longer counts as pending for the request that
      created its rental. */
  lemma ConfirmedPaymentNotPending(s: State, ses: SessionData, now: int, pk: Id, q: RentalRequest)
    requires s.Valid() && StaffRequired(ses) == Admit && pk in s.payments.rows
    requires q.createdRental == Some(s.payments.rows[pk].rental)
    ensures var s' := ConfirmPaymentSpec(s, ses, now, pk, true).0;
      PaymentsOk(s'.payments.rows, s'.rentals.rows.Keys) && !HasPendingPayment(s', q)
  {
    ConfirmPaymentKeepsValid(s, ses, now, pk, true);
  }
}
