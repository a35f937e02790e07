/** The rental-request views of the rental app: a client submits and cancels
    requests, a staff user approves or rejects them. Each view is a function
    from the database, the session and the HTTP request to the new database and
    the answer, and a method that makes the same writes on the `Db` object.
    `post` says the HTTP method is POST; `now` is `timezone.now()`. */
module RequestViews {
  import opened Common
  import opened Schema
  import opened Store
  import opened Sessions
  import opened Decorators
  import opened RentalModels
  import opened RentalForms

  /** The PIX key and QR code an approval writes on the new payment. */
  const PixKey: string := "louercar@pix.com"
  const PixQrCode: string := "00020126580014BR.GOV.BCB.PIX..."

  /** The days a client has to pay an approved rental. */
  const DaysToPay: int := 3

  /** The payment `aprovar_solicitacao` creates for rental `a`. */
  function ApprovalPayment(a: Id, amount: int, now: int): (p: Payment)
    ensures p.rental == a && p.amount == amount && p.due == now + DaysToPay * SecondsPerDay
    ensures p.payMethod == Pix && p.status == Unpaid && p.paidAt == None
    ensures p.pixKey == Some(PixKey) && p.pixQrCode == Some(PixQrCode)
  {
    NewPayment(a, amount, now + DaysToPay * SecondsPerDay).(pixKey := Some(PixKey), pixQrCode := Some(PixQrCode))
  }

  /** The URL's `carro_id` names a car (Python tests its truth, so 0 names none). */
  predicate CarGiven(carId: Option<Id>) {
    carId.Some? && carId.value != 0
  }

  /** `solicitar_aluguel`: a logged-in user with a profile submits a valid form,
      and one pending request is added for that profile, priced at the car's
      daily price times `calcular_dias`. */
  ghost function SubmitRequestSpec(s: State, ses: SessionData, now: int, carId: Option<Id>, post: bool, f: RequestInput): (res: (State, Reply))
    ensures res.1 != Success ==> res.0 == s
    ensures res.1 == Success <==>
      && ClientRequired(ses) == Admit && ses.userId.value in s.users.rows && s.ProfileOf(ses.userId.value).Some?
      && !(CarGiven(carId) && (carId.value !in s.cars.rows || s.cars.rows[carId.value].status != Available))
      && post && RequestFormValid(s.cars.rows, now, f)
    ensures ClientRequired(ses) == Admit && ses.userId.value in s.users.rows && s.ProfileOf(ses.userId.value).Some? && CarGiven(carId) ==>
      (carId.value !in s.cars.rows ==> res == (s, NotFound))
      && (carId.value in s.cars.rows && s.cars.rows[carId.value].status != Available ==> res == (s, Error))
    ensures ClientRequired(ses) == Admit && ses.userId.value in s.users.rows && s.ProfileOf(ses.userId.value).None? ==>
      res == (s, Warning)
    ensures res.1 == Success ==> s.requests.next in res.0.requests.rows
    ensures res.1 == Success ==>
      var q := res.0.requests.rows[s.requests.next];
      && res.0 == s.(requests := s.requests.Insert(q))
      && s.ProfileOf(ses.userId.value) == Some(q.profile)
      && Some(q.car) == f.car && Some(q.start) == f.start && Some(q.end) == f.end && q.notes == f.notes
      && q.estimate == s.cars.rows[q.car].dailyPrice * RequestDays(f.start, f.end)
      && q.status == Pending && q.createdRental == None
  {
    var gate := ClientRequired(ses);
    if gate.Deny? then (s, gate.reply)
    else if ses.userId.value !in s.users.rows then (s, NotFound)
    else
      match s.ProfileOf(ses.userId.value)
      case None => (s, Warning)
      case Some(p) =>
        if CarGiven(carId) && carId.value !in s.cars.rows then (s, NotFound)
        else if CarGiven(carId) && s.cars.rows[carId.value].status != Available then (s, Error)
        else if !post then (s, Page)
        else if !RequestFormValid(s.cars.rows, now, f) then (s, FormErrors)
        else
          var q := RentalRequest(
            p, f.car.value, f.start.value, f.end.value,
            s.cars.rows[f.car.value].dailyPrice * RequestDays(f.start, f.end), Pending, f.notes, None);
          (s.(requests := s.requests.Insert(q)), Success)
  }

  method SubmitRequest(db: Db, ses: SessionData, now: int, carId: Option<Id>, post: bool, f: RequestInput) returns (reply: Reply)
    modifies db
    ensures (db.Snapshot(), reply) == SubmitRequestSpec(old(db.Snapshot()), ses, now, carId, post, f)
  {
    var gate := ClientRequired(ses);
    if gate.Deny? {
      return gate.reply;
    }
    var u := ses.userId.value;
    if u !in db.users.rows {
      return NotFound;
    }
    var p := db.FindProfile(u);
    if p.None? {
      return Warning;
    }
    if CarGiven(carId) {
      if carId.value !in db.cars.rows {
        return NotFound;
      }
      if db.cars.rows[carId.value].status != Available {
        return Error;
      }
    }
    if !post {
      return Page;
    }
    if !RequestFormValid(db.cars.rows, now, f) {
      return FormErrors;
    }
    var days := RequestDays(f.start, f.end);
    var q := RentalRequest(
      p.value, f.car.value, f.start.value, f.end.value,
      db.cars.rows[f.car.value].dailyPrice * days, Pending, f.notes, None);
    db.requests := db.requests.Insert(q);
    return Success;
  }

  /** Submitting a request keeps the database valid, and the new request gets a
      key no request had. */
  lemma SubmitRequestKeepsValid(s: State, ses: SessionData, now: int, carId: Option<Id>, post: bool, f: RequestInput)
    requires s.Valid()
    ensures var (s', reply) := SubmitRequestSpec(s, ses, now, carId, post, f);
      && s'.Valid()
      && (reply == Success ==>
            s.requests.next !in s.requests.rows && s'.requests.rows.Keys == s.requests.rows.Keys + {s.requests.next})
  {
    var (s', reply) := SubmitRequestSpec(s, ses, now, carId, post, f);
    if reply == Success {
      var q := s'.requests.rows[s.requests.next];
      assert q.profile in s.profiles.rows;
      InsertRequestKeepsValid(s, q);
    }
  }

  /** `cancelar_solicitacao`: a client cancels one of their own pending requests. */
  ghost function CancelRequestSpec(s: State, ses: SessionData, pk: Id, post: bool): (res: (State, Reply))
    ensures res.1 != Success ==> res.0 == s
    ensures res.1 == Success <==>
      && ClientRequired(ses) == Admit && ses.userId.value in s.users.rows
      && s.ProfileOf(ses.userId.value).Some? && pk in s.requests.rows
      && s.requests.rows[pk].profile == s.ProfileOf(ses.userId.value).value
      && s.requests.rows[pk].status == Pending && post
    ensures res.1 == Success ==>
      res.0 == s.(requests := s.requests.Update(pk, s.requests.rows[pk].(status := CancelledByClient)))
    ensures
      (&& ClientRequired(ses) == Admit && ses.userId.value in s.users.rows
       && s.ProfileOf(ses.userId.value).Some? && pk in s.requests.rows
       && s.requests.rows[pk].profile != s.ProfileOf(ses.userId.value).value)
      ==> res == (s, NotFound)
  {
    var gate := ClientRequired(ses);
    if gate.Deny? then (s, gate.reply)
    else if ses.userId.value !in s.users.rows then (s, NotFound)
    else
      match s.ProfileOf(ses.userId.value)
      case None => (s, Error)
      case Some(p) =>
        if pk !in s.requests.rows || s.requests.rows[pk].profile != p then (s, NotFound)
        else if s.requests.rows[pk].status != Pending then (s, Error)
        else if !post then (s, Page)
        else (s.(requests := s.requests.Update(pk, s.requests.rows[pk].(status := CancelledByClient))), Success)
  }

  method CancelRequest(db: Db, ses: SessionData, pk: Id, post: bool) returns (reply: Reply)
    modifies db
    ensures (db.Snapshot(), reply) == CancelRequestSpec(old(db.Snapshot()), ses, pk, post)
  {
    var gate := ClientRequired(ses);
    if gate.Deny? {
      return gate.reply;
    }
    var u := ses.userId.value;
    if u !in db.users.rows {
      return NotFound;
    }
    var p := db.FindProfile(u);
    if p.None? {
      return Error;
    }
    if pk !in db.requests.rows || db.requests.rows[pk].profile != p.value {
      return NotFound;
    }
    var q := db.requests.rows[pk];
    if q.status != Pending {
      return Error;
    }
    if !post {
      return Page;
    }
    db.requests := db.requests.Update(pk, q.(status := CancelledByClient));
    return Success;
  }

  /** `rejeitar_solicitacao`: a staff user rejects a pending request. */
  function RejectRequestSpec(s: State, ses: SessionData, pk: Id, post: bool): (res: (State, Reply))
    ensures res.1 != Success ==> res.0 == s
    ensures res.1 == Success <==>
      StaffRequired(ses) == Admit && pk in s.requests.rows && s.requests.rows[pk].status == Pending && post
    ensures res.1 == Success ==>
      res.0 == s.(requests := s.requests.Update(pk, s.requests.rows[pk].(status := Rejected)))
    ensures StaffRequired(ses) == Admit && pk in s.requests.rows && s.requests.rows[pk].status != Pending ==>
      res == (s, Error)
  {
    var gate := StaffRequired(ses);
    if gate.Deny? then (s, gate.reply)
    else if pk !in s.requests.rows then (s, NotFound)
    else if s.requests.rows[pk].status != Pending then (s, Error)
    else if !post then (s, Page)
    else (s.(requests := s.requests.Update(pk, s.requests.rows[pk].(status := Rejected))), Success)
  }

  method RejectRequest(db: Db, ses: SessionData, pk: Id, post: bool) returns (reply: Reply)
    modifies db
    ensures (db.Snapshot(), reply) == RejectRequestSpec(old(db.Snapshot()), ses, pk, post)
  {
    var gate := StaffRequired(ses);
    if gate.Deny? {
      return gate.reply;
    }
    if pk !in db.requests.rows {
      return NotFound;
    }
    var q := db.requests.rows[pk];
    if q.status != Pending {
      return Error;
    }
    if !post {
      return Page;
    }
    db.requests := db.requests.Update(pk, q.(status := Rejected));
    return Success;
  }

  /** A status change of a request keeps the database valid. */
  lemma RequestStatusKeepsValid(s: State, pk: Id, st: RequestStatus)
    requires s.Valid() && pk in s.requests.rows
    ensures s.(requests := s.requests.Update(pk, s.requests.rows[pk].(status := st))).Valid()
  {
    var q := s.requests.rows[pk];
    assert q.profile in s.profiles.rows && q.car in s.cars.rows;
    assert q.createdRental.Some? ==> q.createdRental.value in s.rentals.rows;
    UpdateRequestKeepsValid(s, pk, q.(status := st));
  }

  /** Cancelling and rejecting keep the database valid. */
  lemma CancelRejectKeepValid(s: State, ses: SessionData, pk: Id, post: bool)
    requires s.Valid()
    ensures CancelRequestSpec(s, ses, pk, post).0.Valid()
    ensures RejectRequestSpec(s, ses, pk, post).0.Valid()
  {
    if pk in s.requests.rows {
      RequestStatusKeepsValid(s, pk, CancelledByClient);
      RequestStatusKeepsValid(s, pk, Rejected);
    }
  }

  /** `aprovar_solicitacao` (the definition at line 842): a staff user approves a
      pending request; an active rental copying the request is created (through
      `Aluguel.save`, so its car becomes rented), the request becomes approved
      and points to it, and an unpaid payment of the estimate, due in three days,
      is created for it. The notification email is not modelled: its failure is
      swallowed and changes nothing. */
  function ApproveRequestSpec(s: State, ses: SessionData, now: int, pk: Id, post: bool): (res: (State, Reply))
    requires s.Linked()
    ensures res.1 != Success ==> res.0 == s
    ensures res.1 == Success <==>
      && StaffRequired(ses) == Admit && pk in s.requests.rows && s.requests.rows[pk].status == Pending
      && post && ses.userId.value in s.users.rows
    ensures StaffRequired(ses) == Admit && pk in s.requests.rows && s.requests.rows[pk].status != Pending ==>
      res == (s, Error)
    ensures res.1 == Success ==>
      var q := s.requests.rows[pk];
      var a := s.rentals.next;
      && res.0.rentals.rows == s.rentals.rows[a := Rental(q.profile, q.car, ses.userId.value, q.start, q.end, q.estimate, Active)]
      && res.0.requests.rows == s.requests.rows[pk := q.(status := Approved, createdRental := Some(a))]
      && res.0.payments.rows == s.payments.rows[s.payments.next := ApprovalPayment(a, q.estimate, now)]
      && q.car in s.cars.rows && res.0.cars.next == s.cars.next
      && res.0.cars.rows == s.cars.rows[q.car := s.cars.rows[q.car].(status := Rented)]
      && res.0 == s.(cars := res.0.cars, rentals := res.0.rentals, requests := res.0.requests, payments := res.0.payments)
  {
    var gate := StaffRequired(ses);
    if gate.Deny? then (s, gate.reply)
    else if pk !in s.requests.rows then (s, NotFound)
    else
      var q := s.requests.rows[pk];
      if q.status != Pending then (s, Error)
      else if !post then (s, Page)
      else if ses.userId.value !in s.users.rows then (s, NotFound)
      else
        (ApprovalWrites(s, ses.userId.value, now, pk), Success)
  }

  method ApproveRequest(db: Db, ses: SessionData, now: int, pk: Id, post: bool) returns (reply: Reply)
    requires db.Snapshot().Linked()
    modifies db
    ensures (db.Snapshot(), reply) == ApproveRequestSpec(old(db.Snapshot()), ses, now, pk, post)
  {
    var gate := StaffRequired(ses);
    if gate.Deny? {
      return gate.reply;
    }
    if pk !in db.requests.rows {
      return NotFound;
    }
    var q := db.requests.rows[pk];
    if q.status != Pending {
      return Error;
    }
    if !post {
      return Page;
    }
    var staff := ses.userId.value;
    if staff !in db.users.rows {
      return NotFound;
    }
    var a := SaveRental(db, None, Rental(q.profile, q.car, staff, q.start, q.end, q.estimate, Active));
    db.requests := db.requests.Update(pk, q.(status := Approved, createdRental := Some(a)));
    db.payments := db.payments.Insert(ApprovalPayment(a, q.estimate, now));
    return Success;
  }

  /** The writes of an approval: the rental saved, the request updated, the payment inserted. */
  function ApprovalWrites(s: State, staff: Id, now: int, pk: Id): (s': State)
    requires pk in s.requests.rows && s.requests.rows[pk].car in s.cars.rows
    ensures s'.requests.rows.Keys == s.requests.rows.Keys
  {
    var q := s.requests.rows[pk];
    var (s1, a) := SaveRentalSpec(s, None, Rental(q.profile, q.car, staff, q.start, q.end, q.estimate, Active));
    var s2 := s1.(requests := s1.requests.Update(pk, q.(status := Approved, createdRental := Some(a))));
    s2.(payments := s2.payments.Insert(ApprovalPayment(a, q.estimate, now)))
  }

  /** Approval keeps the database valid, and adds exactly one rental and one
      payment, each under a key not in use before. */
  lemma ApproveRequestKeepsValid(s: State, ses: SessionData, now: int, pk: Id, post: bool)
    requires s.Valid() && s.Linked()
    ensures var (s', reply) := ApproveRequestSpec(s, ses, now, pk, post);
      && s'.Valid()
      && (reply == Success ==>
            && s.rentals.next !in s.rentals.rows && s'.rentals.rows.Keys == s.rentals.rows.Keys + {s.rentals.next}
            && s.payments.next !in s.payments.rows && s'.payments.rows.Keys == s.payments.rows.Keys + {s.payments.next})
  {
    var (s', reply) := ApproveRequestSpec(s, ses, now, pk, post);
    if reply == Success {
      ApprovalWritesKeepValid(s, ses.userId.value, now, pk);
    }
  }

  lemma ApprovalWritesKeepValid(s: State, staff: Id, now: int, pk: Id)
    requires s.Valid() && pk in s.requests.rows && staff in s.users.rows
    ensures s.requests.rows[pk].car in s.cars.rows
    ensures ApprovalWrites(s, staff, now, pk).Valid()
    ensures s.rentals.next !in s.rentals.rows
    ensures ApprovalWrites(s, staff, now, pk).rentals.rows.Keys == s.rentals.rows.Keys + {s.rentals.next}
    ensures s.payments.next !in s.payments.rows
    ensures ApprovalWrites(s, staff, now, pk).payments.rows.Keys == s.payments.rows.Keys + {s.payments.next}
  {
    var q := s.requests.rows[pk];
    var r := Rental(q.profile, q.car, staff, q.start, q.end, q.estimate, Active);
    assert RentalRefsExist(s, r);
    SaveRentalKeepsValid(s, None, r);
    var (s1, a) := SaveRentalSpec(s, None, r);
    var q' := q.(status := Approved, createdRental := Some(a));
    UpdateRequestKeepsValid(s1, pk, q');
    var s2 := s1.(requests := s1.requests.Update(pk, q'));
    assert s2.payments == s.payments;
    InsertPaymentKeepsValid(s2, ApprovalPayment(a, q.estimate, now));
    InsertFresh(s.payments, ApprovalPayment(a, q.estimate, now));
  }
}
