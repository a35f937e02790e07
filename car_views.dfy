/** The car views: the filtered car list with its counts per status, and the
    staff view that sets a car's status. */
module CarViews {
  import opened Common
  import opened Schema
  import opened Store
  import opened Text
  import opened Sessions
  import opened Decorators

  /** The cars `carro_list` shows for the GET parameters `q` and `status`: those
      whose model or plate contains the query, ignoring case, and whose status is
      the one asked for. */
  function CarListed(cars: map<Id, Car>, query: Option<string>, status: Option<string>): (ks: set<Id>)
    ensures ks <= cars.Keys
    ensures forall k | k in cars :: Given(status) && cars[k].status.Name() != status.value ==> k !in ks
    ensures forall k | k in cars && (Given(status) ==> cars[k].status.Name() == status.value) ::
      k in ks <==> (Given(query) ==> ContainsIgnoringCase(cars[k].model, query.value) || ContainsIgnoringCase(cars[k].plate, query.value))
  {
    set k | k in cars
      && (Given(query) ==> ContainsIgnoringCase(cars[k].model, query.value) || ContainsIgnoringCase(cars[k].plate, query.value))
      && (Given(status) ==> cars[k].status.Name() == status.value)
  }

  /** The status filter only takes cars away from what the query alone lists. */
  lemma StatusFilterOnlyNarrows(cars: map<Id, Car>, query: Option<string>, status: Option<string>)
    ensures CarListed(cars, query, status) <= CarListed(cars, query, None)
    ensures forall k | k in CarListed(cars, query, status) :: Given(status) ==> cars[k].status.Name() == status.value
  {
  }

  /** With neither parameter every car is listed. */
  lemma NoFilterListsEveryCar(cars: map<Id, Car>)
    ensures CarListed(cars, None, None) == cars.Keys
  {
  }

  /** The keys of the cars with status `st`. */
  function CarsWithStatus(cars: map<Id, Car>, st: CarStatus): (ks: set<Id>)
    ensures forall k :: k in ks <==> k in cars && cars[k].status == st
  {
    set k | k in cars && cars[k].status == st
  }

  /** `total_carros` and the three counts shown above the list. */
  datatype CarCounts = CarCounts(total: nat, available: nat, rented: nat, maintenance: nat)

  function CarListCounts(cars: map<Id, Car>): (c: CarCounts)
    ensures c.total == |cars|
    ensures c.available == |CarsWithStatus(cars, Available)|
    ensures c.rented == |CarsWithStatus(cars, Rented)|
    ensures c.maintenance == |CarsWithStatus(cars, InMaintenance)|
  {
    CarCounts(|cars|, |CarsWithStatus(cars, Available)|, |CarsWithStatus(cars, Rented)|, |CarsWithStatus(cars, InMaintenance)|)
  }

  /** Every car has one of the three statuses, so the counts add up to the total. */
  lemma CarCountsAddUp(cars: map<Id, Car>)
    ensures var c := CarListCounts(cars); c.total == c.available + c.rented + c.maintenance
  {
    var a, r, m := CarsWithStatus(cars, Available), CarsWithStatus(cars, Rented), CarsWithStatus(cars, InMaintenance);
    assert cars.Keys == a + r + m;
    assert a * r == {} && (a + r) * m == {};
    assert |cars.Keys| == |cars|;
  }

  /** `carro_list` as a whole: any logged-in user sees the list and the counts. */
  datatype CarListAnswer = CarListDenied(reply: Reply) | CarListing(rows: set<Id>, counts: CarCounts)

  function CarListSpec(s: State, ses: SessionData, query: Option<string>, status: Option<string>): (a: CarListAnswer)
    ensures a.CarListDenied? <==> !ses.LoggedIn()
    ensures a.CarListing? ==> a.rows == CarListed(s.cars.rows, query, status) && a.counts == CarListCounts(s.cars.rows)
  {
    var gate := ClientRequired(ses);
    if gate.Deny? then CarListDenied(gate.reply)
    else CarListing(CarListed(s.cars.rows, query, status), CarListCounts(s.cars.rows))
  }

  /** The car status named by the `status` field of the POST, if it is one of the three. */
  function ParseCarStatus(raw: Option<string>): (st: Option<CarStatus>)
    ensures st.Some? <==> raw.Some? && raw.value in {Available.Name(), Rented.Name(), InMaintenance.Name()}
    ensures st.Some? ==> st.value.Name() == raw.value
  {
    if raw == Some(Available.Name()) then Some(Available)
    else if raw == Some(Rented.Name()) then Some(Rented)
    else if raw == Some(InMaintenance.Name()) then Some(InMaintenance)
    else None
  }

  /** `carro_change_status`: a staff user's POST of one of the three statuses sets
      the car's status; any other value, or a GET, changes nothing. */
  function ChangeCarStatusSpec(s: State, ses: SessionData, pk: Id, post: bool, raw: Option<string>): (res: (State, Reply))
    ensures res.1 != Success ==> res.0 == s
    ensures res.1 == Success <==>
      && StaffRequired(ses) == Admit && pk in s.cars.rows && post
      && raw.Some? && raw.value in {Available.Name(), Rented.Name(), InMaintenance.Name()}
    ensures res.1 == Success ==>
      res.0 == s.(cars := s.cars.Update(pk, s.cars.rows[pk].(status := ParseCarStatus(raw).value)))
  {
    var gate := StaffRequired(ses);
    if gate.Deny? then (s, gate.reply)
    else if pk !in s.cars.rows then (s, NotFound)
    else if !post then (s, Redirect)
    else
      match ParseCarStatus(raw)
      case None => (s, Redirect)
      case Some(st) => (s.(cars := s.cars.Update(pk, s.cars.rows[pk].(status := st))), Success)
  }

  method ChangeCarStatus(db: Db, ses: SessionData, pk: Id, post: bool, raw: Option<string>) returns (reply: Reply)
    modifies db
    ensures (db.Snapshot(), reply) == ChangeCarStatusSpec(old(db.Snapshot()), ses, pk, post, raw)
  {
    var gate := StaffRequired(ses);
    if gate.Deny? {
      return gate.reply;
    }
    if pk !in db.cars.rows {
      return NotFound;
    }
    if !post {
      return Redirect;
    }
    var st := ParseCarStatus(raw);
    if st.None? {
      return Redirect;
    }
    var car := db.cars.rows[pk];
    db.cars := db.cars.Update(pk, car.(status := st.value));
    return Success;
  }

  /** The status change does not look at the rentals: with any other rental table
      it answers and writes the same, so a car with an active rental can be marked
      available. */
  lemma ChangeCarStatusIgnoresRentals(s: State, ses: SessionData, pk: Id, post: bool, raw: Option<string>, rentals: Table<Rental>)
    ensures var (s', reply) := ChangeCarStatusSpec(s, ses, pk, post, raw);
      ChangeCarStatusSpec(s.(rentals := rentals), ses, pk, post, raw) == (s'.(rentals := rentals), reply)
  {
  }

  /** Changing a car's status keeps the database valid. */
  lemma ChangeCarStatusKeepsValid(s: State, ses: SessionData, pk: Id, post: bool, raw: Option<string>)
    requires s.Valid()
    ensures ChangeCarStatusSpec(s, ses, pk, post, raw).0.Valid()
  {
    if pk in s.cars.rows && ParseCarStatus(raw).Some? {
      CarStatusKeepsValid(s, pk, ParseCarStatus(raw).value);
    }
  }
}
