/** The database: one table per model, each a map from primary key to record
    together with the next key its AutoField hands out; the two join tables with
    a unique (user, x) pair are sets of pairs. `State` is its value, `Db` the
    object the views update in place. */
module Store {
  import opened Common
  import opened Schema

  /** A table with an AutoField primary key. */
  datatype Table<T> = Table(rows: map<Id, T>, next: Id) {
    /** Keys start at 1 and every key in use is below the next one handed out. */
    predicate KeysOk() {
      0 < next && forall k | k in rows :: 0 < k < next
    }

    /** The table after an INSERT of `x`, which gets the key `next`. */
    function Insert(x: T): (t: Table<T>)
      ensures t.rows == rows[next := x] && t.next == next + 1
    {
      Table(rows[next := x], next + 1)
    }

    /** The table after an UPDATE of row `k` to `x`. */
    function Update(k: Id, x: T): (t: Table<T>)
      ensures t.rows == rows[k := x] && t.next == next
    {
      Table(rows[k := x], next)
    }

    /** The table after a DELETE of row `k`. */
    function Delete(k: Id): (t: Table<T>)
      ensures t.rows == rows - {k} && t.next == next
    {
      Table(rows - {k}, next)
    }
  }

  /** An insert uses a key the table did not hold, and keeps the keys in order. */
  lemma InsertFresh<T>(t: Table<T>, x: T)
    requires t.KeysOk()
    ensures t.next !in t.rows && t.Insert(x).KeysOk()
    ensures t.Insert(x).rows.Keys == t.rows.Keys + {t.next}
  {
  }

  /** Updates and deletes keep the keys in order. */
  lemma UpdateDeleteKeepKeys<T>(t: Table<T>, k: Id, x: T)
    requires t.KeysOk()
    ensures k in t.rows ==> t.Update(k, x).KeysOk() && t.Update(k, x).rows.Keys == t.rows.Keys
    ensures t.Delete(k).KeysOk() && t.Delete(k).rows.Keys == t.rows.Keys - {k}
  {
  }

  /** A delete keeps the keys in order, and removes just the key deleted. */
  lemma DeleteKeepsKeys<T>(t: Table<T>, k: Id)
    requires t.KeysOk()
    ensures t.Delete(k).KeysOk() && t.Delete(k).rows.Keys == t.rows.Keys - {k}
  {
  }

  datatype State = State(
    cars: Table<Car>,
    users: Table<User>,
    profiles: Table<Profile>,
    tags: Table<Tag>,
    groups: Table<Group>,
    userTags: set<(Id, Id)>,       // UsuarioTag rows: (user, tag)
    memberships: set<(Id, Id)>,    // UsuarioGrupo rows: (user, group)
    requests: Table<RentalRequest>,
    rentals: Table<Rental>,
    payments: Table<Payment>)
  {
    /** Every table's keys are in order. */
    predicate KeysOk() {
      && cars.KeysOk() && users.KeysOk() && profiles.KeysOk() && tags.KeysOk()
      && groups.KeysOk() && requests.KeysOk() && rentals.KeysOk() && payments.KeysOk()
    }

    /** Foreign keys refer to existing rows, and the unique columns and one-to-one
        fields hold no duplicates. Each table's constraints are stated over the
        tables it refers to, so that an update of one table evidently leaves the
        constraints of the others intact. */
    predicate TablesOk() {
      && CarsOk(cars.rows) && UsersOk(users.rows) && ProfilesOk(profiles.rows, users.rows.Keys)
      && TagsOk(tags.rows) && GroupsOk(groups.rows, tags.rows.Keys)
      && PairsOk(userTags, users.rows.Keys, tags.rows.Keys)
      && PairsOk(memberships, users.rows.Keys, groups.rows.Keys)
      && RequestsOk(requests.rows, profiles.rows.Keys, cars.rows.Keys, rentals.rows.Keys)
      && RentalsOk(rentals.rows, profiles.rows.Keys, cars.rows.Keys, users.rows.Keys)
      && PaymentsOk(payments.rows, rentals.rows.Keys)
    }

    /** What the database guarantees about the rows it holds. */
    predicate Valid() {
      KeysOk() && TablesOk()
    }

    /** The references the views follow: the car of each request and of each rental. */
    predicate Linked() {
      && (forall k | k in requests.rows :: requests.rows[k].car in cars.rows)
      && (forall k | k in rentals.rows :: rentals.rows[k].car in cars.rows)
    }

    /** `PerfilCliente.objects.get(usuario=u)`: the profile of user `u`, if any. */
    ghost function ProfileOf(u: Id): (r: Option<Id>)
      ensures r.Some? ==> r.value in profiles.rows && profiles.rows[r.value].user == u
      ensures r.None? <==> forall p | p in profiles.rows :: profiles.rows[p].user != u
    {
      var keys := set p | p in profiles.rows && profiles.rows[p].user == u;
      assert forall p | p in profiles.rows && profiles.rows[p].user == u :: p in keys;
      First(keys)
    }

    /** `Tag.objects.get(nome=n)`: the tag named `n`, if any. */
    ghost function TagNamed(n: string): (r: Option<Id>)
      ensures r.Some? ==> r.value in tags.rows && tags.rows[r.value].name == n
      ensures r.None? <==> forall t | t in tags.rows :: tags.rows[t].name != n
    {
      var keys := set t | t in tags.rows && tags.rows[t].name == n;
      assert forall t | t in tags.rows && tags.rows[t].name == n :: t in keys;
      First(keys)
    }

    /** `Usuario.objects.get(username=n)`: the user called `n`, if any. */
    ghost function UserNamed(n: string): (r: Option<Id>)
      ensures r.Some? ==> r.value in users.rows && users.rows[r.value].username == n
      ensures r.None? <==> forall u | u in users.rows :: users.rows[u].username != n
    {
      var keys := set u | u in users.rows && users.rows[u].username == n;
      assert forall u | u in users.rows && users.rows[u].username == n :: u in keys;
      First(keys)
    }

    /** `aluguel.pagamento`: the payment of rental `a`, if any. */
    ghost function PaymentOf(a: Id): (r: Option<Id>)
      ensures r.Some? ==> r.value in payments.rows && payments.rows[r.value].rental == a
      ensures r.None? <==> forall p | p in payments.rows :: payments.rows[p].rental != a
    {
      var keys := set p | p in payments.rows && payments.rows[p].rental == a;
      assert forall p | p in payments.rows && payments.rows[p].rental == a :: p in keys;
      First(keys)
    }

    /** `usuario.get_tags()`: the tags user `u` holds through UsuarioTag rows. */
    function TagsOf(u: Id): (r: set<Id>)
      ensures forall t :: t in r <==> (u, t) in userTags
    {
      set p | p in userTags && p.0 == u :: p.1
    }

    /** The groups user `u` is a member of, through UsuarioGrupo rows. */
    function GroupsJoined(u: Id): (r: set<Id>)
      ensures forall g :: g in r <==> (u, g) in memberships
    {
      set p | p in memberships && p.0 == u :: p.1
    }
  }

  /** Carro.placa is unique. */
  predicate CarsOk(cars: map<Id, Car>) {
    forall a, b | a in cars && b in cars && cars[a].plate == cars[b].plate :: a == b
  }

  /** Usuario.username and Usuario.email are unique. */
  predicate UsersOk(users: map<Id, User>) {
    && (forall a, b | a in users && b in users && users[a].username == users[b].username :: a == b)
    && (forall a, b | a in users && b in users && users[a].email == users[b].email :: a == b)
  }

  /** PerfilCliente: its user exists, one profile per user, and the CNH is unique. */
  predicate ProfilesOk(profiles: map<Id, Profile>, users: set<Id>) {
    && (forall k | k in profiles :: profiles[k].user in users)
    && (forall a, b | a in profiles && b in profiles && profiles[a].user == profiles[b].user :: a == b)
    && (forall a, b | a in profiles && b in profiles && profiles[a].cnh == profiles[b].cnh :: a == b)
  }

  /** Tag.nome is unique. */
  predicate TagsOk(tags: map<Id, Tag>) {
    forall a, b | a in tags && b in tags && tags[a].name == tags[b].name :: a == b
  }

  /** Grupo.tag, when set, is an existing tag. */
  predicate GroupsOk(groups: map<Id, Group>, tags: set<Id>) {
    forall k | k in groups :: groups[k].tag.Some? ==> groups[k].tag.value in tags
  }

  /** A join table's rows refer to existing rows on both sides. */
  predicate PairsOk(pairs: set<(Id, Id)>, left: set<Id>, right: set<Id>) {
    forall p | p in pairs :: p.0 in left && p.1 in right
  }

  /** SolicitacaoAluguel: profile and car exist, and the created rental, when set,
      exists and belongs to this request alone. */
  predicate RequestsOk(requests: map<Id, RentalRequest>, profiles: set<Id>, cars: set<Id>, rentals: set<Id>) {
    && (forall k | k in requests :: requests[k].profile in profiles && requests[k].car in cars)
    && (forall k | k in requests :: requests[k].createdRental.Some? ==> requests[k].createdRental.value in rentals)
    && (forall a, b | a in requests && b in requests && requests[a].createdRental.Some?
          && requests[a].createdRental == requests[b].createdRental :: a == b)
  }

  /** Aluguel: its profile, car and staff user exist. */
  predicate RentalsOk(rentals: map<Id, Rental>, profiles: set<Id>, cars: set<Id>, users: set<Id>) {
    forall k | k in rentals :: rentals[k].profile in profiles && rentals[k].car in cars && rentals[k].staff in users
  }

  /** Pagamento: its rental exists and has no other payment. */
  predicate PaymentsOk(payments: map<Id, Payment>, rentals: set<Id>) {
    && (forall k | k in payments :: payments[k].rental in rentals)
    && (forall a, b | a in payments && b in payments && payments[a].rental == payments[b].rental :: a == b)
  }

  /** The least key of a set, which is what a lookup on a unique column finds
      (the only match, when the column holds no duplicates). */
  ghost function First(keys: set<Id>): (r: Option<Id>)
    ensures r.None? <==> keys == {}
    ensures r.Some? ==> r.value in keys && forall k | k in keys :: r.value <= k
  {
    if keys == {} then None
    else
      LeastExists(keys);
      var m :| m in keys && forall k | k in keys :: m <= k; Some(m)
  }

  /** Finds the least key of a set. */
  method FirstKey(keys: set<Id>) returns (r: Option<Id>)
    ensures r == First(keys)
  {
    if keys == {} {
      return None;
    }
    LeastExists(keys);
    var m :| m in keys && forall k | k in keys :: m <= k;
    return Some(m);
  }

  /** A non-empty set of keys has a least element. */
  lemma LeastExists(keys: set<Id>)
    requires keys != {}
    ensures exists m :: m in keys && forall k | k in keys :: m <= k
  {
    var x :| x in keys;
    LeastBelow(keys, x);
  }

  /** Some key of `keys` no greater than `x` is least: found by descending from `x`. */
  lemma {:induction false} LeastBelow(keys: set<Id>, x: Id)
    requires x in keys
    ensures exists m :: m in keys && forall k | k in keys :: m <= k
    decreases x
  {
    if y :| y in keys && y < x {
      LeastBelow(keys, y);
    } else {
      assert forall k | k in keys :: x <= k;
    }
  }

  /** With the usernames unique, the user called `n` is the one that has that name. */
  lemma UserNamedUnique(s: State, n: string, u: Id)
    requires UsersOk(s.users.rows) && u in s.users.rows && s.users.rows[u].username == n
    ensures s.UserNamed(n) == Some(u)
  {
  }

  /** With one profile per user, the profile of `u` is the one that belongs to `u`. */
  lemma ProfileOfUnique(s: State, u: Id, p: Id)
    requires ProfilesOk(s.profiles.rows, s.users.rows.Keys)
    requires p in s.profiles.rows && s.profiles.rows[p].user == u
    ensures s.ProfileOf(u) == Some(p)
  {
  }

  /** With the tag names unique, the tag named `n` is the one that has that name. */
  lemma TagNamedUnique(s: State, n: string, t: Id)
    requires TagsOk(s.tags.rows) && t in s.tags.rows && s.tags.rows[t].name == n
    ensures s.TagNamed(n) == Some(t)
  {
  }

  /** With one payment per rental, the payment of `a` is the one that refers to `a`. */
  lemma PaymentOfUnique(s: State, a: Id, p: Id)
    requires PaymentsOk(s.payments.rows, s.rentals.rows.Keys)
    requires p in s.payments.rows && s.payments.rows[p].rental == a
    ensures s.PaymentOf(a) == Some(p)
  {
  }

  /** The empty table. */
  function EmptyTable<T>(): (t: Table<T>)
    ensures t.KeysOk() && t.rows == map[]
  {
    Table(map[], 1)
  }

  /** The empty database. */
  function Empty(): (s: State)
    ensures s.Valid()
    ensures s.cars.rows == map[] && s.users.rows == map[] && s.tags.rows == map[]
  {
    State(EmptyTable(), EmptyTable(), EmptyTable(), EmptyTable(), EmptyTable(), {}, {},
          EmptyTable(), EmptyTable(), EmptyTable())
  }

  /** The database as an object whose tables the views update in place. */
  class Db {
    var cars: Table<Car>
    var users: Table<User>
    var profiles: Table<Profile>
    var tags: Table<Tag>
    var groups: Table<Group>
    var userTags: set<(Id, Id)>
    var memberships: set<(Id, Id)>
    var requests: Table<RentalRequest>
    var rentals: Table<Rental>
    var payments: Table<Payment>

    /** The tables as one value. */
    function Snapshot(): State
      reads this
    {
      State(cars, users, profiles, tags, groups, userTags, memberships, requests, rentals, payments)
    }

    /** `PerfilCliente.objects.get(usuario=u)`, run on the tables. */
    method FindProfile(u: Id) returns (r: Option<Id>)
      ensures r == Snapshot().ProfileOf(u)
    {
      r := FirstKey(set p | p in profiles.rows && profiles.rows[p].user == u);
    }

    /** `Tag.objects.get(nome=n)`, run on the tables. */
    method FindTag(n: string) returns (r: Option<Id>)
      ensures r == Snapshot().TagNamed(n)
    {
      r := FirstKey(set t | t in tags.rows && tags.rows[t].name == n);
    }

    /** `Usuario.objects.get(username=n)`, run on the tables. */
    method FindUser(n: string) returns (r: Option<Id>)
      ensures r == Snapshot().UserNamed(n)
    {
      r := FirstKey(set u | u in users.rows && users.rows[u].username == n);
    }

    constructor ()
      ensures Snapshot() == Empty()
    {
      cars, users, profiles, tags, groups := EmptyTable(), EmptyTable(), EmptyTable(), EmptyTable(), EmptyTable();
      userTags, memberships := {}, {};
      requests, rentals, payments := EmptyTable(), EmptyTable(), EmptyTable();
    }
  }

  /** Changing a car's status keeps the database valid. */
  lemma CarStatusKeepsValid(s: State, c: Id, st: CarStatus)
    requires s.Valid() && c in s.cars.rows
    ensures s.(cars := s.cars.Update(c, s.cars.rows[c].(status := st))).Valid()
  {
    var car := s.cars.rows[c].(status := st);
    UpdateDeleteKeepKeys(s.cars, c, car);
    var cars' := s.cars.Update(c, car).rows;
    assert CarsOk(cars') by {
      forall a, b | a in cars' && b in cars' && cars'[a].plate == cars'[b].plate ensures a == b {
        assert s.cars.rows[a].plate == s.cars.rows[b].plate;
      }
    }
  }

  /** Inserting a rental whose references exist keeps the database valid. */
  lemma InsertRentalKeepsValid(s: State, r: Rental)
    requires s.Valid() && r.profile in s.profiles.rows && r.car in s.cars.rows && r.staff in s.users.rows
    ensures s.(rentals := s.rentals.Insert(r)).Valid()
  {
    InsertFresh(s.rentals, r);
    RequestsGrowRentals(s.requests.rows, s.profiles.rows.Keys, s.cars.rows.Keys, s.rentals.rows.Keys, {s.rentals.next});
    PaymentsGrowRentals(s.payments.rows, s.rentals.rows.Keys, {s.rentals.next});
  }

  /** Replacing a rental by one whose references exist keeps the database valid. */
  lemma UpdateRentalKeepsValid(s: State, k: Id, r: Rental)
    requires s.Valid() && k in s.rentals.rows
    requires r.profile in s.profiles.rows && r.car in s.cars.rows && r.staff in s.users.rows
    ensures s.(rentals := s.rentals.Update(k, r)).Valid()
  {
    UpdateDeleteKeepKeys(s.rentals, k, r);
  }

  /** Inserting a request whose profile and car exist, and which has no created
      rental yet, keeps the database valid. */
  lemma InsertRequestKeepsValid(s: State, q: RentalRequest)
    requires s.Valid() && q.profile in s.profiles.rows && q.car in s.cars.rows && q.createdRental.None?
    ensures s.(requests := s.requests.Insert(q)).Valid()
    ensures s.requests.next !in s.requests.rows
  {
    InsertFresh(s.requests, q);
    RequestsUpdateOk(s.requests.rows, s.profiles.rows.Keys, s.cars.rows.Keys, s.rentals.rows.Keys, s.requests.next, q);
  }

  /** Replacing a request by one whose profile and car exist, and whose created
      rental (if any) exists and is referenced by no other request, keeps the
      database valid. */
  lemma UpdateRequestKeepsValid(s: State, k: Id, q: RentalRequest)
    requires s.Valid() && k in s.requests.rows
    requires q.profile in s.profiles.rows && q.car in s.cars.rows
    requires q.createdRental.Some? ==> q.createdRental.value in s.rentals.rows
    requires q.createdRental.Some? ==>
      forall j | j in s.requests.rows && j != k :: s.requests.rows[j].createdRental != q.createdRental
    ensures s.(requests := s.requests.Update(k, q)).Valid()
  {
    UpdateDeleteKeepKeys(s.requests, k, q);
    RequestsUpdateOk(s.requests.rows, s.profiles.rows.Keys, s.cars.rows.Keys, s.rentals.rows.Keys, k, q);
  }

  /** The request table's constraints survive the replacement of row `k` by `q`
      when `q` satisfies them and shares its created rental with no other row. */
  lemma RequestsUpdateOk(requests: map<Id, RentalRequest>, profiles: set<Id>, cars: set<Id>, rentals: set<Id>, k: Id, q: RentalRequest)
    requires RequestsOk(requests, profiles, cars, rentals)
    requires q.profile in profiles && q.car in cars
    requires q.createdRental.Some? ==> q.createdRental.value in rentals
    requires q.createdRental.Some? ==>
      forall j | j in requests && j != k :: requests[j].createdRental != q.createdRental
    ensures RequestsOk(requests[k := q], profiles, cars, rentals)
  {
    var rs := requests[k := q];
    forall a, b | a in rs && b in rs && rs[a].createdRental.Some? && rs[a].createdRental == rs[b].createdRental
      ensures a == b
    {
      if a != k && b != k {
        assert requests[a].createdRental == requests[b].createdRental;
      }
    }
  }

  /** Inserting a payment for an existing rental that has none keeps the database valid. */
  lemma InsertPaymentKeepsValid(s: State, p: Payment)
    requires s.Valid() && p.rental in s.rentals.rows
    requires forall j | j in s.payments.rows :: s.payments.rows[j].rental != p.rental
    ensures s.(payments := s.payments.Insert(p)).Valid()
    ensures s.payments.next !in s.payments.rows
  {
    InsertFresh(s.payments, p);
    PaymentsInsertOk(s.payments.rows, s.rentals.rows.Keys, s.payments.next, p);
  }

  /** The payment table's constraints survive adding, under a new key, a payment
      for an existing rental that has none. */
  lemma PaymentsInsertOk(payments: map<Id, Payment>, rentals: set<Id>, k: Id, p: Payment)
    requires PaymentsOk(payments, rentals) && k !in payments && p.rental in rentals
    requires forall j | j in payments :: payments[j].rental != p.rental
    ensures PaymentsOk(payments[k := p], rentals)
  {
  }

  /** Replacing a payment by one for the same rental keeps the database valid. */
  lemma UpdatePaymentKeepsValid(s: State, k: Id, p: Payment)
    requires s.Valid() && k in s.payments.rows && p.rental == s.payments.rows[k].rental
    ensures s.(payments := s.payments.Update(k, p)).Valid()
  {
    UpdateDeleteKeepKeys(s.payments, k, p);
    PaymentsUpdateOk(s.payments.rows, s.rentals.rows.Keys, k, p);
  }

  /** The payment table's constraints survive the replacement of a payment by
      one for the same rental. */
  lemma PaymentsUpdateOk(payments: map<Id, Payment>, rentals: set<Id>, k: Id, p: Payment)
    requires PaymentsOk(payments, rentals) && k in payments && p.rental == payments[k].rental
    ensures PaymentsOk(payments[k := p], rentals)
  {
    var ps := payments[k := p];
    forall a, b | a in ps && b in ps && ps[a].rental == ps[b].rental ensures a == b {
      assert payments[a].rental == payments[b].rental;
    }
  }

  /** More rentals keep the requests' references intact. */
  lemma RequestsGrowRentals(requests: map<Id, RentalRequest>, profiles: set<Id>, cars: set<Id>, rentals: set<Id>, more: set<Id>)
    requires RequestsOk(requests, profiles, cars, rentals)
    ensures RequestsOk(requests, profiles, cars, rentals + more)
  {
  }

  /** More rentals keep the payments' references intact. */
  lemma PaymentsGrowRentals(payments: map<Id, Payment>, rentals: set<Id>, more: set<Id>)
    requires PaymentsOk(payments, rentals)
    ensures PaymentsOk(payments, rentals + more)
  {
  }
}
