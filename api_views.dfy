/** The REST API's row scoping: which rentals, requests and payments a caller
    sees, chosen by `is_staff` and the caller's client profile, and the
    staff-only list of pending requests. */
module ApiViews {
  import opened Common
  import opened Schema
  import opened Store

  /** `request.user` of an authenticated API call: the user's key and `is_staff`. */
  datatype Caller = Caller(user: Id, isStaff: bool)

  /** `AluguelViewSet.get_queryset`: staff see every rental, a client those of
      their profile, and a user without a profile none. */
  ghost function ScopedRentals(s: State, c: Caller): (r: set<Id>)
    ensures r <= s.rentals.rows.Keys
    ensures c.isStaff ==> r == s.rentals.rows.Keys
    ensures !c.isStaff && s.ProfileOf(c.user).None? ==> r == {}
    ensures !c.isStaff && s.ProfileOf(c.user).Some? ==>
      forall k | k in s.rentals.rows :: k in r <==> s.rentals.rows[k].profile == s.ProfileOf(c.user).value
  {
    if c.isStaff then s.rentals.rows.Keys
    else
      match s.ProfileOf(c.user)
      case None => {}
      case Some(p) => set k | k in s.rentals.rows && s.rentals.rows[k].profile == p
  }

  /** `SolicitacaoAluguelViewSet.get_queryset`: the same scoping for requests. */
  ghost function ScopedRequests(s: State, c: Caller): (r: set<Id>)
    ensures r <= s.requests.rows.Keys
    ensures c.isStaff ==> r == s.requests.rows.Keys
    ensures !c.isStaff && s.ProfileOf(c.user).None? ==> r == {}
    ensures !c.isStaff && s.ProfileOf(c.user).Some? ==>
      forall k | k in s.requests.rows :: k in r <==> s.requests.rows[k].profile == s.ProfileOf(c.user).value
  {
    if c.isStaff then s.requests.rows.Keys
    else
      match s.ProfileOf(c.user)
      case None => {}
      case Some(p) => set k | k in s.requests.rows && s.requests.rows[k].profile == p
  }

  /** `PagamentoViewSet.get_queryset`: a client sees the payments whose rental
      (`aluguel__perfil_cliente`) is of their profile. */
  ghost function ScopedPayments(s: State, c: Caller): (r: set<Id>)
    ensures r <= s.payments.rows.Keys
    ensures c.isStaff ==> r == s.payments.rows.Keys
    ensures !c.isStaff && s.ProfileOf(c.user).None? ==> r == {}
    ensures !c.isStaff && s.ProfileOf(c.user).Some? ==>
      forall k | k in s.payments.rows :: k in r <==>
        s.payments.rows[k].rental in s.rentals.rows && s.rentals.rows[s.payments.rows[k].rental].profile == s.ProfileOf(c.user).value
  {
    if c.isStaff then s.payments.rows.Keys
    else
      match s.ProfileOf(c.user)
      case None => {}
      case Some(p) =>
        set k | k in s.payments.rows && s.payments.rows[k].rental in s.rentals.rows
                && s.rentals.rows[s.payments.rows[k].rental].profile == p
  }

  /** In a valid database a client's rentals are exactly those whose profile
      belongs to the caller, whatever key that profile has, and the same holds
      for requests. */
  lemma ClientSeesOwnRows(s: State, c: Caller)
    requires s.Valid() && !c.isStaff
    ensures forall k | k in s.rentals.rows ::
      k in ScopedRentals(s, c) <==> s.profiles.rows[s.rentals.rows[k].profile].user == c.user
    ensures forall k | k in s.requests.rows ::
      k in ScopedRequests(s, c) <==> s.profiles.rows[s.requests.rows[k].profile].user == c.user
  {
    forall k | k in s.rentals.rows
      ensures k in ScopedRentals(s, c) <==> s.profiles.rows[s.rentals.rows[k].profile].user == c.user
    {
      var p := s.rentals.rows[k].profile;
      if s.profiles.rows[p].user == c.user {
        ProfileOfUnique(s, c.user, p);
      }
    }
    forall k | k in s.requests.rows
      ensures k in ScopedRequests(s, c) <==> s.profiles.rows[s.requests.rows[k].profile].user == c.user
    {
      var p := s.requests.rows[k].profile;
      if s.profiles.rows[p].user == c.user {
        ProfileOfUnique(s, c.user, p);
      }
    }
  }

  /** In a valid database a caller sees a payment exactly when they see its rental. */
  lemma PaymentScopedWithItsRental(s: State, c: Caller, k: Id)
    requires s.Valid() && k in s.payments.rows
    ensures k in ScopedPayments(s, c) <==> s.payments.rows[k].rental in ScopedRentals(s, c)
  {
  }

  /** What the `pendentes` action answers. */
  datatype PendingAnswer = Forbidden | PendingList(ids: set<Id>)

  /** `SolicitacaoAluguelViewSet.pendentes`: a 403 for a caller who is not staff,
      otherwise every pending request, of every client. */
  function PendingRequests(s: State, c: Caller): (a: PendingAnswer)
    ensures a == Forbidden <==> !c.isStaff
    ensures a.PendingList? ==> forall k :: k in a.ids <==> k in s.requests.rows && s.requests.rows[k].status == Pending
  {
    if !c.isStaff then Forbidden
    else PendingList(set k | k in s.requests.rows && s.requests.rows[k].status == Pending)
  }

  /** The pending list is the pending part of what the same staff caller sees
      through the request list. */
  lemma PendingIsScopedPending(s: State, c: Caller)
    requires c.isStaff
    ensures PendingRequests(s, c).ids <= ScopedRequests(s, c)
  {
  }
}
