/** `aluguel_list`: the staff listing of rentals, filtered by a search query and
    a status, and the totals shown above it. The listing's order is not modelled. */
module RentalList {
  import opened Common
  import opened Schema
  import opened Store
  import opened Text
  import opened Sessions
  import opened Decorators
  import opened RentalViews

  /** The search: the rental's car model or plate, or its client's username or CNH,
      contains `q`, ignoring case. A reference to a missing row matches nothing,
      as the SQL join would. */
  predicate MatchesQuery(s: State, r: Rental, q: string) {
    || (r.car in s.cars.rows
        && (ContainsIgnoringCase(s.cars.rows[r.car].model, q) || ContainsIgnoringCase(s.cars.rows[r.car].plate, q)))
    || (r.profile in s.profiles.rows
        && (|| (s.profiles.rows[r.profile].user in s.users.rows
                && ContainsIgnoringCase(s.users.rows[s.profiles.rows[r.profile].user].username, q))
            || ContainsIgnoringCase(s.profiles.rows[r.profile].cnh, q)))
  }

  /** The rentals listed for the GET parameters `q` and `status`. */
  function Listed(s: State, query: Option<string>, status: Option<string>): (ks: set<Id>)
    ensures ks <= s.rentals.rows.Keys
    ensures forall k | k in ks :: Given(query) ==> MatchesQuery(s, s.rentals.rows[k], query.value)
    ensures forall k | k in ks :: Given(status) ==> s.rentals.rows[k].status.Name() == status.value
    ensures forall k | k in s.rentals.rows ::
      ((Given(query) ==> MatchesQuery(s, s.rentals.rows[k], query.value))
       && (Given(status) ==> s.rentals.rows[k].status.Name() == status.value))
      ==> k in ks
  {
    set k | k in s.rentals.rows
      && (Given(query) ==> MatchesQuery(s, s.rentals.rows[k], query.value))
      && (Given(status) ==> s.rentals.rows[k].status.Name() == status.value)
  }

  /** Without a query or a status every rental is listed. */
  lemma NoFilterListsAll(s: State)
    ensures Listed(s, None, None) == s.rentals.rows.Keys
    ensures Listed(s, Some([]), Some([])) == s.rentals.rows.Keys
  {
  }

  /** A status that no rental can have lists nothing. */
  lemma UnknownStatusListsNothing(s: State, query: Option<string>, status: string)
    requires status != [] && forall st: RentalStatus :: st.Name() != status
    ensures Listed(s, query, Some(status)) == {}
  {
  }

  /** Adding a status filter never adds rentals. */
  lemma StatusFilterNarrows(s: State, query: Option<string>, status: Option<string>)
    ensures Listed(s, query, status) <= Listed(s, query, None)
  {
  }

  /** The keys of the rentals with status `st`. */
  function WithStatus(rentals: map<Id, Rental>, st: RentalStatus): (ks: set<Id>)
    ensures forall k :: k in ks <==> k in rentals && rentals[k].status == st
  {
    set k | k in rentals && rentals[k].status == st
  }

  /** The sum of the values of the rentals with keys `keys`. */
  ghost function SumValues(rentals: map<Id, Rental>, keys: set<Id>): int
    requires keys <= rentals.Keys
    decreases keys
  {
    if keys == {} then 0
    else
      var k := First(keys).value;
      rentals[k].value + SumValues(rentals, keys - {k})
  }

  /** The sum takes the keys in no particular order: any one of them can be taken out first. */
  lemma {:induction false} SumRemove(rentals: map<Id, Rental>, keys: set<Id>, j: Id)
    requires keys <= rentals.Keys && j in keys
    ensures SumValues(rentals, keys) == rentals[j].value + SumValues(rentals, keys - {j})
    decreases |keys|
  {
    var k := First(keys).value;
    if k != j {
      SumRemove(rentals, keys - {k}, j);
      SumRemove(rentals, keys - {j}, k);
      assert keys - {k} - {j} == keys - {j} - {k};
    }
  }

  /** The sum reads only the values of the rentals it adds up. */
  lemma {:induction false} SumFrame(r1: map<Id, Rental>, r2: map<Id, Rental>, keys: set<Id>)
    requires keys <= r1.Keys && keys <= r2.Keys
    requires forall k | k in keys :: r1[k].value == r2[k].value
    ensures SumValues(r1, keys) == SumValues(r2, keys)
    decreases keys
  {
    if keys != {} {
      SumFrame(r1, r2, keys - {First(keys).value});
    }
  }

  /** The figures above the listing. */
  datatype Totals = Totals(total: nat, active: nat, finished: nat, cancelled: nat, activeValue: int)

  /** `total_alugueis`, the counts per status, and `valor_total_ativos`, the sum of
      the active rentals' values (0 when there is none, as with `or 0`). */
  ghost function ListTotals(s: State): (t: Totals)
    ensures t.total == |s.rentals.rows|
    ensures t.active == |WithStatus(s.rentals.rows, Active)|
    ensures t.finished == |WithStatus(s.rentals.rows, Finished)|
    ensures t.cancelled == |WithStatus(s.rentals.rows, Cancelled)|
    ensures t.activeValue == SumValues(s.rentals.rows, WithStatus(s.rentals.rows, Active))
    ensures t.active == 0 ==> t.activeValue == 0
  {
    var rows := s.rentals.rows;
    Totals(|rows|, |WithStatus(rows, Active)|, |WithStatus(rows, Finished)|, |WithStatus(rows, Cancelled)|,
           SumValues(rows, WithStatus(rows, Active)))
  }

  /** Every rental has one of the three statuses, so the counts per status add up
      to the total. */
  lemma CountsAddUp(s: State)
    ensures var t := ListTotals(s); t.total == t.active + t.finished + t.cancelled
  {
    var rows := s.rentals.rows;
    var a, f, c := WithStatus(rows, Active), WithStatus(rows, Finished), WithStatus(rows, Cancelled);
    assert rows.Keys == a + f + c;
    assert a * f == {} && (a + f) * c == {};
    assert |rows.Keys| == |rows|;
  }

  /** `aluguel_list` as a whole: the staff gate, then the listing and its totals. */
  datatype ListAnswer = ListDenied(reply: Reply) | Listing(rows: set<Id>, totals: Totals)

  ghost function RentalListSpec(s: State, ses: SessionData, query: Option<string>, status: Option<string>): (a: ListAnswer)
    ensures a.ListDenied? <==> StaffRequired(ses) != Admit
    ensures a.Listing? ==> a.rows == Listed(s, query, status) && a.totals == ListTotals(s)
  {
    var gate := StaffRequired(ses);
    if gate.Deny? then ListDenied(gate.reply) else Listing(Listed(s, query, status), ListTotals(s))
  }

  /** Finalising or cancelling a rental moves it from the active count to the
      count of its new status, and takes its value off the active total; the
      total is unchanged. */
  lemma ClosingMovesTotals(s: State, ses: SessionData, pk: Id, to: RentalStatus)
    requires s.Linked() && to != Active
    requires CloseRentalSpec(s, ses, pk, true, to).1 == Success
    ensures var t := ListTotals(s);
      var t' := ListTotals(CloseRentalSpec(s, ses, pk, true, to).0);
      && t'.total == t.total
      && t'.active == t.active - 1
      && t'.activeValue == t.activeValue - s.rentals.rows[pk].value
      && (to == Finished ==> t'.finished == t.finished + 1 && t'.cancelled == t.cancelled)
      && (to == Cancelled ==> t'.cancelled == t.cancelled + 1 && t'.finished == t.finished)
  {
    var rows := s.rentals.rows;
    var rows' := CloseRentalSpec(s, ses, pk, true, to).0.rentals.rows;
    assert rows' == rows[pk := rows[pk].(status := to)];
    assert WithStatus(rows', Active) == WithStatus(rows, Active) - {pk};
    assert WithStatus(rows', to) == WithStatus(rows, to) + {pk};
    var other := if to == Finished then Cancelled else Finished;
    assert WithStatus(rows', other) == WithStatus(rows, other);
    SumRemove(rows, WithStatus(rows, Active), pk);
    SumFrame(rows, rows', WithStatus(rows', Active));
  }
}
