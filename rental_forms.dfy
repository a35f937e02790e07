/** The rental forms: the choices of their car field and their `clean` checks.
    Dates arrive already parsed into seconds; a missing or unparsable date is None. */
module RentalForms {
  import opened Common
  import opened Schema

  /** The errors the rental forms report. */
  datatype FormError =
    | EndNotAfterStart   // the end is not after the start
    | StartInPast        // the start is before now
    | CarUnavailable     // the car is not available
    | NotPositive        // the value is zero or negative
    | Required           // a required field is empty
    | InvalidChoice      // the car chosen is not one of the choices

  /** The queryset of the car field of `SolicitacaoAluguelForm`: the available cars. */
  function AvailableCars(cars: map<Id, Car>): (r: set<Id>)
    ensures forall c :: c in r <==> c in cars && cars[c].status == Available
  {
    set c | c in cars && cars[c].status == Available
  }

  /** `SolicitacaoAluguelForm.clean` on the cleaned start, end and car. The date
      checks run only when both dates are present, and come before the car check. */
  function CleanRequest(now: int, start: Option<int>, end: Option<int>, car: Option<Car>): (r: Outcome<FormError>)
    ensures r == Pass <==>
      (start.Some? && end.Some? ==> start.value < end.value && now <= start.value)
      && (car.Some? ==> car.value.status == Available)
    ensures start.Some? && end.Some? && end.value <= start.value ==> r == Fail(EndNotAfterStart)
    ensures start.Some? && end.Some? && start.value < end.value && start.value < now ==> r == Fail(StartInPast)
    ensures r == Fail(CarUnavailable) ==> car.Some? && car.value.status != Available
    ensures r.Fail? ==> r.error in {EndNotAfterStart, StartInPast, CarUnavailable}
  {
    if start.Some? && end.Some? && end.value <= start.value then Fail(EndNotAfterStart)
    else if start.Some? && end.Some? && start.value < now then Fail(StartInPast)
    else if car.Some? && car.value.status != Available then Fail(CarUnavailable)
    else Pass
  }

  /** What a client submits to request a rental. */
  datatype RequestInput = RequestInput(car: Option<Id>, start: Option<int>, end: Option<int>, notes: Option<string>)

  /** The car field's cleaned value: the car, when the id is one of the choices. */
  function ChosenCar(cars: map<Id, Car>, choices: set<Id>, car: Option<Id>): (r: Option<Car>)
    ensures r.Some? <==> car.Some? && car.value in choices && car.value in cars
    ensures r.Some? ==> r.value == cars[car.value]
  {
    if car.Some? && car.value in choices && car.value in cars then Some(cars[car.value]) else None
  }

  /** `SolicitacaoAluguelForm.is_valid()`: car, start and end are required, the car
      must be one of the choices, and then `clean` must pass. */
  function RequestFormValid(cars: map<Id, Car>, now: int, f: RequestInput): (ok: bool)
    ensures ok <==>
      && f.car.Some? && f.car.value in cars && cars[f.car.value].status == Available
      && f.start.Some? && f.end.Some? && f.start.value < f.end.value && now <= f.start.value
  {
    var car := ChosenCar(cars, AvailableCars(cars), f.car);
    car.Some? && f.start.Some? && f.end.Some? && CleanRequest(now, f.start, f.end, car) == Pass
  }

  /** Because only available cars are offered, `clean`'s own availability check
      never rejects a car that passed the field's validation. */
  lemma ChoicesMakeCarCheckRedundant(cars: map<Id, Car>, now: int, f: RequestInput)
    requires f.car.Some? && f.car.value in AvailableCars(cars)
    ensures CleanRequest(now, f.start, f.end, ChosenCar(cars, AvailableCars(cars), f.car)) != Fail(CarUnavailable)
  {
  }

  /** A start exactly at `now` is accepted: only a start strictly in the past is rejected. */
  lemma StartAtNowAccepted(now: int, end: int, car: Car)
    requires now < end && car.status == Available
    ensures CleanRequest(now, Some(now), Some(end), Some(car)) == Pass
    ensures CleanRequest(now, Some(now - 1), Some(end), Some(car)) == Fail(StartInPast)
  {
  }

  /** The queryset of `AluguelForm`'s car field: the available cars for a new
      rental, every car when an existing rental is edited. */
  function RentalFormCars(cars: map<Id, Car>, isNew: bool): (r: set<Id>)
    ensures isNew ==> r == AvailableCars(cars)
    ensures !isNew ==> r == cars.Keys
  {
    if isNew then AvailableCars(cars) else cars.Keys
  }

  /** `AluguelForm.clean`; `isNew` says the form's instance has no primary key. */
  function CleanRental(isNew: bool, now: int, start: Option<int>, end: Option<int>, car: Option<Car>): (r: Outcome<FormError>)
    ensures r == Pass <==>
      (start.Some? && end.Some? ==> start.value < end.value && (isNew ==> now <= start.value))
      && (isNew && car.Some? ==> car.value.status == Available)
    ensures start.Some? && end.Some? && end.value <= start.value ==> r == Fail(EndNotAfterStart)
    ensures r.Fail? ==> r.error in {EndNotAfterStart, StartInPast, CarUnavailable}
  {
    if start.Some? && end.Some? && end.value <= start.value then Fail(EndNotAfterStart)
    else if start.Some? && end.Some? && isNew && start.value < now then Fail(StartInPast)
    else if car.Some? && isNew && car.value.status != Available then Fail(CarUnavailable)
    else Pass
  }

  /** Editing an existing rental is checked only for the order of its dates: a past
      start or an unavailable car is accepted. */
  lemma EditChecksOnlyDateOrder(now: int, start: Option<int>, end: Option<int>, car: Option<Car>)
    ensures CleanRental(false, now, start, end, car) == Pass
      <==> !(start.Some? && end.Some? && end.value <= start.value)
  {
  }

  /** For a new rental, `AluguelForm.clean` decides exactly as the request form does. */
  lemma NewRentalCleanIsRequestClean(now: int, start: Option<int>, end: Option<int>, car: Option<Car>)
    ensures CleanRental(true, now, start, end, car) == CleanRequest(now, start, end, car)
  {
  }

  /** `AluguelForm.clean_valor`: an absent value passes, a value of zero or less fails. */
  function CleanValue(value: Option<int>): (r: Outcome<FormError>)
    ensures r == Pass <==> value.None? || value.value > 0
    ensures r.Fail? ==> r.error == NotPositive
  {
    if value.Some? && value.value <= 0 then Fail(NotPositive) else Pass
  }
}
