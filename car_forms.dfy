/** The field checks of the car form: the plate is normalised and its length
    checked, the year bounded by the current year, the daily price positive. */
module CarForms {
  import opened Common
  import opened Text

  /** The errors the car form reports. */
  datatype CarFormError =
    | PlateLength        // the normalised plate is not 7 or 8 characters long
    | YearTooEarly       // the year is before 1900
    | YearTooLate        // the year is after next year
    | PriceNotPositive   // the daily price is zero or negative

  /** No character of `s` is a lower-case letter. */
  predicate NoLower(s: string) {
    forall i :: 0 <= i < |s| ==> !IsLower(s[i])
  }

  /** The plate as `clean_placa` rewrites it: upper-cased, stripped, spaces removed. */
  function NormalisePlate(plate: string): (r: string)
    ensures NoLower(r)
    ensures forall i :: 0 <= i < |r| ==> r[i] != ' '
    ensures r != [] ==> !IsSpace(r[0]) && !IsSpace(r[|r| - 1])
    ensures forall c | !IsSpace(c) :: c in r <==> exists i | 0 <= i < |plate| :: UpperChar(plate[i]) == c
    ensures multiset(r) == multiset(Strip(Upper(plate)))[' ' := 0]
  {
    var stripped := Strip(Upper(plate));
    KeepsUpperChars(plate);
    StripKeepsNoLower(Upper(plate));
    RemoveBlanksKeepsEnds(stripped);
    RemoveBlanksKeepsNoLower(stripped);
    RemoveBlanks(stripped)
  }

  /** The upper-cased plate holds exactly the upper case of each of its characters. */
  lemma KeepsUpperChars(plate: string)
    ensures forall c :: c in Upper(plate) <==> exists i | 0 <= i < |plate| :: UpperChar(plate[i]) == c
  {
    var u := Upper(plate);
    forall c | c in u ensures exists i | 0 <= i < |plate| :: UpperChar(plate[i]) == c {
      var i :| 0 <= i < |u| && u[i] == c;
      assert UpperChar(plate[i]) == c;
    }
  }

  /** Stripping keeps a string free of lower-case letters. */
  lemma StripKeepsNoLower(s: string)
    requires NoLower(s)
    ensures NoLower(Strip(s))
  {
    var l := StripLeft(s);
    assert NoLower(l) by {
      forall i | 0 <= i < |l| ensures !IsLower(l[i]) {
        assert l[i] == s[|s| - |l| + i];
      }
    }
    var r := StripRight(l);
    forall i | 0 <= i < |r| ensures !IsLower(r[i]) {
      assert r[i] == l[i];
    }
  }

  /** Removing blanks keeps a string free of lower-case letters. */
  lemma {:induction false} RemoveBlanksKeepsNoLower(s: string)
    requires NoLower(s)
    ensures NoLower(RemoveBlanks(s))
  {
    if s != [] {
      RemoveBlanksKeepsNoLower(s[1..]);
    }
  }

  /** `CarroForm.clean_placa`: the normalised plate when it has 7 or 8 characters. */
  function CleanPlate(plate: string): (r: Result<string, CarFormError>)
    ensures r.Ok? <==> 7 <= |NormalisePlate(plate)| <= 8
    ensures r.Ok? ==> r.value == NormalisePlate(plate)
    ensures r.Err? ==> r.error == PlateLength
  {
    var p := NormalisePlate(plate);
    if |p| < 7 || |p| > 8 then Err(PlateLength) else Ok(p)
  }

  /** A plate the form accepted is accepted again unchanged. */
  lemma CleanPlateIdempotent(plate: string)
    requires CleanPlate(plate).Ok?
    ensures CleanPlate(CleanPlate(plate).value) == CleanPlate(plate)
  {
    NormaliseIsIdempotent(plate);
  }

  /** Normalising a normalised plate changes nothing. */
  lemma NormaliseIsIdempotent(plate: string)
    ensures NormalisePlate(NormalisePlate(plate)) == NormalisePlate(plate)
  {
    var p := NormalisePlate(plate);
    UpperOfUpper(p);
    StripOfStripped(p);
    RemoveBlanksOfBlankFree(p);
  }

  /** Upper-casing a string with no lower-case letter changes nothing. */
  lemma UpperOfUpper(s: string)
    requires NoLower(s)
    ensures Upper(s) == s
  {
  }

  /** A string that neither starts nor ends with white space is its own strip. */
  lemma StripOfStripped(s: string)
    requires s != [] ==> !IsSpace(s[0]) && !IsSpace(s[|s| - 1])
    ensures Strip(s) == s
  {
  }

  /** A string with no blank is unchanged by removing blanks. */
  lemma {:induction false} RemoveBlanksOfBlankFree(s: string)
    requires forall i :: 0 <= i < |s| ==> s[i] != ' '
    ensures RemoveBlanks(s) == s
  {
    if s != [] {
      RemoveBlanksOfBlankFree(s[1..]);
    }
  }

  /** Removing blanks keeps a first and a last character that are not blanks. */
  lemma {:induction false} RemoveBlanksKeepsEnds(s: string)
    requires s != [] ==> s[0] != ' ' && s[|s| - 1] != ' '
    ensures s != [] ==> RemoveBlanks(s) != [] && RemoveBlanks(s)[0] == s[0]
    ensures s != [] ==> RemoveBlanks(s)[|RemoveBlanks(s)| - 1] == s[|s| - 1]
  {
    if |s| > 1 {
      LastKept(s[1..]);
    }
  }

  /** Removing blanks keeps a last character that is not a blank. */
  lemma {:induction false} LastKept(s: string)
    requires s != [] && s[|s| - 1] != ' '
    ensures RemoveBlanks(s) != [] && RemoveBlanks(s)[|RemoveBlanks(s)| - 1] == s[|s| - 1]
  {
    if |s| > 1 {
      LastKept(s[1..]);
    }
  }

  /** `CarroForm.clean_ano`: from 1900 to the year after `currentYear`; the lower
      bound is checked first. */
  function CleanYear(year: int, currentYear: int): (r: Result<int, CarFormError>)
    ensures r.Ok? <==> 1900 <= year <= currentYear + 1
    ensures r.Ok? ==> r.value == year
    ensures year < 1900 ==> r == Err(YearTooEarly)
    ensures 1900 <= year && year > currentYear + 1 ==> r == Err(YearTooLate)
  {
    if year < 1900 then Err(YearTooEarly)
    else if year > currentYear + 1 then Err(YearTooLate)
    else Ok(year)
  }

  /** `CarroForm.clean_preco_diaria`: an absent price passes, a price of zero or less fails. */
  function CleanDailyPrice(price: Option<int>): (r: Result<Option<int>, CarFormError>)
    ensures r.Ok? <==> price.None? || price.value > 0
    ensures r.Ok? ==> r.value == price
    ensures r.Err? ==> r.error == PriceNotPositive
  {
    if price.Some? && price.value <= 0 then Err(PriceNotPositive) else Ok(price)
  }
}
