/**
 * The page-level converter: its state fields and the handlers that update them.
 * Each handler reads the state as it was when it started and writes the fields
 * in the order the source calls their setters. A handler that awaits is split at
 * the await, so the state shown while the request is pending is part of the model.
 */
module HomePage {
  import opened Wrappers
  import opened Catalog
  import opened Quotes

  /**
   * The `fromCurrency` seen by the mount-time effect. Its closure was made when the
   * page mounted, so the default selection compares against this value and not
   * against a `from` it has just set.
   */
  const MountFrom := "USD"
  const MountTo := "EUR"

  /** How the currency-list request ended: the records, or any failure (status, network, parse). */
  datatype CatalogFetch = Fetched(records: seq<RawCurrency>) | FetchFailed

  /**
   * The selection after the catalog has loaded. It changes only when at least two
   * currencies arrived: `from` becomes the first code when "USD" is missing, and `to`
   * becomes the first code other than the mount-time "USD" when "EUR" is missing.
   */
  function CatalogDefaults(cs: seq<Currency>, sel: Selection): (r: Selection)
    ensures |cs| < 2 ==> r == sel
    ensures |cs| >= 2 && !HasCode(cs, "USD") ==> r.from == cs[0].code
    ensures HasCode(cs, "USD") ==> r.from == sel.from
    ensures HasCode(cs, "EUR") ==> r.to == sel.to
    ensures r.to != sel.to ==>
      |cs| >= 2 && !HasCode(cs, "EUR") && r.to != MountFrom && HasCode(cs, r.to)
    ensures |cs| >= 2 && !HasCode(cs, "EUR") && FirstOther(cs, MountFrom).Some? ==>
      r.to == cs[FirstOther(cs, MountFrom).value].code
  {
    if |cs| < 2 then sel
    else
      var from := if !HasCode(cs, "USD") then cs[0].code else sel.from;
      var second := FirstOther(cs, MountFrom);
      var to := if !HasCode(cs, "EUR") && second.Some? then cs[second.value].code else sel.to;
      Selection(from, to)
  }

  /**
   * With neither default in the catalog, both sides end up on the first currency:
   * the first code is not "USD", so it is also the first code other than "USD".
   */
  lemma {:induction false} DefaultsNeitherPresent(cs: seq<Currency>, sel: Selection)
    requires |cs| >= 2 && !HasCode(cs, "USD") && !HasCode(cs, "EUR")
    ensures CatalogDefaults(cs, sel) == Selection(cs[0].code, cs[0].code)
  {
    assert cs[0].code != MountFrom;
    assert FirstOther(cs, MountFrom) == Some(0);
  }

  /** When both defaults are in the catalog the selection is left alone. */
  lemma DefaultsBothPresent(cs: seq<Currency>, sel: Selection)
    requires HasCode(cs, "USD") && HasCode(cs, "EUR")
    ensures CatalogDefaults(cs, sel) == sel
  {
  }

  class Home {
    var result: Option<ConversionResponse>
    var loading: bool
    var error: Option<string>
    var inputAmount: string
    var fromCurrency: string
    var toCurrency: string
    var currencies: seq<Currency>
    var currenciesLoading: bool

    /** A result and an error are never shown together. */
    ghost predicate Valid()
      reads this
    {
      !(result.Some? && error.Some?)
    }

    function CurrentSelection(): Selection
      reads this
    {
      Selection(fromCurrency, toCurrency)
    }

    /** The options of the "from" selector: every currency but the one selected as "to". */
    function FromOptions(): (r: seq<Currency>)
      reads this
      ensures forall c :: c in r <==> c in currencies && c.code != toCurrency
    {
      Without(currencies, toCurrency)
    }

    /** The options of the "to" selector: every currency but the one selected as "from". */
    function ToOptions(): (r: seq<Currency>)
      reads this
      ensures forall c :: c in r <==> c in currencies && c.code != fromCurrency
    {
      Without(currencies, fromCurrency)
    }

    constructor ()
      ensures Valid()
      ensures result == None && !loading && error == None && inputAmount == ""
      ensures CurrentSelection() == Selection(MountFrom, MountTo)
      ensures currencies == [] && currenciesLoading
    {
      result := None;
      loading := false;
      error := None;
      inputAmount := "";
      fromCurrency := MountFrom;
      toCurrency := MountTo;
      currencies := [];
      currenciesLoading := true;
    }

    /** The mount-time effect, once its request has ended with the given outcome. */
    method FetchCurrencies(outcome: CatalogFetch)
      requires Valid()
      modifies this
      ensures Valid()
      ensures !currenciesLoading
      ensures outcome.Fetched? ==> currencies == FormatCatalog(outcome.records)
      ensures outcome.Fetched? ==> CurrentSelection() == CatalogDefaults(currencies, old(CurrentSelection()))
      ensures outcome.FetchFailed? ==> currencies == Fallback && CurrentSelection() == old(CurrentSelection())
      ensures result == old(result) && loading == old(loading) && error == old(error)
      ensures inputAmount == old(inputAmount)
    {
      currenciesLoading := true;
      match outcome {
        case Fetched(records) =>
          var formatted := FormatCatalog(records);
          currencies := formatted;
          if |formatted| >= 2 {
            var hasUSD := HasCode(formatted, "USD");
            var hasEUR := HasCode(formatted, "EUR");
            if !hasUSD {
              fromCurrency := formatted[0].code;
            }
            if !hasEUR {
              var second := FirstOther(formatted, MountFrom);
              if second.Some? {
                toCurrency := formatted[second.value].code;
              }
            }
          }
        case FetchFailed =>
          currencies := Fallback;
      }
      currenciesLoading := false;
    }

    /** `handleFormSubmit` up to its await: the request is about to go out. */
    method BeginSubmit(amount: string)
      requires Valid()
      modifies this
      ensures Valid()
      ensures loading && error == None && result == None && inputAmount == amount
      ensures CurrentSelection() == old(CurrentSelection()) && currencies == old(currencies)
      ensures currenciesLoading == old(currenciesLoading)
    {
      loading := true;
      error := None;
      result := None;
      inputAmount := amount;
    }

    /** `handleFormSubmit` after its await: the request has ended with the given outcome. */
    method SettleSubmit(outcome: FetchOutcome)
      requires Valid() && result == None && error == None
      modifies this
      ensures Valid()
      ensures !loading
      ensures PageSubmitOutcome(outcome).Success? ==> result == Some(PageSubmitOutcome(outcome).value) && error == None
      ensures PageSubmitOutcome(outcome).Failure? ==> error == Some(PageSubmitOutcome(outcome).error) && result == None
      ensures CurrentSelection() == old(CurrentSelection()) && currencies == old(currencies)
      ensures currenciesLoading == old(currenciesLoading) && inputAmount == old(inputAmount)
    {
      var message: string;
      var failed := true;
      match outcome {
        case NotOk(status) =>
          message := HttpErrorMessage(status);
        case Threw(m) =>
          message := m;
        case Body(data) =>
          if !Usable(data) {
            message := NoDataMessage;
          } else {
            result := Some(data.value);
            failed := false;
            message := "";
          }
      }
      if failed {
        error := Some(PageErrorText(message));
      }
      loading := false;
    }

    /** The whole submit handler: begin, then settle with the request's outcome. */
    method HandleFormSubmit(amount: string, outcome: FetchOutcome)
      requires Valid()
      modifies this
      ensures Valid()
      ensures !loading && inputAmount == amount
      ensures result.Some? <==> PageSubmitOutcome(outcome).Success?
      ensures PageSubmitOutcome(outcome).Success? ==> result == Some(PageSubmitOutcome(outcome).value)
      ensures PageSubmitOutcome(outcome).Failure? ==> error == Some(PageSubmitOutcome(outcome).error)
      ensures PageSubmitOutcome(outcome).Success? ==> error == None
      ensures CurrentSelection() == old(CurrentSelection()) && currencies == old(currencies)
      ensures currenciesLoading == old(currenciesLoading)
    {
      BeginSubmit(amount);
      SettleSubmit(outcome);
    }

    /** The swap button: the two sides trade places, and so do the two option lists. */
    method Swap()
      requires Valid()
      modifies this`fromCurrency, this`toCurrency
      ensures Valid()
      ensures CurrentSelection() == old(CurrentSelection()).Swapped()
      ensures FromOptions() == old(ToOptions()) && ToOptions() == old(FromOptions())
    {
      var tempFrom := fromCurrency;
      fromCurrency := toCurrency;
      toCurrency := tempFrom;
    }

    /** The "from" selector's change handler. */
    method SelectFrom(code: string)
      requires Valid()
      modifies this`fromCurrency
      ensures Valid()
      ensures fromCurrency == code
    {
      fromCurrency := code;
    }

    /** The "to" selector's change handler. */
    method SelectTo(code: string)
      requires Valid()
      modifies this`toCurrency
      ensures Valid()
      ensures toCurrency == code
    {
      toCurrency := code;
    }
  }

  /** Swapping twice gives back the whole state. */
  method SwapTwice(h: Home)
    requires h.Valid()
    modifies h
    ensures h.CurrentSelection() == old(h.CurrentSelection())
    ensures h.FromOptions() == old(h.FromOptions()) && h.ToOptions() == old(h.ToOptions())
    ensures h.result == old(h.result) && h.loading == old(h.loading) && h.error == old(h.error)
    ensures h.inputAmount == old(h.inputAmount) && h.currencies == old(h.currencies)
    ensures h.currenciesLoading == old(h.currenciesLoading)
  {
    h.Swap();
    h.Swap();
  }
}
