/**
 * The componentized converter: its state fields, the handlers that update them,
 * and the rule that keeps the two selectors on different currencies. Handlers
 * read the state as it was when they started, as the page's handlers do.
 */
module Converter {
  import opened Wrappers
  import opened Catalog
  import opened Quotes

  const LoadFailedMessage := "Failed to load currencies. Please try again later."
  const UnexpectedMessage := "An unexpected error occurred. Please try again."

  /** How the currency service's request ended. */
  datatype CurrencyLoad = Loaded(currencies: seq<Currency>) | LoadFailed

  /** A value a rejected request threw: an `Error` with its message, or anything else. */
  datatype Thrown = ErrorObject(message: string) | NonError

  /** How the conversion service's request ended. */
  datatype ConversionFetch = Resolved(result: ConversionResponse) | Rejected(thrown: Thrown)

  /** The text the error banner is given for a thrown value. */
  function ThrownText(t: Thrown): (r: string)
    ensures t.ErrorObject? ==> r == t.message
    ensures t.NonError? ==> r == UnexpectedMessage
  {
    match t
    case ErrorObject(message) => message
    case NonError => UnexpectedMessage
  }

  /**
   * `currencies.find(c => c.code !== code)?.code || ''`: the code of the first
   * currency whose code differs, or "" when there is none.
   */
  function OtherCode(cs: seq<Currency>, code: string): (r: string)
    ensures r != "" ==> r != code && HasCode(cs, r)
    ensures r == "" <==> FirstOther(cs, code).None? || cs[FirstOther(cs, code).value].code == ""
    ensures r != "" ==> r == cs[FirstOther(cs, code).value].code
  {
    match FirstOther(cs, code)
    case None => ""
    case Some(i) => cs[i].code
  }

  /**
   * The selection after choosing `chosen` on the "from" side: `from` is always the
   * chosen code, and `to` moves only on a clash that finds a non-empty different
   * code, to that code; otherwise `to` is left as it was.
   */
  function OnFromChange(cs: seq<Currency>, sel: Selection, chosen: string): (r: Selection)
    ensures r.from == chosen
    ensures r.to != sel.to ==> chosen == sel.to && OtherCode(cs, chosen) != "" && r.to == OtherCode(cs, chosen)
    ensures chosen == sel.to && OtherCode(cs, chosen) != "" ==> r.to == OtherCode(cs, chosen)
    ensures chosen != sel.to || OtherCode(cs, chosen) != "" ==> r.from != r.to
  {
    var to := if chosen == sel.to && OtherCode(cs, chosen) != "" then OtherCode(cs, chosen) else sel.to;
    Selection(chosen, to)
  }

  /** The mirror image: choosing `chosen` on the "to" side. */
  function OnToChange(cs: seq<Currency>, sel: Selection, chosen: string): (r: Selection)
    ensures r.to == chosen
    ensures r.from != sel.from ==> chosen == sel.from && OtherCode(cs, chosen) != "" && r.from == OtherCode(cs, chosen)
    ensures chosen == sel.from && OtherCode(cs, chosen) != "" ==> r.from == OtherCode(cs, chosen)
    ensures chosen != sel.from || OtherCode(cs, chosen) != "" ==> r.from != r.to
  {
    var from := if chosen == sel.from && OtherCode(cs, chosen) != "" then OtherCode(cs, chosen) else sel.from;
    Selection(from, chosen)
  }

  /** The two handlers are mirror images of each other. */
  lemma ChangeHandlersMirror(cs: seq<Currency>, sel: Selection, chosen: string)
    ensures OnToChange(cs, sel, chosen) == OnFromChange(cs, sel.Swapped(), chosen).Swapped()
  {
  }

  /**
   * When the list holds a currency whose code differs from the chosen one and no
   * code is empty, a clash is always resolved: the two sides end up different.
   */
  lemma {:induction false} ClashResolved(cs: seq<Currency>, sel: Selection, chosen: string, k: nat)
    requires k < |cs| && cs[k].code != chosen
    requires forall i :: 0 <= i < |cs| ==> cs[i].code != ""
    ensures OtherCode(cs, chosen) != ""
    ensures OnFromChange(cs, sel, chosen).from != OnFromChange(cs, sel, chosen).to
    ensures OnToChange(cs, sel, chosen).from != OnToChange(cs, sel, chosen).to
  {
    assert FirstOther(cs, chosen).Some?;
  }

  /** Choosing the code already shown on the other side, with nothing else listed, leaves both sides equal. */
  lemma SingleCodeClash(cs: seq<Currency>, sel: Selection)
    requires forall i :: 0 <= i < |cs| ==> cs[i].code == sel.to
    ensures OnFromChange(cs, sel, sel.to) == Selection(sel.to, sel.to)
  {
  }

  /**
   * A clash whose first different currency has an empty code changes nothing on the
   * other side, even when a later currency has a usable code.
   */
  lemma EmptyReplacementKeeps(cs: seq<Currency>, sel: Selection, i: nat, j: nat)
    requires i < j < |cs|
    requires forall k :: 0 <= k < i ==> cs[k].code == sel.to
    requires cs[i].code == "" && sel.to != "" && cs[j].code != "" && cs[j].code != sel.to
    ensures OnFromChange(cs, sel, sel.to) == Selection(sel.to, sel.to)
    ensures OnToChange(cs, sel.Swapped(), sel.to) == Selection(sel.to, sel.to)
  {
    assert FirstOther(cs, sel.to) == Some(i);
  }

  class CurrencyConverter {
    var currencies: seq<Currency>
    var fromCurrency: string
    var toCurrency: string
    var amount: string
    var conversionResult: Option<ConversionResponse>
    var isLoading: bool
    var error: Option<string>
    var showResult: bool

    /** A result is only ever shown once it has been stored. */
    ghost predicate Valid()
      reads this
    {
      showResult ==> conversionResult.Some?
    }

    function CurrentSelection(): Selection
      reads this
    {
      Selection(fromCurrency, toCurrency)
    }

    constructor ()
      ensures Valid()
      ensures currencies == [] && CurrentSelection() == Selection("USD", "EUR") && amount == "1000"
      ensures conversionResult == None && !isLoading && error == None && !showResult
    {
      currencies := [];
      fromCurrency := "USD";
      toCurrency := "EUR";
      amount := "1000";
      conversionResult := None;
      isLoading := false;
      error := None;
      showResult := false;
    }

    /** The mount-time effect, once the currency service has answered. */
    method LoadCurrencies(outcome: CurrencyLoad)
      requires Valid()
      modifies this
      ensures Valid()
      ensures outcome.Loaded? ==> currencies == outcome.currencies && error == old(error)
      ensures outcome.LoadFailed? ==> currencies == old(currencies) && error == Some(LoadFailedMessage)
      ensures CurrentSelection() == old(CurrentSelection()) && amount == old(amount)
      ensures conversionResult == old(conversionResult) && isLoading == old(isLoading)
      ensures showResult == old(showResult)
    {
      match outcome {
        case Loaded(cs) =>
          currencies := cs;
        case LoadFailed =>
          error := Some(LoadFailedMessage);
      }
    }

    /** `handleSubmit` up to its await. */
    method BeginSubmit()
      requires Valid()
      modifies this
      ensures Valid()
      ensures isLoading && error == None && !showResult
      ensures conversionResult == old(conversionResult)
      ensures CurrentSelection() == old(CurrentSelection()) && currencies == old(currencies) && amount == old(amount)
    {
      isLoading := true;
      error := None;
      showResult := false;
    }

    /**
     * `handleSubmit` after its first await, the conversion request. A result is stored
     * but not yet shown, and the handler goes on to wait; a failure sets the error
     * text, keeps the previous result hidden, and ends the handler.
     */
    method ReceiveConversion(outcome: ConversionFetch)
      requires Valid() && isLoading && error == None && !showResult
      modifies this
      ensures Valid()
      ensures !showResult
      ensures outcome.Resolved? ==> conversionResult == Some(outcome.result) && isLoading && error == None
      ensures outcome.Rejected? ==>
        conversionResult == old(conversionResult) && !isLoading && error == Some(ThrownText(outcome.thrown))
      ensures CurrentSelection() == old(CurrentSelection()) && currencies == old(currencies) && amount == old(amount)
    {
      match outcome {
        case Resolved(result) =>
          conversionResult := Some(result);
        case Rejected(thrown) =>
          if thrown.ErrorObject? {
            error := Some(thrown.message);
          } else {
            error := Some(UnexpectedMessage);
          }
          isLoading := false;
      }
    }

    /** `handleSubmit` after its second await, the short delay: the stored result is shown. */
    method RevealResult()
      requires Valid() && conversionResult.Some?
      modifies this`showResult, this`isLoading
      ensures Valid()
      ensures showResult && !isLoading
    {
      showResult := true;
      isLoading := false;
    }

    /** The whole submit handler, its two awaits settled in order. */
    method HandleSubmit(outcome: ConversionFetch)
      requires Valid()
      modifies this
      ensures Valid()
      ensures !isLoading
      ensures outcome.Resolved? ==> conversionResult == Some(outcome.result) && showResult && error == None
      ensures outcome.Rejected? ==>
        conversionResult == old(conversionResult) && !showResult && error == Some(ThrownText(outcome.thrown))
      ensures CurrentSelection() == old(CurrentSelection()) && currencies == old(currencies) && amount == old(amount)
    {
      BeginSubmit();
      ReceiveConversion(outcome);
      if outcome.Resolved? {
        RevealResult();
      }
    }

    /** The "from" selector's change handler. */
    method HandleFromCurrencyChange(chosen: string)
      requires Valid()
      modifies this`fromCurrency, this`toCurrency
      ensures Valid()
      ensures CurrentSelection() == OnFromChange(currencies, old(CurrentSelection()), chosen)
    {
      var newFromCurrency := chosen;
      fromCurrency := newFromCurrency;
      if newFromCurrency == toCurrency {
        var differentCurrency := OtherCode(currencies, newFromCurrency);
        if differentCurrency != "" {
          toCurrency := differentCurrency;
        }
      }
    }

    /** The "to" selector's change handler. */
    method HandleToCurrencyChange(chosen: string)
      requires Valid()
      modifies this`fromCurrency, this`toCurrency
      ensures Valid()
      ensures CurrentSelection() == OnToChange(currencies, old(CurrentSelection()), chosen)
    {
      var newToCurrency := chosen;
      toCurrency := newToCurrency;
      if newToCurrency == fromCurrency {
        var differentCurrency := OtherCode(currencies, newToCurrency);
        if differentCurrency != "" {
          fromCurrency := differentCurrency;
        }
      }
    }

    /** The amount field's change handler. */
    method SetAmount(value: string)
      requires Valid()
      modifies this`amount
      ensures Valid()
      ensures amount == value
    {
      amount := value;
    }
  }
}
