/**
 * What the comparison endpoint returns, as far as the widget reads it, and the
 * rules both views apply to it: when a response counts as a result, which
 * provider the component shows, and how a quote's fee and delivery time are shown.
 */
module Quotes {
  import opened Wrappers
  import opened Duration

  /** A JavaScript number, represented by its `String()` rendering. */
  datatype JsNumber = JsNumber(text: string)

  /** Truthiness of a number: 0, -0 (both rendered "0") and NaN are falsy. */
  predicate Truthy(n: JsNumber) {
    n.text != "0" && n.text != "NaN"
  }

  /** `duration?.min` */
  datatype DurationRange = DurationRange(min: Option<string>)

  /** `deliveryEstimation?.duration` */
  datatype DeliveryEstimation = DeliveryEstimation(duration: Option<DurationRange>)

  datatype Quote = Quote(rate: JsNumber, fee: Option<JsNumber>, deliveryEstimation: Option<DeliveryEstimation>)

  datatype Provider = Provider(name: string, quotes: seq<Quote>)

  /** The parsed body; providers is None when the field is missing. */
  datatype ConversionResponse = ConversionResponse(providers: Option<seq<Provider>>)

  // ---------------------------------------------------------------------
  // The page's request

  /** How the page's comparison request ended. */
  datatype FetchOutcome =
    | NotOk(status: nat)                         // a response with a non-2xx status
    | Body(data: Option<ConversionResponse>)     // a 2xx response; None when the body is null
    | Threw(message: string)                     // fetch or JSON parsing threw, with this message

  const NoDataMessage := "No conversion data available"
  const PageFallbackMessage := "Failed to fetch conversion rates. Please try again."

  const HttpErrorPrefix := "HTTP error! status: "

  /**
   * The message for a non-OK response: the fixed prefix, then the status, which reads back
   * from it and carries no leading zero.
   */
  function HttpErrorMessage(status: nat): (r: string)
    ensures |r| > |HttpErrorPrefix| && r[..|HttpErrorPrefix|] == HttpErrorPrefix
    ensures AllDigits(r[|HttpErrorPrefix|..]) && DigitsValue(r[|HttpErrorPrefix|..]) == status
    ensures r[|HttpErrorPrefix|] == '0' ==> r == HttpErrorPrefix + "0"
  {
    var r := HttpErrorPrefix + NatToString(status);
    assert r[|HttpErrorPrefix|..] == NatToString(status);
    r
  }

  /**
   * `!data || !data.providers || data.providers.length === 0` fails: a body is usable
   * exactly when it offers at least one provider.
   */
  predicate Usable(data: Option<ConversionResponse>): (b: bool)
    ensures b <==> |ProvidersOf(data)| > 0
  {
    data.Some? && data.value.providers.Some? && |data.value.providers.value| > 0
  }

  /** `error.message || "Failed to fetch ..."` */
  function PageErrorText(message: string): (r: string)
    ensures r != ""
    ensures message != "" ==> r == message
    ensures message == "" ==> r == PageFallbackMessage
  {
    if message == "" then PageFallbackMessage else message
  }

  /**
   * What a settled request leaves behind: the body itself, or the text of the error
   * banner. Only a usable body is a result, it is kept as received, and an error
   * always has a text that shows.
   */
  function PageSubmitOutcome(o: FetchOutcome): (r: Result<ConversionResponse, string>)
    ensures r.Success? <==> o.Body? && Usable(o.data)
    ensures r.Success? ==> r.value == o.data.value
    ensures r.Failure? ==> r.error != ""
    ensures o.NotOk? ==> r == Failure(HttpErrorMessage(o.status))
    ensures o.Body? && !Usable(o.data) ==> r == Failure(NoDataMessage)
    ensures o.Threw? && o.message != "" ==> r == Failure(o.message)
    ensures o.Threw? && o.message == "" ==> r == Failure(PageFallbackMessage)
  {
    match o
    case NotOk(status) => Failure(PageErrorText(HttpErrorMessage(status)))
    case Body(data) =>
      if !Usable(data) then Failure(PageErrorText(NoDataMessage)) else Success(data.value)
    case Threw(message) => Failure(PageErrorText(message))
  }

  // ---------------------------------------------------------------------
  // The component's provider

  /** The index `ps.find(p => p.name === name)` stops at, searching from index i. */
  function FirstNamedFrom(ps: seq<Provider>, name: string, i: nat): (r: Option<nat>)
    requires i <= |ps|
    ensures r.Some? ==> i <= r.value < |ps| && ps[r.value].name == name
    ensures r.Some? ==> forall k :: i <= k < r.value ==> ps[k].name != name
    ensures r.None? ==> forall k :: i <= k < |ps| ==> ps[k].name != name
    decreases |ps| - i
  {
    if i == |ps| then None
    else if ps[i].name == name then Some(i)
    else FirstNamedFrom(ps, name, i + 1)
  }

  const WiseName := "Wise"

  /** The providers a result offers; `?.` makes an absent result or field offer none. */
  function ProvidersOf(result: Option<ConversionResponse>): seq<Provider> {
    if result.None? || result.value.providers.None? then [] else result.value.providers.value
  }

  /**
   * `conversionResult?.providers?.find(p => p.name === 'Wise')`: the first provider
   * named exactly "Wise", and None (no result block) when there is none.
   */
  function WiseProvider(result: Option<ConversionResponse>): (r: Option<Provider>)
    ensures r.Some? ==> r.value.name == WiseName
    ensures r.Some? ==> exists i :: (0 <= i < |ProvidersOf(result)| && ProvidersOf(result)[i] == r.value
                                     && forall k :: 0 <= k < i ==> ProvidersOf(result)[k].name != WiseName)
    ensures r.None? <==> forall k :: 0 <= k < |ProvidersOf(result)| ==> ProvidersOf(result)[k].name != WiseName
  {
    var ps := ProvidersOf(result);
    match FirstNamedFrom(ps, WiseName, 0)
    case None => None
    case Some(i) => Some(ps[i])
  }

  // ---------------------------------------------------------------------
  // How a quote is shown

  /** `fee || '0'` in the component: the fee as rendered, except that absent and NaN show as "0". */
  function FeeText(fee: Option<JsNumber>): (r: string)
    ensures fee.None? ==> r == "0"
    ensures fee.Some? && fee.value.text != "NaN" ==> r == fee.value.text
    ensures fee.Some? && fee.value.text == "NaN" ==> r == "0"
  {
    if fee.Some? && Truthy(fee.value) then fee.value.text else "0"
  }

  /** `fee ? fee + ' ' + from : 'Free'` on the page. */
  function PageFeeText(fee: Option<JsNumber>, from: string): (r: string)
    ensures r == "Free" <==> fee.None? || !Truthy(fee.value)
    ensures fee.Some? && Truthy(fee.value) ==> r == fee.value.text + " " + from
  {
    if fee.Some? && Truthy(fee.value) then
      var r := fee.value.text + " " + from;
      assert r[|fee.value.text|] == ' ';
      assert r != "Free" by {
        if |r| == 4 { assert |fee.value.text| <= 3; }
      }
      r
    else "Free"
  }

  /**
   * `deliveryEstimation?.duration?.min`, when it is a non-empty (truthy) string. The
   * component shows its "Estimated delivery" line exactly when this is present.
   */
  function DeliveryMin(q: Quote): (r: Option<string>)
    ensures r.Some? ==> r.value != ""
    ensures r.Some? <==> (q.deliveryEstimation.Some? && q.deliveryEstimation.value.duration.Some?
                          && q.deliveryEstimation.value.duration.value.min.Some?
                          && q.deliveryEstimation.value.duration.value.min.value != "")
    ensures r.Some? ==> q.deliveryEstimation.Some? && q.deliveryEstimation.value.duration.Some?
                        && r == q.deliveryEstimation.value.duration.value.min
  {
    if q.deliveryEstimation.Some? && q.deliveryEstimation.value.duration.Some? then
      var min := q.deliveryEstimation.value.duration.value.min;
      if min.Some? && min.value != "" then min else None
    else None
  }

  /** The page's "Est. Arrival" cell: the label of the minimum duration, or "N/A" without one. */
  function ArrivalText(q: Quote): (r: string)
    ensures r == "N/A" <==> DeliveryMin(q).None?
    ensures DeliveryMin(q).Some? ==> r == FormatDuration(DeliveryMin(q))
  {
    match DeliveryMin(q)
    case None => "N/A"
    case Some(min) =>
      var r := FormatDuration(Some(min));
      assert r != "N/A" by {
        if r != Unknown {
          var p := ParseDuration(min).value;
          LabelLastChar(p);
        }
      }
      r
  }
}
