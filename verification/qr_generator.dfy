/**
 * The UPI payment link behind the payment QR code (src/utils/qrGenerator.js):
 * `upi://pay?` followed by the form-encoded parameters `pa` (payee address),
 * `pn` (payee name), `am` (amount, only when positive), `cu` (currency,
 * always INR), `tr` (transaction reference) and `tn` (note), each present
 * only when the source sets it, in that order.
 *
 * Amounts are whole paise, as the price calculator produces them; a reference
 * or note of "" stands for an absent (falsy) one.
 */
module QrGenerator {
  import opened Wrappers
  import opened JsText
  import opened FormUrlEncoded

  const UpiPrefix: string := "upi://pay?"
  const DefaultPayeeName: string := "Print Service"
  const MissingUpiIdMessage: string := "UPI ID required"

  /** The arguments of `buildUpiUri`; `name` is `None` when the caller leaves it out. */
  datatype UpiRequest = UpiRequest(upiId: string, amount: Option<int>, name: Option<string>,
                                   reference: string, note: string)

  /** `amount.toFixed(2)` for a whole number of paise: rupees, a point, two digits. */
  function AmountText(paise: nat): (t: string)
    ensures |t| >= 4 && t[|t| - 3] == '.'
    ensures t[..|t| - 3] == NatToDecimal(paise / 100)
    ensures AllDigits(t[|t| - 2..])
    ensures DecimalValue(t[..|t| - 3]) * 100 + DecimalValue(t[|t| - 2..]) == paise
  {
    var rupees := NatToDecimal(paise / 100);
    var cents := paise % 100;
    var fraction := [DigitChar(cents / 10), DigitChar(cents % 10)];
    var t := rupees + "." + fraction;
    assert t[..|t| - 3] == rupees;
    assert t[|t| - 2..] == fraction;
    DecimalValueOfNat(paise / 100);
    assert DecimalValue(fraction) == cents by {
      assert fraction[..1] == [DigitChar(cents / 10)];
      assert DecimalValue(fraction[..1]) == cents / 10 by {
        assert fraction[..1][..0] == [];
      }
    }
    t
  }

  /** Whether `amount && amount > 0` holds. */
  predicate HasAmount(req: UpiRequest) {
    req.amount.Some? && req.amount.value > 0
  }

  /** One `params.set(name, value)` call, made only when `isSet` holds. */
  datatype Slot = Slot(name: string, isSet: bool, value: string)

  /** The `set` calls of `buildUpiUri`, in program order. */
  function Slots(req: UpiRequest): (slots: seq<Slot>)
    ensures |slots| == 6
    ensures forall i, j :: 0 <= i < j < |slots| ==> slots[i].name != slots[j].name
  {
    [Slot("pa", true, req.upiId),
     Slot("pn", true, if req.name.Some? then req.name.value else DefaultPayeeName),
     Slot("am", HasAmount(req), if HasAmount(req) then AmountText(req.amount.value) else ""),
     Slot("cu", true, "INR"),
     Slot("tr", req.reference != [], req.reference),
     Slot("tn", req.note != [], req.note)]
  }

  /** The list a fresh `URLSearchParams` holds after the calls from `from` on: one entry per call made. */
  function SetParams(slots: seq<Slot>, from: nat): (ps: seq<Param>)
    requires from <= |slots|
    decreases |slots| - from
  {
    if from == |slots| then []
    else (if slots[from].isSet then [Param(slots[from].name, slots[from].value)] else [])
         + SetParams(slots, from + 1)
  }

  /**
   * For each entry of the list, the call that made it: only calls that were
   * made, each once, in program order.
   */
  function Origins(slots: seq<Slot>, from: nat): (o: seq<nat>)
    requires from <= |slots|
    ensures forall i :: 0 <= i < |o| ==> from <= o[i] < |slots| && slots[o[i]].isSet
    ensures forall i, j :: 0 <= i < j < |o| ==> o[i] < o[j]
    decreases |slots| - from
  {
    if from == |slots| then []
    else if slots[from].isSet then [from] + Origins(slots, from + 1)
    else Origins(slots, from + 1)
  }

  /** The entry at each position is the one its call set. */
  lemma {:induction false} OriginsMatch(slots: seq<Slot>, from: nat)
    requires from <= |slots|
    ensures var o, ps := Origins(slots, from), SetParams(slots, from);
            |o| == |ps| &&
            forall i :: 0 <= i < |o| ==> ps[i] == Param(slots[o[i]].name, slots[o[i]].value)
    decreases |slots| - from
  {
    if from < |slots| {
      OriginsMatch(slots, from + 1);
      if slots[from].isSet {
        assert SetParams(slots, from) == [Param(slots[from].name, slots[from].value)] + SetParams(slots, from + 1);
        assert Origins(slots, from) == [from] + Origins(slots, from + 1);
      }
    }
  }

  /** Every call that was made has its entry. */
  lemma {:induction false} OriginsComplete(slots: seq<Slot>, from: nat, k: nat)
    requires from <= k < |slots| && slots[k].isSet
    ensures k in Origins(slots, from)
    decreases |slots| - from
  {
    if from < k {
      OriginsComplete(slots, from + 1, k);
    }
  }

  /** Each call's name, looked up in the list, gives the value of that call if it was made. */
  lemma {:induction false} SetParamsLookup(slots: seq<Slot>, from: nat, k: nat)
    requires from <= k < |slots|
    requires forall i, j :: 0 <= i < j < |slots| ==> slots[i].name != slots[j].name
    ensures Lookup(SetParams(slots, from), slots[k].name) ==
            (if slots[k].isSet then Some(slots[k].value) else None)
    decreases |slots| - from
  {
    if from < k {
      SetParamsLookup(slots, from + 1, k);
      LookupSkipsEarlierCall(slots, from, slots[k].name);
    } else if !slots[k].isSet {
      LaterCallsOnly(slots, k);
    }
  }

  /** A call whose name differs does not affect the lookup. */
  lemma LookupSkipsEarlierCall(slots: seq<Slot>, from: nat, name: string)
    requires from < |slots| && slots[from].name != name
    ensures Lookup(SetParams(slots, from), name) == Lookup(SetParams(slots, from + 1), name)
  {
    var ps := SetParams(slots, from);
    var rest := SetParams(slots, from + 1);
    if slots[from].isSet {
      assert ps == [Param(slots[from].name, slots[from].value)] + rest;
      assert ps[1..] == rest;
    } else {
      assert ps == rest;
    }
  }

  /** A call not made leaves its name out of the list when the names are distinct. */
  lemma LaterCallsOnly(slots: seq<Slot>, k: nat)
    requires k < |slots| && !slots[k].isSet
    requires forall i, j :: 0 <= i < j < |slots| ==> slots[i].name != slots[j].name
    ensures Lookup(SetParams(slots, k), slots[k].name) == None
  {
    var ps := SetParams(slots, k);
    var o := Origins(slots, k + 1);
    OriginsMatch(slots, k + 1);
    assert ps == SetParams(slots, k + 1);
  }

  /** The value of the first parameter called `name`, as `URLSearchParams.get` finds it. */
  function Lookup(ps: seq<Param>, name: string): (r: Option<string>)
    ensures r.None? <==> forall i :: 0 <= i < |ps| ==> ps[i].name != name
  {
    if ps == [] then None
    else if ps[0].name == name then Some(ps[0].value)
    else Lookup(ps[1..], name)
  }

  /** The `URLSearchParams` list after the `set` calls, in insertion order. */
  function UpiParams(req: UpiRequest): (ps: seq<Param>)
    ensures forall i, j :: 0 <= i < j < |ps| ==> ps[i].name != ps[j].name
  {
    OriginsMatch(Slots(req), 0);
    SetParams(Slots(req), 0)
  }

  /** The payee address comes first. */
  lemma UpiParamsStartWithPayee(req: UpiRequest)
    ensures |UpiParams(req)| >= 1 && UpiParams(req)[0] == Param("pa", req.upiId)
  {
    var slots := Slots(req);
    assert SetParams(slots, 0) == [Param("pa", req.upiId)] + SetParams(slots, 1);
  }

  /** The payee address, the payee name and the currency are always set. */
  lemma UpiParamsAlwaysSet(req: UpiRequest)
    ensures var ps := UpiParams(req);
            Lookup(ps, "pa") == Some(req.upiId) &&
            Lookup(ps, "pn") == Some(if req.name.Some? then req.name.value else DefaultPayeeName) &&
            Lookup(ps, "cu") == Some("INR")
  {
    SetParamsLookup(Slots(req), 0, 0);
    SetParamsLookup(Slots(req), 0, 1);
    SetParamsLookup(Slots(req), 0, 3);
  }

  /** The amount is set exactly when it is positive, with two decimals. */
  lemma UpiParamsAmount(req: UpiRequest)
    ensures Lookup(UpiParams(req), "am") == (if HasAmount(req) then Some(AmountText(req.amount.value)) else None)
  {
    SetParamsLookup(Slots(req), 0, 2);
  }

  /** The reference is set exactly when it is non-empty. */
  lemma UpiParamsReference(req: UpiRequest)
    ensures Lookup(UpiParams(req), "tr") == (if req.reference != [] then Some(req.reference) else None)
  {
    SetParamsLookup(Slots(req), 0, 4);
  }

  /** The note is set exactly when it is non-empty. */
  lemma UpiParamsNote(req: UpiRequest)
    ensures Lookup(UpiParams(req), "tn") == (if req.note != [] then Some(req.note) else None)
  {
    SetParamsLookup(Slots(req), 0, 5);
  }

  /**
   * The parameters appear in the order of the `set` calls, `pa`, `pn`, `am`,
   * `cu`, `tr`, `tn`, and exactly the calls that were made appear.
   */
  lemma UpiParamsInCallOrder(req: UpiRequest)
    ensures var o := Origins(Slots(req), 0);
            (forall i, j :: 0 <= i < j < |o| ==> o[i] < o[j]) &&
            (forall k :: 0 <= k < 6 && Slots(req)[k].isSet <==> k in o)
  {
    var slots := Slots(req);
    forall k | 0 <= k < 6 && slots[k].isSet
      ensures k in Origins(slots, 0)
    {
      OriginsComplete(slots, 0, k);
    }
  }

  /** `buildUpiUri`. */
  function BuildUpiUri(req: UpiRequest): (uri: string)
    ensures |uri| >= |UpiPrefix| && uri[..|UpiPrefix|] == UpiPrefix
    ensures ParseParams(uri[|UpiPrefix|..]) == Some(UpiParams(req))
  {
    var query := SerializeParams(UpiParams(req));
    ParamsRoundTrip(UpiParams(req));
    assert (UpiPrefix + query)[|UpiPrefix|..] == query;
    UpiPrefix + query
  }

  /** What `generateUpiQrDataUrl` hands to the QR encoder, or the error it raises. */
  datatype QrPayload = MissingUpiId(message: string) | Payload(uri: string)

  /**
   * The guard of `generateUpiQrDataUrl`: a falsy UPI id raises before any
   * link is built; otherwise the link is built without a payee name, so the
   * default name is used.
   */
  function GenerateUpiQr(upiId: string, amount: Option<int>, reference: string, note: string): (r: QrPayload)
    ensures upiId == [] <==> r == MissingUpiId(MissingUpiIdMessage)
    ensures upiId != [] ==> r == Payload(BuildUpiUri(UpiRequest(upiId, amount, None, reference, note)))
  {
    if upiId == [] then MissingUpiId(MissingUpiIdMessage)
    else Payload(BuildUpiUri(UpiRequest(upiId, amount, None, reference, note)))
  }

  /** The link built for a payment always names the payee, the default payee name and INR. */
  lemma PaymentLinkNamesDefaultPayee(upiId: string, amount: Option<int>, reference: string, note: string)
    requires upiId != []
    ensures var r := GenerateUpiQr(upiId, amount, reference, note);
            var ps := ParseParams(r.uri[|UpiPrefix|..]);
            ps.Some? && Lookup(ps.value, "pa") == Some(upiId) &&
            Lookup(ps.value, "pn") == Some(DefaultPayeeName) && Lookup(ps.value, "cu") == Some("INR")
  {
    var req := UpiRequest(upiId, amount, None, reference, note);
    UpiParamsAlwaysSet(req);
  }
}
