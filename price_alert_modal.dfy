/**
 * The price-alert dialog: a target price, an above/below condition and,
 * in the current version, an optional automatic trade. Setting the alert
 * checks the fields, posts them, and reports the server's answer; closing
 * the dialog resets its fields.
 */
module PriceAlertModal {
  import opened Wrappers
  import Js
  import AlertEngine

  const InvalidPrice: string := "Please enter a valid target price."
  const InvalidQuantity: string := "Auto-trade quantity must be at least 1."
  const PostFailed: string := "Failed to set price alert."

  datatype Toast = ToastSuccess(text: string) | ToastWarn(text: string) | ToastError(text: string)

  /** The posted body: ticker, parsed target and condition, and the trade keys when automatic trading is on. */
  datatype Payload = Payload(ticker: string, targetPrice: real, condition: string, auto: Option<(string, Js.Number)>)

  /** The price field is refused when empty or when it does not parse as a number. */
  predicate PriceRefused(text: string, parseFloat: string -> Js.Number)
  {
    text == "" || parseFloat(text).NaN?
  }

  /**
   * The alert endpoint's reading of a posted body: its request model has a
   * ticker, a target price and a condition, so the trade keys are dropped
   * before the body reaches the alert service.
   */
  function AsRequest(p: Payload): AlertEngine.ServiceAlert
  {
    AlertEngine.ServiceAlert(p.ticker, p.targetPrice, p.condition)
  }

  /**
   * What the endpoint does with a body the dialog posts: the alert is
   * appended with the dialog's ticker, target and condition exactly when
   * its "ticker-condition-price" id has not fired yet, and refused as
   * recently triggered otherwise. The trade keys make no difference: the
   * same body without them gets the same answer.
   */
  lemma PayloadRegisters(alerts: seq<AlertEngine.ServiceAlert>, triggered: set<string>, p: Payload, priceText: real -> string)
    ensures var (after, reply) := AlertEngine.Registration(alerts, triggered, AsRequest(p), priceText);
      && (reply.success <==> p.ticker + "-" + p.condition + "-" + priceText(p.targetPrice) !in triggered)
      && (reply.success ==> after == alerts + [AlertEngine.ServiceAlert(p.ticker, p.targetPrice, p.condition)])
      && (!reply.success ==> after == alerts && reply.message == AlertEngine.RecentlyTriggered)
      && AlertEngine.Registration(alerts, triggered, AsRequest(p.(auto := None)), priceText) == (after, reply)
  {
  }

  class AlertModal {
    const ticker: string
    var targetPrice: string
    var condition: string
    var autoTrade: bool
    var tradeAction: string
    var tradeQuantity: Js.Number

    /** A dialog for `ticker0`, with every field at its default. */
    constructor(ticker0: string)
      ensures ticker == ticker0 && Defaults()
    {
      ticker := ticker0;
      targetPrice := "";
      condition := "above";
      autoTrade := false;
      tradeAction := "buy";
      tradeQuantity := Js.Finite(1.0);
    }

    /** The fields as a fresh or closed dialog shows them. */
    predicate Defaults()
      reads this
    {
      targetPrice == "" && condition == "above" && !autoTrade && tradeAction == "buy" && tradeQuantity == Js.Finite(1.0)
    }

    /**
     * `handleSetAlert`. `reply` is the server's answer, `None` for a failed
     * request. It returns the body posted (if any), the toast shown and
     * whether the parent's close callback ran; the dialog's own fields are
     * not reset here.
     */
    method SetAlert(parseFloat: string -> Js.Number, reply: Option<AlertEngine.AlertReply>)
      returns (request: Option<Payload>, toast: Toast, closed: bool)
      ensures PriceRefused(targetPrice, parseFloat) ==> request.None? && toast == ToastError(InvalidPrice) && !closed
      ensures !PriceRefused(targetPrice, parseFloat) && autoTrade && Js.LessThanOne(tradeQuantity) ==>
        request.None? && toast == ToastError(InvalidQuantity) && !closed
      ensures request.Some? <==> !PriceRefused(targetPrice, parseFloat) && !(autoTrade && Js.LessThanOne(tradeQuantity))
      ensures request.Some? ==>
        && request.value.ticker == ticker
        && parseFloat(targetPrice) == Js.Finite(request.value.targetPrice)
        && request.value.condition == condition
        && (request.value.auto.Some? <==> autoTrade)
        && (autoTrade ==> request.value.auto == Some((tradeAction, tradeQuantity)))
      ensures request.Some? ==> (closed <==> reply.Some? && reply.value.success)
      ensures request.Some? && reply.Some? ==>
        toast == (if reply.value.success then ToastSuccess(reply.value.message) else ToastWarn(reply.value.message))
      ensures request.Some? && reply.None? ==> toast == ToastError(PostFailed)
    {
      closed := false;
      var price := parseFloat(targetPrice);
      if targetPrice == "" || price.NaN? {
        return None, ToastError(InvalidPrice), false;
      }
      var payload := Payload(ticker, price.v, condition, None);
      if autoTrade {
        if Js.LessThanOne(tradeQuantity) {
          return None, ToastError(InvalidQuantity), false;
        }
        payload := payload.(auto := Some((tradeAction, tradeQuantity)));
      }
      request := Some(payload);
      match reply {
        case None =>
          toast := ToastError(PostFailed);
        case Some(r) =>
          if r.success {
            toast := ToastSuccess(r.message);
            closed := true;
          } else {
            toast := ToastWarn(r.message);
          }
      }
    }

    /** `handleClose`: every field back to its default before the parent closes the dialog. */
    method Close()
      modifies this
      ensures Defaults()
    {
      targetPrice := "";
      condition := "above";
      autoTrade := false;
      tradeAction := "buy";
      tradeQuantity := Js.Finite(1.0);
    }

    method OnTargetPriceChange(text: string)
      modifies this
      ensures targetPrice == text
      ensures condition == old(condition) && autoTrade == old(autoTrade)
      ensures tradeAction == old(tradeAction) && tradeQuantity == old(tradeQuantity)
    {
      targetPrice := text;
    }

    /** The condition buttons: a click that deselects (no value) keeps the condition. */
    method OnConditionChange(selection: Option<string>)
      modifies this
      ensures condition == (if Js.TruthyStr(selection) then selection.value else old(condition))
      ensures targetPrice == old(targetPrice) && autoTrade == old(autoTrade)
      ensures tradeAction == old(tradeAction) && tradeQuantity == old(tradeQuantity)
    {
      if Js.TruthyStr(selection) {
        condition := selection.value;
      }
    }

    method OnAutoTradeChange(checked: bool)
      modifies this
      ensures autoTrade == checked
      ensures targetPrice == old(targetPrice) && condition == old(condition)
      ensures tradeAction == old(tradeAction) && tradeQuantity == old(tradeQuantity)
    {
      autoTrade := checked;
    }

    /** The buy/sell buttons: a click that deselects keeps the action. */
    method OnActionChange(selection: Option<string>)
      modifies this
      ensures tradeAction == (if Js.TruthyStr(selection) then selection.value else old(tradeAction))
      ensures targetPrice == old(targetPrice) && condition == old(condition)
      ensures autoTrade == old(autoTrade) && tradeQuantity == old(tradeQuantity)
    {
      if Js.TruthyStr(selection) {
        tradeAction := selection.value;
      }
    }

    /** The quantity field holds `Number(text)`; `toNumber` is that conversion. */
    method OnQuantityChange(text: string, toNumber: string -> Js.Number)
      modifies this
      ensures tradeQuantity == toNumber(text)
      ensures targetPrice == old(targetPrice) && condition == old(condition)
      ensures autoTrade == old(autoTrade) && tradeAction == old(tradeAction)
    {
      tradeQuantity := toNumber(text);
    }
  }

  /** The body the older dialog posts: no trade keys, and the condition as the buttons left it. */
  datatype LegacyPayload = LegacyPayload(ticker: string, targetPrice: real, condition: Option<string>)

  /**
   * The endpoint's reading of the older dialog's body: a missing condition
   * (JSON `null`) is not a string, so the request is rejected before it
   * reaches the alert service, and the dialog's request fails.
   */
  function LegacyAsRequest(p: LegacyPayload): Option<AlertEngine.ServiceAlert>
  {
    if p.condition.Some? then Some(AlertEngine.ServiceAlert(p.ticker, p.targetPrice, p.condition.value)) else None
  }

  /**
   * The older dialog's body is refused by the endpoint exactly when the
   * condition was deselected; otherwise it registers as the current
   * dialog's body with the same fields and no automatic trade does.
   */
  lemma LegacyPayloadRegisters(p: LegacyPayload)
    ensures LegacyAsRequest(p).None? <==> p.condition.None?
    ensures p.condition.Some? ==>
      LegacyAsRequest(p) == Some(AsRequest(Payload(p.ticker, p.targetPrice, p.condition.value, None)))
  {
  }

  /**
   * The older dialog: only a target price and a condition. Its condition
   * buttons store whatever they report, so deselecting the chosen button
   * leaves no condition (JSON `null`); closing does not reset its fields.
   */
  class LegacyAlertModal {
    const ticker: string
    var targetPrice: string
    var condition: Option<string>

    constructor(ticker0: string)
      ensures ticker == ticker0 && targetPrice == "" && condition == Some("above")
    {
      ticker := ticker0;
      targetPrice := "";
      condition := Some("above");
    }

    method OnTargetPriceChange(text: string)
      modifies this
      ensures targetPrice == text && condition == old(condition)
    {
      targetPrice := text;
    }

    method OnConditionChange(selection: Option<string>)
      modifies this
      ensures condition == selection && targetPrice == old(targetPrice)
    {
      condition := selection;
    }

    /** `handleSetAlert` of the older dialog: the same price check and replies, without a trade. */
    method SetAlert(parseFloat: string -> Js.Number, reply: Option<AlertEngine.AlertReply>)
      returns (request: Option<LegacyPayload>, toast: Toast, closed: bool)
      ensures PriceRefused(targetPrice, parseFloat) ==> request.None? && toast == ToastError(InvalidPrice) && !closed
      ensures request.Some? <==> !PriceRefused(targetPrice, parseFloat)
      ensures request.Some? ==>
        && request.value.ticker == ticker
        && parseFloat(targetPrice) == Js.Finite(request.value.targetPrice)
        && request.value.condition == condition
      ensures request.Some? ==> (closed <==> reply.Some? && reply.value.success)
      ensures request.Some? && reply.Some? ==>
        toast == (if reply.value.success then ToastSuccess(reply.value.message) else ToastWarn(reply.value.message))
      ensures request.Some? && reply.None? ==> toast == ToastError(PostFailed)
    {
      closed := false;
      var price := parseFloat(targetPrice);
      if targetPrice == "" || price.NaN? {
        return None, ToastError(InvalidPrice), false;
      }
      request := Some(LegacyPayload(ticker, price.v, condition));
      match reply {
        case None =>
          toast := ToastError(PostFailed);
        case Some(r) =>
          if r.success {
            toast := ToastSuccess(r.message);
            closed := true;
          } else {
            toast := ToastWarn(r.message);
          }
      }
    }
  }
}
