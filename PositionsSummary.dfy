/** The summary row of one position
    (packages/augur-ui/src/modules/positions/selectors/positions-summary.ts):
    the position type, the quantity, the cost shown, the currency unit and the
    percentages scaled to hundreds. The formatters themselves are not part of
    this model: a `Money` value records which of `formatDai` and `formatEther`
    receives the amount, and percentages are the numbers `formatPercent` receives. */
module PositionsSummary {
  import opened Common

  /** A JavaScript number-like field: missing, NaN, or a number. */
  datatype JsNum = Undefined | NaN | Num(value: real)

  datatype PositionType = Long | Short | Closed | ClosedLong | ClosedShort

  datatype ReportingState = Finalized | OtherReportingState(name: string)

  datatype Money = Dai(amount: real) | Ether(amount: real)

  datatype PriorPosition = PriorPosition(netPosition: real, avgPrice: real, unrealizedCost: real)

  datatype AdjustedPosition = AdjustedPosition(
    marketId: string, outcomeId: string,
    netPosition: real, averagePrice: real,
    realized: real, unrealized: real, unrealized24: real,
    realizedPercent: JsNum, unrealizedPercent: JsNum, unrealized24HrPercent: JsNum,
    total: JsNum, totalPercent: JsNum, currentValue: real,
    unrealizedCost: real, realizedCost: real,
    unrealizedRevenue24hChangePercent: JsNum,
    priorPosition: Option<PriorPosition>)

  datatype Summary = Summary(
    marketId: string, outcomeId: string, positionType: PositionType, quantity: real,
    purchasePrice: Money, realizedNet: Money, unrealizedNet: Money, unrealized24Hr: Money,
    realizedPercent: real, unrealizedPercent: real, unrealized24HrPercent: real,
    totalCost: Money, totalValue: Money, lastPrice: Option<Money>, totalReturns: Money,
    valueChange: real, totalPercent: real)

  function Abs(x: real): real
  {
    if x < 0.0 then -x else x
  }

  /** JavaScript truthiness of a number-like field. */
  predicate Truthy(v: JsNum)
  {
    v.Num? && v.value != 0.0
  }

  /** `v || ZERO`. */
  function OrZero(v: JsNum): (r: JsNum)
    ensures r.Num?
    ensures Truthy(v) ==> r == v
    ensures !Truthy(v) ==> r == Num(0.0)
  {
    if Truthy(v) then v else Num(0.0)
  }

  /** `timesHundred`: `isNaN` (true of `undefined` and NaN) gives 0, anything else is scaled by 100. */
  function TimesHundred(v: JsNum): (r: real)
    ensures v.Num? ==> r == v.value * 100.0
    ensures !v.Num? ==> r == 0.0
  {
    match v
    case Num(x) => x * 100.0
    case _ => 0.0
  }

  /** The `|| ZERO` default in front of `timesHundred` never changes the result. */
  lemma OrZeroRedundant(v: JsNum)
    ensures TimesHundred(OrZero(v)) == TimesHundred(v)
  {
  }

  /** `formatDai` unless the para token is WETH (`weth` stands for the constant, not part of this model). */
  function Unit(paraTokenName: string, weth: string, amount: real): (r: Money)
    ensures r.amount == amount
    ensures r.Dai? <==> paraTokenName != weth
  {
    if paraTokenName != weth then Dai(amount) else Ether(amount)
  }

  /** The value of a number-like field after `|| ZERO`. */
  function ValueOrZero(v: JsNum): real
  {
    OrZero(v).value
  }

  /** `positionSummary`, the formatters left as `Money` and raw percentages. */
  function PositionSummary(adjusted: Option<AdjustedPosition>, outcomePrice: JsNum, reportingState: ReportingState,
                           isFullLoss: bool, paraTokenName: string, weth: string): (r: Option<Summary>)
    ensures adjusted.None? <==> r.None?
    ensures r.Some? ==> r.value.quantity >= 0.0
  {
    if adjusted.None? then None
    else
      var p := adjusted.value;
      var quantity0 := Abs(p.netPosition);
      var type0 := if p.netPosition >= 0.0 then Long else Short;
      var showRealizedCost := reportingState == Finalized && type0 != Closed;
      var totalCost0 := if showRealizedCost then p.realizedCost else p.unrealizedCost;
      var (positionType, quantity, avgPrice, totalCost) :=
        if quantity0 == 0.0 then
          match p.priorPosition
          case None => (Closed, quantity0, p.averagePrice, totalCost0)
          case Some(prior) =>
            (if prior.netPosition >= 0.0 then ClosedLong else ClosedShort,
             Abs(prior.netPosition), prior.avgPrice, prior.unrealizedCost)
        else if isFullLoss then
          (if p.netPosition >= 0.0 then ClosedLong else ClosedShort, quantity0, p.averagePrice, totalCost0)
        else (type0, quantity0, p.averagePrice, totalCost0);
      var u := (x: real) => Unit(paraTokenName, weth, x);
      Some(Summary(
        p.marketId, p.outcomeId, positionType, quantity,
        u(avgPrice), u(p.realized), u(p.unrealized), u(p.unrealized24),
        TimesHundred(OrZero(p.realizedPercent)), TimesHundred(OrZero(p.unrealizedPercent)),
        TimesHundred(OrZero(p.unrealized24HrPercent)),
        u(totalCost), u(p.currentValue),
        if Truthy(outcomePrice) then Some(u(outcomePrice.value)) else None,
        u(ValueOrZero(p.total)),
        TimesHundred(p.unrealizedRevenue24hChangePercent),
        TimesHundred(OrZero(p.totalPercent))))
  }

  /** The type rules: the sign of a live position, CLOSED_* on a full loss,
      and for a flat position CLOSED or the prior position's closed side. */
  lemma PositionTypeRules(p: AdjustedPosition, outcomePrice: JsNum, reportingState: ReportingState,
                          isFullLoss: bool, paraTokenName: string, weth: string)
    ensures var s := PositionSummary(Some(p), outcomePrice, reportingState, isFullLoss, paraTokenName, weth).value;
      (p.netPosition != 0.0 && !isFullLoss ==> s.positionType == (if p.netPosition > 0.0 then Long else Short)) &&
      (p.netPosition != 0.0 && isFullLoss ==> s.positionType == (if p.netPosition > 0.0 then ClosedLong else ClosedShort)) &&
      (p.netPosition == 0.0 && p.priorPosition.None? ==> s.positionType == Closed) &&
      (p.netPosition == 0.0 && p.priorPosition.Some? ==>
        s.positionType == (if p.priorPosition.value.netPosition >= 0.0 then ClosedLong else ClosedShort))
  {
  }

  /** The quantity is the size of the net position, or of the prior one for a flat position. */
  lemma QuantityRule(p: AdjustedPosition, outcomePrice: JsNum, reportingState: ReportingState,
                     isFullLoss: bool, paraTokenName: string, weth: string)
    ensures var s := PositionSummary(Some(p), outcomePrice, reportingState, isFullLoss, paraTokenName, weth).value;
      (p.netPosition != 0.0 || p.priorPosition.None? ==> s.quantity == Abs(p.netPosition)) &&
      (p.netPosition == 0.0 && p.priorPosition.Some? ==> s.quantity == Abs(p.priorPosition.value.netPosition))
  {
  }

  /** The cost shown: once the market is finalized the realized cost, otherwise
      the unrealized one; a flat position with a prior shows the prior's
      unrealized cost and average price. The `type !== CLOSED` test never fails. */
  lemma CostRule(p: AdjustedPosition, outcomePrice: JsNum, reportingState: ReportingState,
                 isFullLoss: bool, paraTokenName: string, weth: string)
    ensures var s := PositionSummary(Some(p), outcomePrice, reportingState, isFullLoss, paraTokenName, weth).value;
      (p.netPosition != 0.0 || p.priorPosition.None? ==>
        s.totalCost.amount == (if reportingState == Finalized then p.realizedCost else p.unrealizedCost) &&
        s.purchasePrice.amount == p.averagePrice) &&
      (p.netPosition == 0.0 && p.priorPosition.Some? ==>
        s.totalCost.amount == p.priorPosition.value.unrealizedCost &&
        s.purchasePrice.amount == p.priorPosition.value.avgPrice)
  {
  }

  /** Every amount is handed to the same formatter: DAI unless the para token is WETH. */
  lemma UnitRule(p: AdjustedPosition, outcomePrice: JsNum, reportingState: ReportingState,
                 isFullLoss: bool, paraTokenName: string, weth: string)
    ensures var s := PositionSummary(Some(p), outcomePrice, reportingState, isFullLoss, paraTokenName, weth).value;
      var dai := paraTokenName != weth;
      s.purchasePrice.Dai? == dai && s.realizedNet.Dai? == dai && s.unrealizedNet.Dai? == dai &&
      s.unrealized24Hr.Dai? == dai && s.totalCost.Dai? == dai && s.totalValue.Dai? == dai &&
      s.totalReturns.Dai? == dai && (s.lastPrice.Some? ==> s.lastPrice.value.Dai? == dai) &&
      (s.lastPrice.Some? <==> Truthy(outcomePrice))
  {
  }

  /** A live position can be read back from the summary: the type gives the sign and
      the quantity the size. */
  lemma SignedQuantity(p: AdjustedPosition, outcomePrice: JsNum, reportingState: ReportingState,
                       isFullLoss: bool, paraTokenName: string, weth: string)
    requires p.netPosition != 0.0
    ensures var s := PositionSummary(Some(p), outcomePrice, reportingState, isFullLoss, paraTokenName, weth).value;
      p.netPosition == (if s.positionType == Long || s.positionType == ClosedLong then s.quantity else -s.quantity)
  {
  }

  /** The percentages are the inputs times 100, a missing or NaN input reading as 0. */
  lemma PercentRule(p: AdjustedPosition, outcomePrice: JsNum, reportingState: ReportingState,
                    isFullLoss: bool, paraTokenName: string, weth: string)
    ensures var s := PositionSummary(Some(p), outcomePrice, reportingState, isFullLoss, paraTokenName, weth).value;
      s.realizedPercent == TimesHundred(p.realizedPercent) &&
      s.unrealizedPercent == TimesHundred(p.unrealizedPercent) &&
      s.unrealized24HrPercent == TimesHundred(p.unrealized24HrPercent) &&
      s.totalPercent == TimesHundred(p.totalPercent) &&
      s.valueChange == TimesHundred(p.unrealizedRevenue24hChangePercent)
  {
    OrZeroRedundant(p.realizedPercent);
    OrZeroRedundant(p.unrealizedPercent);
    OrZeroRedundant(p.unrealized24HrPercent);
    OrZeroRedundant(p.totalPercent);
  }
}
