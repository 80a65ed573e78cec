/** The buy/sell form of the simplified UI
    (packages/augur-simplified/src/modules/market/trading-form.tsx): when the
    trade button is enabled and what it says, the amount error shown under
    the input, the worst-case output sent with a trade, when an estimate is
    asked for, which balance the amount is checked against and which outcomes
    are shown. Amounts arrive as strings; `Number(...)` and `new BigNumber(...)`
    read them with the decimal grammar below, NaN being `None`. */
module TradingForm {
  import opened Common

  // ---------------------------------------------------------------------
  // Reading decimal strings

  function DigitValue(c: char): Option<nat>
  {
    if '0' <= c <= '9' then Some(c as int - '0' as int) else None
  }

  predicate AllDigits(s: string)
  {
    forall i :: 0 <= i < |s| ==> DigitValue(s[i]).Some?
  }

  function DigitsValue(s: string): nat
    requires AllDigits(s)
  {
    if s == [] then 0 else DigitsValue(s[..|s| - 1]) * 10 + DigitValue(s[|s| - 1]).value
  }

  function Pow10(n: nat): (r: nat)
    ensures r >= 1
  {
    if n == 0 then 1 else 10 * Pow10(n - 1)
  }

  /** The position of the first `.`, or `|s|` when there is none. */
  function DotIndex(s: string): (k: nat)
    ensures k <= |s|
    ensures forall i :: 0 <= i < k ==> s[i] != '.'
    ensures k < |s| ==> s[k] == '.'
  {
    if s == [] then 0
    else if s[0] == '.' then 0
    else 1 + DotIndex(s[1..])
  }

  /** An unsigned decimal: digits, optionally a point and more digits, with at least one digit. */
  function UnsignedDecimal(s: string): Option<real>
  {
    var k := DotIndex(s);
    var whole, frac := s[..k], if k < |s| then s[k + 1..] else "";
    if AllDigits(whole) && AllDigits(frac) && |whole| + |frac| > 0 then
      Some(DigitsValue(whole) as real + DigitsValue(frac) as real / Pow10(|frac|) as real)
    else None
  }

  /** An optionally signed decimal; anything else is NaN. */
  function ParseDecimal(s: string): Option<real>
  {
    if |s| > 0 && s[0] == '-' then
      match UnsignedDecimal(s[1..])
      case Some(v) => Some(-v)
      case None => None
    else if |s| > 0 && s[0] == '+' then UnsignedDecimal(s[1..])
    else UnsignedDecimal(s)
  }

  /** `Number(s)`: the empty string is 0. */
  function ToNumber(s: string): (r: Option<real>)
    ensures s == "" ==> r == Some(0.0)
    ensures s != "" ==> r == ParseDecimal(s)
  {
    if s == "" then Some(0.0) else ParseDecimal(s)
  }

  /** `new BigNumber(s)`: the empty string and `undefined` are NaN. */
  function ToBN(s: Option<string>): (r: Option<real>)
    ensures s == Some("") ==> r.None?
    ensures s.None? ==> r.None?
    ensures s.Some? && s.value != "" ==> r == ToNumber(s.value)
  {
    match s
    case None => None
    case Some(t) => ParseDecimal(t)
  }

  /** Within the modelled decimal grammar the two readings differ only on the empty string. */
  lemma NumberAgreesWithBN(s: string)
    requires s != ""
    ensures ToNumber(s) == ToBN(Some(s))
  {
  }

  /** A digit string reads as its value; a leading minus negates it. */
  lemma {:induction false} ParseDigits(ds: string)
    requires AllDigits(ds) && ds != ""
    ensures ParseDecimal(ds) == Some(DigitsValue(ds) as real)
    ensures ParseDecimal("-" + ds) == Some(-(DigitsValue(ds) as real))
  {
    AllDigitsHasNoDot(ds);
    assert ds[..|ds|] == ds;
    var neg := "-" + ds;
    assert neg[1..] == ds;
  }

  lemma DotAfterDigits(d: string, f: string)
    requires AllDigits(d)
    ensures DotIndex(d + "." + f) == |d|
  {
    var s := d + "." + f;
    assert s[|d|] == '.';
    forall i | 0 <= i < |d| ensures s[i] != '.' {
      assert s[i] == d[i];
      assert DigitValue(d[i]).Some?;
    }
  }

  /** d + f / 10^|f|. */
  function FractionValue(d: string, f: string): real
    requires AllDigits(d) && AllDigits(f)
  {
    DigitsValue(d) as real + DigitsValue(f) as real / Pow10(|f|) as real
  }

  lemma UnsignedFraction(d: string, f: string)
    requires AllDigits(d) && AllDigits(f) && |d| + |f| > 0
    ensures UnsignedDecimal(d + "." + f) == Some(FractionValue(d, f))
  {
    var s := d + "." + f;
    DotAfterDigits(d, f);
    var k := DotIndex(s);
    assert k < |s|;
    var whole, frac := s[..k], s[k + 1..];
    assert whole == d;
    assert frac == f;
  }

  /** A leading minus negates any unsigned decimal. */
  lemma ParseNegated(t: string, v: real)
    requires UnsignedDecimal(t) == Some(v)
    ensures ParseDecimal("-" + t) == Some(-v)
  {
    assert ("-" + t)[1..] == t;
  }

  /** A fraction `d.f` reads as d + f / 10^|f|, either part possibly empty but not both. */
  lemma ParseFraction(d: string, f: string)
    requires AllDigits(d) && AllDigits(f) && |d| + |f| > 0
    ensures UnsignedDecimal(d + "." + f) == Some(FractionValue(d, f))
    ensures ParseDecimal(d + "." + f) == Some(FractionValue(d, f))
  {
    var s := d + "." + f;
    UnsignedFraction(d, f);
    if |d| > 0 {
      assert s[0] == d[0];
      assert DigitValue(d[0]).Some?;
    }
  }

  lemma {:induction false} AllDigitsHasNoDot(ds: string)
    requires AllDigits(ds)
    ensures DotIndex(ds) == |ds|
  {
    if ds != [] {
      assert DigitValue(ds[0]).Some?;
      assert AllDigits(ds[1..]) by {
        forall i | 0 <= i < |ds| - 1 ensures DigitValue(ds[1..][i]).Some? {
          assert ds[1..][i] == ds[i + 1];
        }
      }
      AllDigitsHasNoDot(ds[1..]);
    }
  }

  // ---------------------------------------------------------------------
  // errorCheck

  datatype AmountError = NoError | ErrorAmount

  /** The amount error: non-empty and not a positive number. */
  function ErrorCheck(value: string): (r: AmountError)
    ensures value == "" ==> r == NoError
    ensures r == ErrorAmount <==> value != "" && (ToNumber(value).None? || ToNumber(value).value <= 0.0)
  {
    var n := ToNumber(value);
    if value != "" && (n.None? || n.value == 0.0 || n.value < 0.0) then ErrorAmount else NoError
  }

  // ---------------------------------------------------------------------
  // canMakeTrade

  datatype OrderType = Buy | Sell

  datatype ActionText = EnterAmount | InsufficientBalance | OverSlippage | ButtonErrorText(message: string) | OrderTypeText(orderType: OrderType)

  datatype CanTrade = CanTrade(disabled: bool, actionText: ActionText)

  /** `a.gt(b)` on two BigNumbers: false when either is NaN. */
  predicate BNGreater(a: Option<real>, b: Option<real>)
  {
    a.Some? && b.Some? && a.value > b.value
  }

  /** `Number(amount) === 0 || isNaN(Number(amount)) || amount === ''`. */
  predicate NoAmount(amount: string)
  {
    ToNumber(amount) == Some(0.0) || ToNumber(amount).None? || amount == ""
  }

  /** The `amount === ''` test is already covered by the `Number` test. */
  lemma EmptyAmountTestRedundant(amount: string)
    ensures NoAmount(amount) <==> ToNumber(amount) == Some(0.0) || ToNumber(amount).None?
  {
  }

  /** `slippage || SETTINGS_SLIPPAGE` (the constant, not part of this model, is `settingsSlippage`). */
  function SlippageSetting(slippage: Option<string>, settingsSlippage: string): string
  {
    if Truthy(slippage) then slippage.value else settingsSlippage
  }

  function CanMakeTrade(amount: string, userBalance: Option<string>, slippage: Option<string>, settingsSlippage: string,
                        slippagePercent: Option<string>, buttonError: string, orderType: OrderType): (r: CanTrade)
    ensures r.actionText == EnterAmount <==> NoAmount(amount)
    ensures r.actionText == InsufficientBalance <==>
      !NoAmount(amount) && BNGreater(ToBN(Some(amount)), ToBN(userBalance))
    ensures r.actionText == OverSlippage <==>
      !NoAmount(amount) && !BNGreater(ToBN(Some(amount)), ToBN(userBalance)) &&
      BNGreater(ToBN(slippagePercent), ToBN(Some(SlippageSetting(slippage, settingsSlippage))))
    ensures r.disabled <==> r.actionText in {EnterAmount, InsufficientBalance, OverSlippage}
    ensures !r.disabled ==> r.actionText == (if buttonError != "" then ButtonErrorText(buttonError) else OrderTypeText(orderType))
  {
    var actionText := if buttonError != "" then ButtonErrorText(buttonError) else OrderTypeText(orderType);
    if ToNumber(amount) == Some(0.0) || ToNumber(amount).None? || amount == "" then CanTrade(true, EnterAmount)
    else if BNGreater(ToBN(Some(amount)), ToBN(userBalance)) then CanTrade(true, InsufficientBalance)
    else if BNGreater(ToBN(slippagePercent), ToBN(Some(SlippageSetting(slippage, settingsSlippage)))) then CanTrade(true, OverSlippage)
    else CanTrade(false, actionText)
  }

  /** The input's error check and the button disagree on negative amounts: the
      input shows the amount error, while the button passes the amount check
      and, against a non-negative balance, the balance check too. */
  lemma NegativeAmountPassesButtonChecks(amount: string, userBalance: Option<string>, slippage: Option<string>,
                                         settingsSlippage: string, slippagePercent: Option<string>,
                                         buttonError: string, orderType: OrderType)
    requires ToNumber(amount).Some? && ToNumber(amount).value < 0.0
    requires ToBN(userBalance).Some? && ToBN(userBalance).value >= 0.0
    ensures ErrorCheck(amount) == ErrorAmount
    ensures var r := CanMakeTrade(amount, userBalance, slippage, settingsSlippage, slippagePercent, buttonError, orderType);
      r.actionText != EnterAmount && r.actionText != InsufficientBalance
  {
    NumberAgreesWithBN(amount);
  }

  /** The concrete case: "-1" against a balance of "0". */
  lemma MinusOneAgainstZeroBalance(slippage: Option<string>, settingsSlippage: string, slippagePercent: Option<string>,
                                   buttonError: string, orderType: OrderType)
    ensures ErrorCheck("-1") == ErrorAmount
    ensures var r := CanMakeTrade("-1", Some("0"), slippage, settingsSlippage, slippagePercent, buttonError, orderType);
      r.actionText != EnterAmount && r.actionText != InsufficientBalance
  {
    ParseDigits("1");
    ParseDigits("0");
    assert "-" + "1" == "-1";
    NegativeAmountPassesButtonChecks("-1", Some("0"), slippage, settingsSlippage, slippagePercent, buttonError, orderType);
  }

  /** A positive amount the input accepts passes the button's amount check. */
  lemma AcceptedAmountPassesAmountCheck(amount: string)
    requires amount != "" && ErrorCheck(amount) == NoError
    ensures !NoAmount(amount)
  {
  }

  // ---------------------------------------------------------------------
  // makeTrade: the worst-case output

  /** `decimalPlaces(0)` under BigNumber's default ROUND_HALF_UP: to the nearest
      integer, halves away from zero. */
  function RoundHalfUp(x: real): int
  {
    if x >= 0.0 then (x + 0.5).Floor else -((-x + 0.5).Floor)
  }

  /** `ROUND_HALF_UP`: the nearest integer, and at an exact half the one away from zero. */
  lemma RoundHalfUpNearest(x: real)
    ensures RoundHalfUp(x) as real - 0.5 <= x <= RoundHalfUp(x) as real + 0.5
    ensures x >= 0.0 ==> RoundHalfUp(x) as real - 0.5 <= x < RoundHalfUp(x) as real + 0.5
    ensures x < 0.0 ==> RoundHalfUp(x) as real - 0.5 < x <= RoundHalfUp(x) as real + 0.5
    ensures x >= 0.0 ==> RoundHalfUp(x) >= 0
  {
  }

  /** A tie is rounded up above zero and down below it. */
  lemma RoundHalfUpTies(x: real)
    ensures RoundHalfUp(x) as real - x == 0.5 ==> x > 0.0
    ensures x - RoundHalfUp(x) as real == 0.5 ==> x < 0.0
  {
    RoundHalfUpNearest(x);
  }

  lemma RoundHalfUpMonotone(x: real, y: real)
    requires x <= y
    ensures RoundHalfUp(x) <= RoundHalfUp(y)
  {
    if x < 0.0 && y >= 0.0 {
      assert -x + 0.5 >= 0.0;
    }
  }

  /** The output scaled down by a slippage percentage. */
  function AfterSlippage(output: real, slippage: real): real
  {
    output * (1.0 - slippage / 100.0)
  }

  /** `String(new BN(minOutput).times(1 - slippage / 100).decimalPlaces(0))`, NaN as None.
      This reads the raw `slippage` setting, without the default `canMakeTrade` uses. */
  function WorstCaseOutput(outputAmount: Option<string>, slippage: Option<string>): (r: Option<int>)
    ensures r.Some? <==> ToBN(outputAmount).Some? && ToBN(slippage).Some?
    ensures r.Some? ==>
      var exact := AfterSlippage(ToBN(outputAmount).value, ToBN(slippage).value);
      (exact >= 0.0 ==> r.value as real - 0.5 <= exact < r.value as real + 0.5) &&
      (exact < 0.0 ==> r.value as real - 0.5 < exact <= r.value as real + 0.5)
  {
    var out, sl := ToBN(outputAmount), ToBN(slippage);
    if out.Some? && sl.Some? then
      var exact := AfterSlippage(out.value, sl.value);
      RoundHalfUpNearest(exact);
      Some(RoundHalfUp(exact))
    else None
  }

  lemma AfterSlippageBounds(output: real, slippage: real)
    requires output >= 0.0 && 0.0 <= slippage <= 100.0
    ensures 0.0 <= AfterSlippage(output, slippage) <= output
  {
    var f := 1.0 - slippage / 100.0;
    assert 0.0 <= f <= 1.0;
    assert output * f <= output * 1.0;
  }

  /** With a slippage between 0 and 100 percent the worst case lies between 0 and the rounded estimate. */
  lemma WorstCaseWithinEstimate(outputAmount: Option<string>, slippage: Option<string>)
    requires ToBN(outputAmount).Some? && ToBN(outputAmount).value >= 0.0
    requires ToBN(slippage).Some? && 0.0 <= ToBN(slippage).value <= 100.0
    ensures 0 <= WorstCaseOutput(outputAmount, slippage).value <= RoundHalfUp(ToBN(outputAmount).value)
  {
    var out, sl := ToBN(outputAmount).value, ToBN(slippage).value;
    var exact := AfterSlippage(out, sl);
    AfterSlippageBounds(out, sl);
    RoundHalfUpNearest(exact);
    RoundHalfUpMonotone(exact, out);
  }

  // ---------------------------------------------------------------------
  // The estimate trigger and the default breakdowns

  datatype InfoNumber = InfoNumber(title: string, value: string, tooltip: Option<(string, string)>)

  /** The fields an enter-trade estimate contributes to the breakdown (`""` where missing). */
  datatype EnterEstimate = EnterEstimate(averagePrice: string, outputShares: string, maxProfit: string, tradeFees: string)
  datatype ExitEstimate = ExitEstimate(averagePrice: string, outputCash: string, remainingShares: string, estimateFees: string)

  function OrDefault(s: string, d: string): string
  {
    if s != "" then s else d
  }

  /** `getEnterBreakdown`: each value or its placeholder. */
  function EnterBreakdown(b: Option<EnterEstimate>): (r: seq<InfoNumber>)
    ensures |r| == 4
    ensures b.None? ==> r[0].value == "$0.00" && r[1].value == "0.00" && r[2].value == "$0.00" && r[3].value == "$0.00"
  {
    var e := if b.Some? then b.value else EnterEstimate("", "", "", "");
    [InfoNumber("average price", OrDefault(e.averagePrice, "$0.00"), Some(("tooltip copy", "averagePrice"))),
     InfoNumber("shares bought", OrDefault(e.outputShares, "0.00"), None),
     InfoNumber("max winnings", OrDefault(e.maxProfit, "$0.00"), None),
     InfoNumber("Estimated Fees", OrDefault(e.tradeFees, "$0.00"), None)]
  }

  /** `getExitBreakdown`: each value or its placeholder. */
  function ExitBreakdown(b: Option<ExitEstimate>): (r: seq<InfoNumber>)
    ensures |r| == 4
    ensures b.None? ==> r[0].value == "$0.00" && r[1].value == "0.00" && r[2].value == "0.00" && r[3].value == "$0.00"
  {
    var e := if b.Some? then b.value else ExitEstimate("", "", "", "");
    [InfoNumber("Average Price", OrDefault(e.averagePrice, "$0.00"), Some(("tooltip copy", "averagePrice"))),
     InfoNumber("Amount You'll Recieve", OrDefault(e.outputCash, "0.00"), None),
     InfoNumber("Remaining Shares", OrDefault(e.remainingShares, "0.00"), None),
     InfoNumber("Estimated Fees", OrDefault(e.estimateFees, "$0.00"), None)]
  }

  datatype EstimateEffect = RequestEstimate | ResetBreakdown(breakdown: seq<InfoNumber>)

  /** The effect run on a change of order type, outcome or amount: ask for an
      estimate when the outcome id is truthy and the amount a positive number,
      otherwise show the empty breakdown of the current side. */
  function OnTradeInputsChange(orderType: OrderType, selectedOutcomeId: int, amount: string): (r: EstimateEffect)
    ensures r == RequestEstimate <==>
      selectedOutcomeId != 0 && amount != "" && ToNumber(amount).Some? && ToNumber(amount).value > 0.0
    ensures r.ResetBreakdown? ==> r.breakdown == (if orderType == Buy then EnterBreakdown(None) else ExitBreakdown(None))
  {
    var n := ToNumber(amount);
    if selectedOutcomeId != 0 && amount != "" && n.Some? && n.value > 0.0 then RequestEstimate
    else if orderType == Buy then ResetBreakdown(EnterBreakdown(None))
    else ResetBreakdown(ExitBreakdown(None))
  }

  /** An estimate is only asked for an amount the input accepts and the button's amount check passes. */
  lemma EstimateOnlyForValidAmount(orderType: OrderType, selectedOutcomeId: int, amount: string)
    requires OnTradeInputsChange(orderType, selectedOutcomeId, amount) == RequestEstimate
    ensures ErrorCheck(amount) == NoError && !NoAmount(amount)
  {
  }

  // ---------------------------------------------------------------------
  // userBalance

  datatype MarketShares = MarketShares(outcomeShares: Option<map<int, string>>)

  /** The balances the form reads: cash balances by cash name, and the share
      balances by AMM id (`balances.marketShares`, possibly missing). */
  datatype Balances = Balances(cash: map<string, string>, marketShares: Option<map<string, MarketShares>>)

  /** The balance the amount is checked against; None where the code reads `undefined`. */
  function UserBalance(orderType: OrderType, cashName: Option<string>, ammId: string, selectedOutcomeId: int, balances: Balances): (r: Option<string>)
    ensures orderType == Buy && !Truthy(cashName) ==> r == Some("0")
    ensures orderType == Buy && Truthy(cashName) ==>
      r == (if cashName.value in balances.cash then Some(balances.cash[cashName.value]) else None)
    ensures orderType == Sell ==>
      (if balances.marketShares.Some? && ammId in balances.marketShares.value &&
          balances.marketShares.value[ammId].outcomeShares.Some?
       then r == (var shares := balances.marketShares.value[ammId].outcomeShares.value;
                  if selectedOutcomeId in shares then Some(shares[selectedOutcomeId]) else None)
       else r == Some("0"))
  {
    if orderType == Buy then
      if Truthy(cashName) then
        (if cashName.value in balances.cash then Some(balances.cash[cashName.value]) else None)
      else Some("0")
    else if balances.marketShares.Some? && ammId in balances.marketShares.value then
      match balances.marketShares.value[ammId].outcomeShares
      case Some(shares) => if selectedOutcomeId in shares then Some(shares[selectedOutcomeId]) else None
      case None => Some("0")
    else Some("0")
  }

  // ---------------------------------------------------------------------
  // OutcomesGrid

  datatype Outcome = Outcome(id: int, name: string, isInvalid: bool)

  predicate IsValidOutcome(o: Outcome)
  {
    !o.isInvalid
  }

  function Reverse<T>(xs: seq<T>): (r: seq<T>)
    ensures |r| == |xs|
    ensures forall i :: 0 <= i < |xs| ==> r[i] == xs[|xs| - 1 - i]
  {
    if xs == [] then [] else Reverse(xs[1..]) + [xs[0]]
  }

  /** `outcomes.filter(o => !o.isInvalid).reverse()`. */
  function VisibleOutcomes(outcomes: seq<Outcome>): seq<Outcome>
  {
    Reverse(Filter(IsValidOutcome, outcomes))
  }

  /** Reversing keeps the members. */
  lemma ReverseMembers<T>(xs: seq<T>)
    ensures forall x :: x in Reverse(xs) <==> x in xs
  {
    var r := Reverse(xs);
    forall x | x in r ensures x in xs {
      var i :| 0 <= i < |r| && r[i] == x;
      assert xs[|xs| - 1 - i] == x;
    }
    forall x | x in xs ensures x in r {
      var i :| 0 <= i < |xs| && xs[i] == x;
      assert r[|xs| - 1 - i] == x;
    }
  }

  /** The grid shows every valid outcome and no invalid one. */
  lemma VisibleOutcomesShown(outcomes: seq<Outcome>)
    ensures var v := VisibleOutcomes(outcomes);
      (forall i :: 0 <= i < |v| ==> !v[i].isInvalid && v[i] in outcomes) &&
      (forall i :: 0 <= i < |outcomes| && !outcomes[i].isInvalid ==> outcomes[i] in v)
  {
    var f := Filter(IsValidOutcome, outcomes);
    var v := VisibleOutcomes(outcomes);
    ReverseMembers(f);
    forall i | 0 <= i < |v| ensures !v[i].isInvalid && v[i] in outcomes {
      assert v[i] in f;
      var k :| 0 <= k < |f| && f[k] == v[i];
      assert IsValidOutcome(f[k]);
    }
    forall i | 0 <= i < |outcomes| && !outcomes[i].isInvalid ensures outcomes[i] in v {
      assert IsValidOutcome(outcomes[i]);
    }
  }

  lemma ReverseInvolution<T>(xs: seq<T>)
    ensures Reverse(Reverse(xs)) == xs
  {
    var r := Reverse(Reverse(xs));
    forall i | 0 <= i < |xs| ensures r[i] == xs[i] {
      assert Reverse(xs)[|xs| - 1 - i] == xs[i];
    }
  }

  /** The grid is the valid outcomes in reverse order: read back to front it is
      exactly the filtered list, so a subsequence of the outcomes. */
  lemma VisibleOutcomesInOrder(outcomes: seq<Outcome>)
    ensures Reverse(VisibleOutcomes(outcomes)) == Filter(IsValidOutcome, outcomes)
    ensures Subsequence(Reverse(VisibleOutcomes(outcomes)), outcomes)
  {
    ReverseInvolution(Filter(IsValidOutcome, outcomes));
    FilterIsSubsequence(IsValidOutcome, outcomes);
  }

  /** `DefaultMarketOutcomes`: yes, No and the invalid outcome. */
  const DefaultMarketOutcomes: seq<Outcome> :=
    [Outcome(0, "yes", false), Outcome(1, "No", false), Outcome(2, "Invalid", true)]

  /** For the default outcomes the grid shows No, then yes. */
  lemma DefaultOutcomesGrid()
    ensures VisibleOutcomes(DefaultMarketOutcomes) == [DefaultMarketOutcomes[1], DefaultMarketOutcomes[0]]
  {
    var o := DefaultMarketOutcomes;
    assert Filter(IsValidOutcome, o[2..]) == [];
    assert Filter(IsValidOutcome, o[1..]) == [o[1]];
    assert Filter(IsValidOutcome, o) == [o[0], o[1]];
    assert Reverse([o[1]]) == [o[1]];
  }

  /** Without invalid outcomes the grid lists the outcomes last first. */
  lemma VisibleOutcomesOrder(outcomes: seq<Outcome>)
    requires forall i :: 0 <= i < |outcomes| ==> !outcomes[i].isInvalid
    ensures |VisibleOutcomes(outcomes)| == |outcomes|
    ensures forall i :: 0 <= i < |outcomes| ==> VisibleOutcomes(outcomes)[i] == outcomes[|outcomes| - 1 - i]
  {
    FilterAll(IsValidOutcome, outcomes);
  }
}
