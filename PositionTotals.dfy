/** Complete-set share totals read from event logs, the effective price of a
    complete set, the adjustment of an on-chain position by those totals, and
    the net effective trades they amount to (src/modules/positions.js).

    Log topics are the hex strings of the eth_getLogs answer; unmarshalled
    data comes in already decoded as integer words; BigNumber values are
    exact reals. */
module PositionTotals {
  import opened Common

  /** A market id: the hex topic string of a log, used as an object key. */
  type MarketId = string
  /** An outcome id: a data word decoded from a log. */
  type OutcomeId = int
  /** The outcome keys of an on-chain position object. */
  type OutcomeKey = string

  /** The fixed-point scale that `abi.unfix` divides by. */
  const FIXED_ONE: real := 1000000000000000000.0

  function Unfix(w: int): real
  {
    w as real / FIXED_ONE
  }

  function Abs(x: real): real
  {
    if x < 0.0 then -x else x
  }

  function Max(a: real, b: real): real
  {
    if a < b then b else a
  }

  /** One entry of an eth_getLogs answer: the raw `data` string, the topic
      strings, and the result of `rpc.unmarshal(data)` as decoded words
      (`None` when the unmarshalled value is falsy). */
  datatype Log = Log(data: string, topics: seq<string>, words: Option<seq<int>>)

  /** The guard `logs[i] && logs[i].data && logs[i].data !== "0x"`. */
  predicate Relevant(log: Option<Log>)
  {
    log.Some? && log.value.data != "" && log.value.data != "0x"
  }

  /** The guard `logData && logData.length`. */
  predicate HasWords(l: Log)
  {
    l.words.Some? && |l.words.value| > 0
  }

  // ---------------------------------------------------------------------
  // parseInt(s, 16)

  function HexDigit(c: char): Option<nat>
  {
    if '0' <= c <= '9' then Some(c as int - '0' as int)
    else if 'a' <= c <= 'f' then Some(c as int - 'a' as int + 10)
    else if 'A' <= c <= 'F' then Some(c as int - 'A' as int + 10)
    else None
  }

  predicate AllHexDigits(ds: string)
  {
    forall i :: 0 <= i < |ds| ==> HexDigit(ds[i]).Some?
  }

  /** The number a string of hex digits denotes. */
  function HexValue(ds: string): nat
    requires AllHexDigits(ds)
  {
    if ds == [] then 0
    else HexValue(ds[..|ds| - 1]) * 16 + HexDigit(ds[|ds| - 1]).value
  }

  /** The length of the longest prefix of `s` made of hex digits. */
  function HexSpan(s: string): (n: nat)
    ensures n <= |s| && AllHexDigits(s[..n])
    ensures n < |s| ==> HexDigit(s[n]).None?
  {
    if s == [] || HexDigit(s[0]).None? then 0
    else
      var n := 1 + HexSpan(s[1..]);
      assert s[..n] == [s[0]] + s[1..][..n - 1];
      n
  }

  /** `u` without its `0x`/`0X` prefix, if it has one. */
  function HexBody(u: string): string
  {
    if |u| >= 2 && u[0] == '0' && (u[1] == 'x' || u[1] == 'X') then u[2..] else u
  }

  /** `parseInt` past the sign: the longest run of hex digits after the
      prefix; no digit at all is NaN, shown as None. */
  function ParseHexUnsigned(u: string): Option<nat>
  {
    var d := HexBody(u);
    var n := HexSpan(d);
    if n == 0 then None else Some(HexValue(d[..n]))
  }

  /** `parseInt(s, 16)` on a string without leading white space: an optional
      sign, an optional `0x`/`0X` prefix, then the longest run of hex digits. */
  function ParseHex(s: string): Option<int>
  {
    if |s| > 0 && s[0] == '-' then
      match ParseHexUnsigned(s[1..])
      case None => None
      case Some(v) => Some(-(v as int))
    else if |s| > 0 && s[0] == '+' then
      match ParseHexUnsigned(s[1..])
      case None => None
      case Some(v) => Some(v)
    else
      match ParseHexUnsigned(s)
      case None => None
      case Some(v) => Some(v)
  }

  /** Leading zeros do not change the value of a run of hex digits. */
  lemma {:induction false} HexValueLeadingZeros(zeros: string, ds: string)
    requires forall i :: 0 <= i < |zeros| ==> zeros[i] == '0'
    requires AllHexDigits(ds)
    ensures AllHexDigits(zeros + ds) && HexValue(zeros + ds) == HexValue(ds)
    decreases |ds|
  {
    var all := zeros + ds;
    assert AllHexDigits(all) by {
      forall i | 0 <= i < |all| ensures HexDigit(all[i]).Some? {
        if i < |zeros| { assert all[i] == zeros[i]; } else { assert all[i] == ds[i - |zeros|]; }
      }
    }
    if ds == [] {
      assert all == zeros;
      HexValueOfZeros(zeros);
    } else {
      assert all[..|all| - 1] == zeros + ds[..|ds| - 1];
      HexValueLeadingZeros(zeros, ds[..|ds| - 1]);
    }
  }

  lemma {:induction false} HexValueOfZeros(zeros: string)
    requires forall i :: 0 <= i < |zeros| ==> zeros[i] == '0'
    ensures AllHexDigits(zeros) && HexValue(zeros) == 0
  {
    if zeros != [] {
      HexValueOfZeros(zeros[..|zeros| - 1]);
    }
  }

  lemma {:induction false} HexSpanOfDigits(ds: string)
    requires AllHexDigits(ds)
    ensures HexSpan(ds) == |ds|
  {
    if ds != [] {
      assert HexDigit(ds[0]).Some?;
      assert AllHexDigits(ds[1..]) by {
        forall i | 0 <= i < |ds| - 1 ensures HexDigit(ds[1..][i]).Some? {
          assert ds[1..][i] == ds[i + 1];
        }
      }
      HexSpanOfDigits(ds[1..]);
    }
  }

  /** A `0x`-prefixed 32-byte word, zero-padded, parses to the value of its digits:
      the padded buy code `0x00…01` is 1. */
  lemma ParseHexWord(zeros: string, ds: string)
    requires forall i :: 0 <= i < |zeros| ==> zeros[i] == '0'
    requires AllHexDigits(ds) && ds != []
    ensures ParseHex("0x" + zeros + ds) == Some(HexValue(ds))
  {
    var s := "0x" + zeros + ds;
    var d := zeros + ds;
    assert s[0] == '0' && s[1] == 'x';
    assert HexBody(s) == d by { assert s[2..] == d; }
    HexValueLeadingZeros(zeros, ds);
    HexSpanOfDigits(d);
    assert d[..|d|] == d;
    assert ParseHexUnsigned(s) == Some(HexValue(ds));
  }

  /** `parseInt(topics[3], 16)`; a missing topic is `parseInt(undefined, 16)`, NaN. */
  function TypeCode(l: Log): Option<int>
  {
    if |l.topics| > 3 then ParseHex(l.topics[3]) else None
  }

  // ---------------------------------------------------------------------
  // modifyPosition

  /** Code 1 (buy) adds the unfixed shares; every other code, NaN included, subtracts them. */
  function ModifyPosition(typeCode: Option<int>, position: real, numShares: int): real
  {
    match typeCode
    case Some(1) => position + Unfix(numShares)
    case _ => position - Unfix(numShares)
  }

  /** The signed amount `modifyPosition` moves a position by. */
  function SignedShares(typeCode: Option<int>, numShares: int): real
  {
    if typeCode == Some(1) then Unfix(numShares) else -Unfix(numShares)
  }

  lemma ModifyPositionSigned(typeCode: Option<int>, position: real, numShares: int)
    ensures ModifyPosition(typeCode, position, numShares) == position + SignedShares(typeCode, numShares)
    ensures typeCode == Some(1) ==> ModifyPosition(typeCode, position, numShares) == position + Unfix(numShares)
    ensures typeCode != Some(1) ==> ModifyPosition(typeCode, position, numShares) == position - Unfix(numShares)
    ensures forall other :: other != Some(1) ==>
      ModifyPosition(other, ModifyPosition(Some(1), position, numShares), numShares) == position
  {
  }

  // ---------------------------------------------------------------------
  // calculateCompleteSetsShareTotals

  /** What the code demands of a complete-sets log it reads: a market topic. */
  predicate CompleteSetsLog(log: Option<Log>)
  {
    Relevant(log) ==> |log.value.topics| > 2
  }

  predicate CompleteSetsLogs(logs: seq<Option<Log>>)
  {
    forall i :: 0 <= i < |logs| ==> CompleteSetsLog(logs[i])
  }

  /** One iteration of the loop in `calculateCompleteSetsShareTotals`. */
  function CompleteSetsStep(totals: map<MarketId, real>, log: Option<Log>): map<MarketId, real>
    requires CompleteSetsLog(log)
  {
    if !Relevant(log) then totals
    else
      var l := log.value;
      var m := l.topics[2];
      var t := if m in totals then totals else totals[m := 0.0];
      if HasWords(l) then t[m := ModifyPosition(TypeCode(l), t[m], l.words.value[0])] else t
  }

  /** The share totals after folding the logs in order. */
  function CompleteSetsTotals(logs: seq<Option<Log>>): map<MarketId, real>
    requires CompleteSetsLogs(logs)
  {
    if logs == [] then map[]
    else CompleteSetsStep(CompleteSetsTotals(logs[..|logs| - 1]), logs[|logs| - 1])
  }

  /** The totals of an optional log list: `{}` for a missing one. */
  function CompleteSetsTotalsOf(logs: Option<seq<Option<Log>>>): map<MarketId, real>
    requires logs.Some? ==> CompleteSetsLogs(logs.value)
  {
    if logs.None? then map[] else CompleteSetsTotals(logs.value)
  }

  predicate LogForMarket(log: Option<Log>, topic: nat, m: MarketId)
  {
    Relevant(log) && |log.value.topics| > topic && log.value.topics[topic] == m
  }

  /** Reference sum: the signed shares of every relevant log of market `m`. */
  function NetShares(logs: seq<Option<Log>>, m: MarketId): real
    requires CompleteSetsLogs(logs)
  {
    if logs == [] then 0.0
    else
      var log := logs[|logs| - 1];
      NetShares(logs[..|logs| - 1], m) +
        (if LogForMarket(log, 2, m) && HasWords(log.value)
         then SignedShares(TypeCode(log.value), log.value.words.value[0]) else 0.0)
  }

  /** A market has a total exactly when some relevant log names it, and its
      total is the sum of the signed shares of its logs. */
  lemma {:induction false} CompleteSetsTotalsMeaning(logs: seq<Option<Log>>, m: MarketId)
    requires CompleteSetsLogs(logs)
    ensures m in CompleteSetsTotals(logs) <==> exists i :: 0 <= i < |logs| && LogForMarket(logs[i], 2, m)
    ensures m in CompleteSetsTotals(logs) ==> CompleteSetsTotals(logs)[m] == NetShares(logs, m)
    ensures m !in CompleteSetsTotals(logs) ==> NetShares(logs, m) == 0.0
    decreases |logs|
  {
    if logs != [] {
      var n := |logs| - 1;
      var init := logs[..n];
      CompleteSetsTotalsMeaning(init, m);
      var log := logs[n];
      if LogForMarket(log, 2, m) && HasWords(log.value) {
        ModifyPositionSigned(TypeCode(log.value), if m in CompleteSetsTotals(init) then CompleteSetsTotals(init)[m] else 0.0, log.value.words.value[0]);
      }
      if exists i :: 0 <= i < |logs| && LogForMarket(logs[i], 2, m) {
        var i :| 0 <= i < |logs| && LogForMarket(logs[i], 2, m);
        if i < n {
          assert init[i] == logs[i];
        }
      }
      if exists i :: 0 <= i < n && LogForMarket(init[i], 2, m) {
        var i :| 0 <= i < n && LogForMarket(init[i], 2, m);
        assert logs[i] == init[i];
      }
    }
  }

  method CalculateCompleteSetsShareTotals(logs: Option<seq<Option<Log>>>) returns (totals: map<MarketId, real>)
    requires logs.Some? ==> CompleteSetsLogs(logs.value)
    ensures logs.None? ==> totals == map[]
    ensures totals == CompleteSetsTotalsOf(logs)
  {
    if logs.None? {
      return map[];
    }
    var ls := logs.value;
    totals := map[];
    var i := 0;
    while i < |ls|
      invariant 0 <= i <= |ls|
      invariant totals == CompleteSetsTotals(ls[..i])
    {
      var log := ls[i];
      if log.Some? && log.value.data != "" && log.value.data != "0x" {
        var l := log.value;
        var marketId := l.topics[2];
        if marketId !in totals {
          totals := totals[marketId := 0.0];
        }
        if l.words.Some? && |l.words.value| > 0 {
          totals := totals[marketId := ModifyPosition(TypeCode(l), totals[marketId], l.words.value[0])];
        }
      }
      assert ls[..i + 1][..i] == ls[..i];
      i := i + 1;
    }
    assert ls[..|ls|] == ls;
  }

  // ---------------------------------------------------------------------
  // calculateShortSellShareTotals

  /** What the code demands of a short-sell log it reads: a market topic and
      at least four unmarshalled words (shares at 1, outcome at 3). */
  predicate ShortSellLog(log: Option<Log>)
  {
    Relevant(log) ==>
      |log.value.topics| > 1 && log.value.words.Some? && |log.value.words.value| > 3
  }

  predicate ShortSellLogs(logs: seq<Option<Log>>)
  {
    forall i :: 0 <= i < |logs| ==> ShortSellLog(logs[i])
  }

  /** `sharesOutcomes` and `shareTotals` of `calculateShortSellShareTotals`. */
  datatype ShortSellTally = ShortSellTally(outcomeShares: map<MarketId, map<OutcomeId, real>>, totals: map<MarketId, real>)

  function ShortSellStep(t: ShortSellTally, log: Option<Log>): ShortSellTally
    requires ShortSellLog(log)
  {
    if !Relevant(log) then t
    else
      var l := log.value;
      var m := l.topics[1];
      var w := l.words.value;
      var o := w[3];
      var inner := if m in t.outcomeShares then t.outcomeShares[m] else map[];
      var cur := (if o in inner then inner[o] else 0.0) + Unfix(w[1]);
      var prev := if m in t.totals then t.totals[m] else 0.0;
      ShortSellTally(t.outcomeShares[m := inner[o := cur]], t.totals[m := Max(cur, prev)])
  }

  function ShortSellTallyOf(logs: seq<Option<Log>>): ShortSellTally
    requires ShortSellLogs(logs)
  {
    if logs == [] then ShortSellTally(map[], map[])
    else ShortSellStep(ShortSellTallyOf(logs[..|logs| - 1]), logs[|logs| - 1])
  }

  function ShortSellTotalsOf(logs: Option<seq<Option<Log>>>): map<MarketId, real>
    requires logs.Some? ==> ShortSellLogs(logs.value)
  {
    if logs.None? then map[] else ShortSellTallyOf(logs.value).totals
  }

  /** Reference sum: the unfixed shares of every relevant log of market `m` and outcome `o`. */
  function OutcomeShares(logs: seq<Option<Log>>, m: MarketId, o: OutcomeId): real
    requires ShortSellLogs(logs)
  {
    if logs == [] then 0.0
    else
      var log := logs[|logs| - 1];
      OutcomeShares(logs[..|logs| - 1], m, o) +
        (if LogForMarket(log, 1, m) && log.value.words.value[3] == o
         then Unfix(log.value.words.value[1]) else 0.0)
  }

  /** `v` is the largest value of `inner`, and some outcome attains it. */
  ghost predicate IsMaxOf(inner: map<OutcomeId, real>, v: real)
  {
    (forall o :: o in inner ==> inner[o] <= v) && (exists o :: o in inner && inner[o] == v)
  }

  /** Share quantities read as non-negative (they are unsigned words on chain). */
  predicate NonNegativeShortSells(logs: seq<Option<Log>>)
    requires ShortSellLogs(logs)
  {
    forall i :: 0 <= i < |logs| && Relevant(logs[i]) ==> logs[i].value.words.value[1] >= 0
  }

  /** Per outcome, the tally holds the sum of that outcome's shares. */
  lemma {:induction false} ShortSellOutcomeSums(logs: seq<Option<Log>>, m: MarketId, o: OutcomeId)
    requires ShortSellLogs(logs)
    ensures var t := ShortSellTallyOf(logs);
      (m in t.outcomeShares && o in t.outcomeShares[m] ==> t.outcomeShares[m][o] == OutcomeShares(logs, m, o)) &&
      (!(m in t.outcomeShares && o in t.outcomeShares[m]) ==> OutcomeShares(logs, m, o) == 0.0)
    decreases |logs|
  {
    if logs != [] {
      ShortSellOutcomeSums(logs[..|logs| - 1], m, o);
    }
  }

  /** With non-negative share quantities, each market's total is the largest
      per-outcome sum of that market. */
  lemma {:induction false} ShortSellTotalsAreOutcomeMaxima(logs: seq<Option<Log>>)
    requires ShortSellLogs(logs)
    requires NonNegativeShortSells(logs)
    ensures var t := ShortSellTallyOf(logs);
      t.totals.Keys == t.outcomeShares.Keys &&
      forall m :: m in t.totals ==> IsMaxOf(t.outcomeShares[m], t.totals[m])
    decreases |logs|
  {
    if logs != [] {
      var n := |logs| - 1;
      var init := logs[..n];
      assert NonNegativeShortSells(init) by {
        forall i | 0 <= i < |init| && Relevant(init[i]) ensures init[i].value.words.value[1] >= 0 {
          assert init[i] == logs[i];
        }
      }
      ShortSellTotalsAreOutcomeMaxima(init);
      var t0 := ShortSellTallyOf(init);
      var log := logs[n];
      if Relevant(log) {
        var l := log.value;
        var m := l.topics[1];
        var w := l.words.value;
        var o := w[3];
        var inner := if m in t0.outcomeShares then t0.outcomeShares[m] else map[];
        var old_o := if o in inner then inner[o] else 0.0;
        var cur := old_o + Unfix(w[1]);
        var prev := if m in t0.totals then t0.totals[m] else 0.0;
        var t := ShortSellTallyOf(logs);
        assert t == ShortSellStep(t0, log);
        assert t.outcomeShares[m] == inner[o := cur];
        assert Unfix(w[1]) >= 0.0;
        if m in t0.totals {
          var wit :| wit in inner && inner[wit] == prev;
          if cur < prev {
            assert wit != o;
            assert inner[o := cur][wit] == prev;
          } else {
            assert inner[o := cur][o] == cur;
          }
        } else {
          assert inner == map[];
          assert inner[o := cur][o] == cur;
        }
        assert IsMaxOf(t.outcomeShares[m], t.totals[m]);
      }
    }
  }

  method CalculateShortSellShareTotals(logs: Option<seq<Option<Log>>>) returns (shareTotals: map<MarketId, real>)
    requires logs.Some? ==> ShortSellLogs(logs.value)
    ensures logs.None? ==> shareTotals == map[]
    ensures shareTotals == ShortSellTotalsOf(logs)
  {
    if logs.None? {
      return map[];
    }
    var ls := logs.value;
    shareTotals := map[];
    var sharesOutcomes: map<MarketId, map<OutcomeId, real>> := map[];
    var i := 0;
    while i < |ls|
      invariant 0 <= i <= |ls|
      invariant ShortSellTally(sharesOutcomes, shareTotals) == ShortSellTallyOf(ls[..i])
    {
      var log := ls[i];
      if log.Some? && log.value.data != "" && log.value.data != "0x" {
        var l := log.value;
        var marketId := l.topics[1];
        var logData := l.words.value;
        ghost var inner := if marketId in sharesOutcomes then sharesOutcomes[marketId] else map[];
        if marketId !in sharesOutcomes {
          sharesOutcomes := sharesOutcomes[marketId := map[]];
        }
        var outcomeId := logData[3];
        if outcomeId !in sharesOutcomes[marketId] {
          sharesOutcomes := sharesOutcomes[marketId := sharesOutcomes[marketId][outcomeId := 0.0]];
        }
        var sum := sharesOutcomes[marketId][outcomeId] + Unfix(logData[1]);
        assert sharesOutcomes[marketId][outcomeId := sum] == inner[outcomeId := sum];
        sharesOutcomes := sharesOutcomes[marketId := sharesOutcomes[marketId][outcomeId := sum]];
        shareTotals := shareTotals[marketId := Max(sum, if marketId in shareTotals then shareTotals[marketId] else 0.0)];
      }
      assert ls[..i + 1][..i] == ls[..i];
      i := i + 1;
    }
    assert ls[..|ls|] == ls;
  }

  // ---------------------------------------------------------------------
  // calculateCompleteSetsEffectivePrice and calculateShortSellBuyCompleteSetsEffectivePrice

  /** The two log layouts an effective price is read from. */
  datatype PriceLayout =
    | CompleteSetsLayout   // market at topic 2, outcome count at word 1
    | ShortSellBuyLayout   // market at topic 1, exactly 8 words, outcome count at word 7

  function MarketTopic(layout: PriceLayout): nat
  {
    if layout == CompleteSetsLayout then 2 else 1
  }

  function CountWord(layout: PriceLayout): nat
  {
    if layout == CompleteSetsLayout then 1 else 7
  }

  /** The guard under which a log sets a price. */
  predicate Priced(layout: PriceLayout, l: Log)
  {
    HasWords(l) && (layout == ShortSellBuyLayout ==> |l.words.value| == 8)
  }

  /** What the code demands of a log it reads a price from: a market topic, the
      outcome-count word, and a non-zero outcome count to divide by. */
  predicate PriceLog(layout: PriceLayout, log: Option<Log>)
  {
    Relevant(log) ==>
      |log.value.topics| > MarketTopic(layout) &&
      (Priced(layout, log.value) ==>
         |log.value.words.value| > CountWord(layout) && log.value.words.value[CountWord(layout)] != 0)
  }

  predicate PriceLogs(layout: PriceLayout, logs: seq<Option<Log>>)
  {
    forall i :: 0 <= i < |logs| ==> PriceLog(layout, logs[i])
  }

  /** `ONE.dividedBy(numOutcomes)`. */
  function PriceOf(layout: PriceLayout, l: Log): real
    requires Priced(layout, l)
    requires |l.words.value| > CountWord(layout) && l.words.value[CountWord(layout)] != 0
  {
    1.0 / (l.words.value[CountWord(layout)] as real)
  }

  predicate PricesMarket(layout: PriceLayout, log: Option<Log>, m: MarketId)
  {
    LogForMarket(log, MarketTopic(layout), m) && Priced(layout, log.value)
  }

  function PriceStep(layout: PriceLayout, prices: map<MarketId, real>, log: Option<Log>): map<MarketId, real>
    requires PriceLog(layout, log)
  {
    if !Relevant(log) then prices
    else
      var m := log.value.topics[MarketTopic(layout)];
      if m !in prices && Priced(layout, log.value) then prices[m := PriceOf(layout, log.value)] else prices
  }

  function EffectivePrices(layout: PriceLayout, logs: seq<Option<Log>>): map<MarketId, real>
    requires PriceLogs(layout, logs)
  {
    if logs == [] then map[]
    else PriceStep(layout, EffectivePrices(layout, logs[..|logs| - 1]), logs[|logs| - 1])
  }

  function EffectivePricesOf(layout: PriceLayout, logs: Option<seq<Option<Log>>>): map<MarketId, real>
    requires logs.Some? ==> PriceLogs(layout, logs.value)
  {
    if logs.None? then map[] else EffectivePrices(layout, logs.value)
  }

  /** Log `i` is the first log that prices market `m`. */
  predicate FirstPricing(layout: PriceLayout, logs: seq<Option<Log>>, i: nat, m: MarketId)
    requires i < |logs|
  {
    PricesMarket(layout, logs[i], m) && forall j :: 0 <= j < i ==> !PricesMarket(layout, logs[j], m)
  }

  /** One step of the fold: a market already priced keeps its price, a new one
      is priced only by a log that prices it. */
  lemma PriceStepMarket(layout: PriceLayout, prices: map<MarketId, real>, log: Option<Log>, m: MarketId)
    requires PriceLog(layout, log)
    ensures m in PriceStep(layout, prices, log) <==> m in prices || PricesMarket(layout, log, m)
    ensures m in prices ==> PriceStep(layout, prices, log)[m] == prices[m]
    ensures m !in prices && PricesMarket(layout, log, m) ==> PriceStep(layout, prices, log)[m] == PriceOf(layout, log.value)
  {
  }

  lemma PriceLogsPrefix(layout: PriceLayout, logs: seq<Option<Log>>, init: seq<Option<Log>>)
    requires PriceLogs(layout, logs) && logs != [] && init == logs[..|logs| - 1]
    ensures PriceLogs(layout, init)
  {
    forall i | 0 <= i < |init| ensures PriceLog(layout, init[i]) { assert init[i] == logs[i]; }
  }

  /** A market gets a price exactly when some relevant log of it carries words. */
  lemma {:induction false} EffectivePriceExists(layout: PriceLayout, logs: seq<Option<Log>>, m: MarketId)
    requires PriceLogs(layout, logs)
    ensures m in EffectivePrices(layout, logs) <==> exists i :: 0 <= i < |logs| && PricesMarket(layout, logs[i], m)
    decreases |logs|
  {
    if logs != [] {
      var n := |logs| - 1;
      var init := logs[..n];
      PriceLogsPrefix(layout, logs, init);
      EffectivePriceExists(layout, init, m);
      PriceStepMarket(layout, EffectivePrices(layout, init), logs[n], m);
      EffectivePriceStepRange(layout, logs, init, m);
    }
  }

  /** The first pricing log of a market that is not the last log is the first in the prefix too. */
  lemma FirstPricingPrefix(layout: PriceLayout, logs: seq<Option<Log>>, init: seq<Option<Log>>, i: nat, m: MarketId)
    requires logs != [] && init == logs[..|logs| - 1] && i < |init|
    requires FirstPricing(layout, logs, i, m)
    ensures init[i] == logs[i] && FirstPricing(layout, init, i, m)
  {
    forall j | 0 <= j < i ensures !PricesMarket(layout, init[j], m) { assert init[j] == logs[j]; }
  }

  /** A market gets a price exactly when some relevant log of it carries words,
      and the price is `1 / numOutcomes` of the FIRST such log. */
  lemma {:induction false} EffectivePriceIsFirst(layout: PriceLayout, logs: seq<Option<Log>>, m: MarketId)
    requires PriceLogs(layout, logs)
    ensures m in EffectivePrices(layout, logs) <==> exists i :: 0 <= i < |logs| && PricesMarket(layout, logs[i], m)
    ensures forall i :: 0 <= i < |logs| && FirstPricing(layout, logs, i, m) ==>
      EffectivePrices(layout, logs)[m] == PriceOf(layout, logs[i].value)
    decreases |logs|
  {
    EffectivePriceExists(layout, logs, m);
    if logs != [] {
      var n := |logs| - 1;
      var init := logs[..n];
      PriceLogsPrefix(layout, logs, init);
      EffectivePriceIsFirst(layout, init, m);
      var prior := EffectivePrices(layout, init);
      PriceStepMarket(layout, prior, logs[n], m);
      forall i | 0 <= i < |logs| && FirstPricing(layout, logs, i, m)
        ensures EffectivePrices(layout, logs)[m] == PriceOf(layout, logs[i].value)
      {
        if i < n {
          FirstPricingPrefix(layout, logs, init, i, m);
        } else {
          forall j | 0 <= j < n ensures !PricesMarket(layout, init[j], m) { assert init[j] == logs[j]; }
        }
      }
    }
  }

  /** The `exists` of a non-empty log list splits into its prefix and its last log. */
  lemma EffectivePriceStepRange(layout: PriceLayout, logs: seq<Option<Log>>, init: seq<Option<Log>>, m: MarketId)
    requires logs != [] && init == logs[..|logs| - 1]
    ensures (exists i :: 0 <= i < |logs| && PricesMarket(layout, logs[i], m)) <==>
      (exists i :: 0 <= i < |init| && PricesMarket(layout, init[i], m)) ||
      PricesMarket(layout, logs[|logs| - 1], m)
  {
    var n := |init|;
    if exists i :: 0 <= i < |logs| && PricesMarket(layout, logs[i], m) {
      var i :| 0 <= i < |logs| && PricesMarket(layout, logs[i], m);
      if i < n {
        assert PricesMarket(layout, init[i], m);
      }
    }
    if exists i :: 0 <= i < n && PricesMarket(layout, init[i], m) {
      var i :| 0 <= i < n && PricesMarket(layout, init[i], m);
      assert init[i] == logs[i];
    }
  }

  method CalculateEffectivePrices(layout: PriceLayout, logs: Option<seq<Option<Log>>>) returns (effectivePrice: map<MarketId, real>)
    requires logs.Some? ==> PriceLogs(layout, logs.value)
    ensures logs.None? ==> effectivePrice == map[]
    ensures effectivePrice == EffectivePricesOf(layout, logs)
  {
    if logs.None? {
      return map[];
    }
    var ls := logs.value;
    effectivePrice := map[];
    var i := 0;
    while i < |ls|
      invariant 0 <= i <= |ls|
      invariant effectivePrice == EffectivePrices(layout, ls[..i])
    {
      var log := ls[i];
      if log.Some? && log.value.data != "" && log.value.data != "0x" {
        var l := log.value;
        var marketId := l.topics[MarketTopic(layout)];
        if marketId !in effectivePrice {
          if l.words.Some? && |l.words.value| > 0 && (layout == ShortSellBuyLayout ==> |l.words.value| == 8) {
            effectivePrice := effectivePrice[marketId := 1.0 / (l.words.value[CountWord(layout)] as real)];
          }
        }
      }
      assert ls[..i + 1][..i] == ls[..i];
      i := i + 1;
    }
    assert ls[..|ls|] == ls;
  }

  // ---------------------------------------------------------------------
  // calculateShareTotals, decreasePosition, adjustPositions, findUniqueMarketIDs

  /** A value per kind of complete-sets log, as the code's three-keyed objects hold. */
  datatype ByType<V> = ByType(shortAskBuyCompleteSets: V, shortSellBuyCompleteSets: V, sellCompleteSets: V)

  datatype SetsType = ShortAskBuyCompleteSets | ShortSellBuyCompleteSets | SellCompleteSets

  function Get<V>(b: ByType<V>, t: SetsType): V
  {
    match t
    case ShortAskBuyCompleteSets => b.shortAskBuyCompleteSets
    case ShortSellBuyCompleteSets => b.shortSellBuyCompleteSets
    case SellCompleteSets => b.sellCompleteSets
  }

  predicate WellFormedLogs(logs: ByType<Option<seq<Option<Log>>>>)
  {
    (logs.shortAskBuyCompleteSets.Some? ==> CompleteSetsLogs(logs.shortAskBuyCompleteSets.value)) &&
    (logs.shortSellBuyCompleteSets.Some? ==> ShortSellLogs(logs.shortSellBuyCompleteSets.value)) &&
    (logs.sellCompleteSets.Some? ==> CompleteSetsLogs(logs.sellCompleteSets.value))
  }

  function ShareTotalsOf(logs: ByType<Option<seq<Option<Log>>>>): ByType<map<MarketId, real>>
    requires WellFormedLogs(logs)
  {
    ByType(CompleteSetsTotalsOf(logs.shortAskBuyCompleteSets),
           ShortSellTotalsOf(logs.shortSellBuyCompleteSets),
           CompleteSetsTotalsOf(logs.sellCompleteSets))
  }

  method CalculateShareTotals(logs: ByType<Option<seq<Option<Log>>>>) returns (shareTotals: ByType<map<MarketId, real>>)
    requires WellFormedLogs(logs)
    ensures shareTotals == ShareTotalsOf(logs)
  {
    var a := CalculateCompleteSetsShareTotals(logs.shortAskBuyCompleteSets);
    var b := CalculateShortSellShareTotals(logs.shortSellBuyCompleteSets);
    var c := CalculateCompleteSetsShareTotals(logs.sellCompleteSets);
    shareTotals := ByType(a, b, c);
  }

  /** Every outcome of the position lowered by `adjustment`, keys unchanged. */
  method DecreasePosition(position: map<OutcomeKey, real>, adjustment: real) returns (newPosition: map<OutcomeKey, real>)
    ensures newPosition.Keys == position.Keys
    ensures forall k :: k in newPosition ==> newPosition[k] == position[k] - adjustment
  {
    newPosition := map[];
    var outcomeIds := position.Keys;
    while outcomeIds != {}
      invariant outcomeIds <= position.Keys
      invariant newPosition.Keys == position.Keys - outcomeIds
      invariant forall k :: k in newPosition ==> newPosition[k] == position[k] - adjustment
      decreases outcomeIds
    {
      var k :| k in outcomeIds;
      newPosition := newPosition[k := position[k] - adjustment];
      outcomeIds := outcomeIds - {k};
    }
  }

  /** `shareTotals.X[marketID] || constants.ZERO`. */
  function Lookup(m: map<MarketId, real>, k: MarketId): real
  {
    if k in m then m[k] else 0.0
  }

  /** The amount `adjustPositions` lowers every outcome of market `m` by:
      short-ask plus short-sell totals plus the sell total, the latter clamped
      to `-(shortAsk + shortSell)` when its magnitude exceeds that sum. */
  function Adjustment(totals: ByType<map<MarketId, real>>, m: MarketId): real
  {
    var ask := Lookup(totals.shortAskBuyCompleteSets, m);
    var short := Lookup(totals.shortSellBuyCompleteSets, m);
    var sell := Lookup(totals.sellCompleteSets, m);
    var clamped := if Abs(sell) > ask + short then -(ask + short) else sell;
    ask + short + clamped
  }

  /** The clamp makes the adjustment exactly zero; otherwise it is the plain
      sum. Either way it is never negative and at most twice the buy side. */
  lemma AdjustmentBounds(totals: ByType<map<MarketId, real>>, m: MarketId)
    ensures var buys := Lookup(totals.shortAskBuyCompleteSets, m) + Lookup(totals.shortSellBuyCompleteSets, m);
      var sell := Lookup(totals.sellCompleteSets, m);
      (Abs(sell) > buys ==> Adjustment(totals, m) == 0.0) &&
      (Abs(sell) <= buys ==> Adjustment(totals, m) == buys + sell) &&
      0.0 <= Adjustment(totals, m) <= 2.0 * Max(buys, 0.0)
  {
  }

  /** The synchronous branch of `adjustPositions`, with the on-chain position
      of each market passed in. */
  method AdjustPositions(marketIds: seq<MarketId>, shareTotals: ByType<map<MarketId, real>>,
                         onChain: map<MarketId, map<OutcomeKey, real>>)
    returns (adjustedPositions: map<MarketId, map<OutcomeKey, real>>)
    requires forall i :: 0 <= i < |marketIds| ==> marketIds[i] in onChain
    ensures adjustedPositions.Keys == set i | 0 <= i < |marketIds| :: marketIds[i]
    ensures forall m :: m in adjustedPositions ==>
      adjustedPositions[m].Keys == onChain[m].Keys &&
      forall k :: k in adjustedPositions[m] ==> adjustedPositions[m][k] == onChain[m][k] - Adjustment(shareTotals, m)
  {
    adjustedPositions := map[];
    var i := 0;
    while i < |marketIds|
      invariant 0 <= i <= |marketIds|
      invariant adjustedPositions.Keys == set j | 0 <= j < i :: marketIds[j]
      invariant forall m :: m in adjustedPositions ==>
        m in onChain && adjustedPositions[m].Keys == onChain[m].Keys &&
        forall k :: k in adjustedPositions[m] ==> adjustedPositions[m][k] == onChain[m][k] - Adjustment(shareTotals, m)
    {
      var marketId := marketIds[i];
      var shortAsk := Lookup(shareTotals.shortAskBuyCompleteSets, marketId);
      var shortSell := Lookup(shareTotals.shortSellBuyCompleteSets, marketId);
      var sell := Lookup(shareTotals.sellCompleteSets, marketId);
      if Abs(sell) > shortAsk + shortSell {
        sell := -(shortAsk + shortSell);
      }
      var decreased := DecreasePosition(onChain[marketId], shortAsk + shortSell + sell);
      adjustedPositions := adjustedPositions[marketId := decreased];
      i := i + 1;
    }
  }

  /** `xs.filter(utils.unique)`: each element once, in the order of the input. */
  function Unique<T(==)>(xs: seq<T>): (r: seq<T>)
    ensures forall i :: 0 <= i < |r| ==> r[i] in xs
    ensures forall i :: 0 <= i < |xs| ==> xs[i] in r
    ensures forall i, j :: 0 <= i < j < |r| ==> r[i] != r[j]
  {
    if xs == [] then []
    else
      var init := xs[..|xs| - 1];
      var last := xs[|xs| - 1];
      assert forall i :: 0 <= i < |init| ==> init[i] == xs[i];
      if last in init then Unique(init) else Unique(init) + [last]
  }

  /** `Unique` keeps the order of the input: it only deletes elements. */
  lemma {:induction false} UniqueKeepsOrder<T>(xs: seq<T>)
    ensures Subsequence(Unique(xs), xs)
    decreases |xs|
  {
    if xs != [] {
      var init := xs[..|xs| - 1];
      var last := xs[|xs| - 1];
      UniqueKeepsOrder(init);
      SubsequenceSnoc(Unique(init), init, last);
      assert init + [last] == xs;
    }
  }

  /** The market ids of the three totals, each once, in the order of the key lists. */
  function FindUniqueMarketIds(shortAskKeys: seq<MarketId>, shortSellKeys: seq<MarketId>, sellKeys: seq<MarketId>): seq<MarketId>
  {
    Unique(shortAskKeys + shortSellKeys + sellKeys)
  }

  /** Given enumerations of the three key sets, the result enumerates their
      union exactly once. */
  lemma UniqueMarketIdsEnumerateUnion(totals: ByType<map<MarketId, real>>, a: seq<MarketId>, b: seq<MarketId>, c: seq<MarketId>)
    requires (set x | x in a) == totals.shortAskBuyCompleteSets.Keys
    requires (set x | x in b) == totals.shortSellBuyCompleteSets.Keys
    requires (set x | x in c) == totals.sellCompleteSets.Keys
    ensures var r := FindUniqueMarketIds(a, b, c);
      (set x | x in r) == totals.shortAskBuyCompleteSets.Keys + totals.shortSellBuyCompleteSets.Keys + totals.sellCompleteSets.Keys &&
      forall i, j :: 0 <= i < j < |r| ==> r[i] != r[j]
  {
    var r := FindUniqueMarketIds(a, b, c);
    var all := a + b + c;
    forall x | x in r ensures x in all {
      var i :| 0 <= i < |r| && r[i] == x;
    }
    forall x | x in all ensures x in r {
      var i :| 0 <= i < |all| && all[i] == x;
    }
  }

  // ---------------------------------------------------------------------
  // calculateNetEffectiveTrades

  /** One aggregate trade: type 2 for sells, 1 otherwise. */
  datatype NetTrade = NetTrade(tradeType: int, price: real, shares: real)

  predicate WellFormedPriceLogs(logs: ByType<Option<seq<Option<Log>>>>)
  {
    (logs.shortAskBuyCompleteSets.Some? ==> PriceLogs(CompleteSetsLayout, logs.shortAskBuyCompleteSets.value)) &&
    (logs.shortSellBuyCompleteSets.Some? ==> PriceLogs(ShortSellBuyLayout, logs.shortSellBuyCompleteSets.value)) &&
    (logs.sellCompleteSets.Some? ==> PriceLogs(CompleteSetsLayout, logs.sellCompleteSets.value))
  }

  function PricesOf(logs: ByType<Option<seq<Option<Log>>>>): ByType<map<MarketId, real>>
    requires WellFormedPriceLogs(logs)
  {
    ByType(EffectivePricesOf(CompleteSetsLayout, logs.shortAskBuyCompleteSets),
           EffectivePricesOf(ShortSellBuyLayout, logs.shortSellBuyCompleteSets),
           EffectivePricesOf(CompleteSetsLayout, logs.sellCompleteSets))
  }

  /** The trade a kind of complete-sets log contributes to market `m`, when the
      market has both a share total and a price of that kind. */
  predicate HasNetTrade(totals: ByType<map<MarketId, real>>, prices: ByType<map<MarketId, real>>, m: MarketId, t: SetsType)
  {
    m in Get(totals, t) && m in Get(prices, t)
  }

  function NetTradeOf(totals: ByType<map<MarketId, real>>, prices: ByType<map<MarketId, real>>, m: MarketId, t: SetsType): NetTrade
    requires HasNetTrade(totals, prices, m, t)
  {
    NetTrade(if t == SellCompleteSets then 2 else 1, Get(prices, t)[m], Abs(Get(totals, t)[m]))
  }

  /** The body of the loop over market ids: the net trade of each complete-sets
      type that has both a share total and an effective price for the market. */
  method MarketNetTrades(shareTotals: ByType<map<MarketId, real>>, effectivePrices: ByType<map<MarketId, real>>, marketId: MarketId)
    returns (trades: map<SetsType, NetTrade>)
    ensures forall t :: t in trades <==> HasNetTrade(shareTotals, effectivePrices, marketId, t)
    ensures forall t :: t in trades ==> trades[t] == NetTradeOf(shareTotals, effectivePrices, marketId, t)
  {
    var completeSetsTypes := [ShortAskBuyCompleteSets, ShortSellBuyCompleteSets, SellCompleteSets];
    trades := map[];
    var j := 0;
    while j < |completeSetsTypes|
      invariant 0 <= j <= |completeSetsTypes|
      invariant forall t :: t in trades <==> (t in completeSetsTypes[..j] && HasNetTrade(shareTotals, effectivePrices, marketId, t))
      invariant forall t :: t in trades ==> trades[t] == NetTradeOf(shareTotals, effectivePrices, marketId, t)
    {
      var completeSetsType := completeSetsTypes[j];
      if marketId in Get(shareTotals, completeSetsType) && marketId in Get(effectivePrices, completeSetsType) {
        var shareTotal := Get(shareTotals, completeSetsType)[marketId];
        var effectivePrice := Get(effectivePrices, completeSetsType)[marketId];
        trades := trades[completeSetsType := NetTrade(if completeSetsType == SellCompleteSets then 2 else 1, effectivePrice, Abs(shareTotal))];
      }
      j := j + 1;
    }
    assert completeSetsTypes[..j] == completeSetsTypes;
    forall t: SetsType ensures t in completeSetsTypes {
      match t
      case ShortAskBuyCompleteSets => assert completeSetsTypes[0] == t;
      case ShortSellBuyCompleteSets => assert completeSetsTypes[1] == t;
      case SellCompleteSets => assert completeSetsTypes[2] == t;
    }
  }

  method CalculateNetEffectiveTrades(logs: ByType<Option<seq<Option<Log>>>>)
    returns (netEffectiveTrades: map<MarketId, map<SetsType, NetTrade>>)
    requires WellFormedLogs(logs) && WellFormedPriceLogs(logs)
    ensures var prices := PricesOf(logs);
      netEffectiveTrades.Keys ==
        prices.shortAskBuyCompleteSets.Keys + prices.shortSellBuyCompleteSets.Keys + prices.sellCompleteSets.Keys
    ensures var totals, prices := ShareTotalsOf(logs), PricesOf(logs);
      forall m, t :: m in netEffectiveTrades ==>
        (t in netEffectiveTrades[m] <==> HasNetTrade(totals, prices, m, t)) &&
        (t in netEffectiveTrades[m] ==> netEffectiveTrades[m][t] == NetTradeOf(totals, prices, m, t))
  {
    var shareTotals := CalculateShareTotals(logs);
    var a := CalculateEffectivePrices(CompleteSetsLayout, logs.shortAskBuyCompleteSets);
    var b := CalculateEffectivePrices(ShortSellBuyLayout, logs.shortSellBuyCompleteSets);
    var c := CalculateEffectivePrices(CompleteSetsLayout, logs.sellCompleteSets);
    var effectivePrices := ByType(a, b, c);
    netEffectiveTrades := map[];
    // The market ids of the three price maps; the result is a map, so the
    // order `findUniqueMarketIDs` visits them in does not matter.
    var marketIds := a.Keys + b.Keys + c.Keys;
    while marketIds != {}
      invariant marketIds <= a.Keys + b.Keys + c.Keys
      invariant netEffectiveTrades.Keys == (a.Keys + b.Keys + c.Keys) - marketIds
      invariant forall m, t :: m in netEffectiveTrades ==>
        (t in netEffectiveTrades[m] <==> HasNetTrade(shareTotals, effectivePrices, m, t)) &&
        (t in netEffectiveTrades[m] ==> netEffectiveTrades[m][t] == NetTradeOf(shareTotals, effectivePrices, m, t))
      decreases marketIds
    {
      var marketId :| marketId in marketIds;
      var trades := MarketNetTrades(shareTotals, effectivePrices, marketId);
      netEffectiveTrades := netEffectiveTrades[marketId := trades];
      marketIds := marketIds - {marketId};
    }
  }
}
