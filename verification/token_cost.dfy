/**
 * `TokenCostService` (src/lib/services/token-cost.ts), integer part: `trackUsage` adds
 * the token counts of a reply to the day's (date, model) record, in the normal or the
 * over-200k buckets, and reports whether this request is the one that took the day's
 * cost across the alert threshold; `getStats` sums the buckets.  Costs in USD are
 * floating point in the source; here they are abstract reals supplied by the caller
 * (`preRequestCost` is the day's cost before the request, `requestCost` this request's).
 */
module TokenCost {
  import opened Types
  import opened Order

  /** One row of the `tokenHistory` table, keyed by (date, model). */
  datatype TokenUsageHistory = TokenUsageHistory(
    date: string,
    model: string,
    inputTokens: int,
    outputTokens: int,
    cachedTokens: int,
    inputTokensOver200k: int,
    outputTokensOver200k: int,
    cachedTokensOver200k: int,
    thinkingTokens: int,
    totalTokens: int)

  function EmptyEntry(date: string, model: string): TokenUsageHistory {
    TokenUsageHistory(date, model, 0, 0, 0, 0, 0, 0, 0, 0)
  }

  const LongPromptTokens: int := 200000

  /** Prompt tokens not served from the cache, never negative. */
  function BillingInput(u: UsageMetadata): (r: int)
    ensures r >= 0
    ensures r >= CountOrZero(u.promptTokenCount) - CountOrZero(u.cachedContentTokenCount)
    ensures r == 0 || r == CountOrZero(u.promptTokenCount) - CountOrZero(u.cachedContentTokenCount)
  {
    var billed := CountOrZero(u.promptTokenCount) - CountOrZero(u.cachedContentTokenCount);
    if billed < 0 then 0 else billed
  }

  /** Output is billed with the reasoning tokens included. */
  function BillingOutput(u: UsageMetadata): int {
    CountOrZero(u.candidatesTokenCount) + CountOrZero(u.thoughtsTokenCount)
  }

  predicate IsOver200k(u: UsageMetadata) {
    CountOrZero(u.promptTokenCount) > LongPromptTokens
  }

  /** The entry after one request's counts are added. */
  function AddUsage(e: TokenUsageHistory, u: UsageMetadata): (r: TokenUsageHistory)
    ensures r.date == e.date && r.model == e.model
    ensures r.thinkingTokens == e.thinkingTokens + CountOrZero(u.thoughtsTokenCount)
    ensures r.totalTokens == e.totalTokens + CountOrZero(u.totalTokenCount)
    ensures IsOver200k(u) ==>
      (r.inputTokens, r.outputTokens, r.cachedTokens) == (e.inputTokens, e.outputTokens, e.cachedTokens)
      && r.inputTokensOver200k == e.inputTokensOver200k + BillingInput(u)
      && r.outputTokensOver200k == e.outputTokensOver200k + BillingOutput(u)
      && r.cachedTokensOver200k == e.cachedTokensOver200k + CountOrZero(u.cachedContentTokenCount)
    ensures !IsOver200k(u) ==>
      (r.inputTokensOver200k, r.outputTokensOver200k, r.cachedTokensOver200k)
        == (e.inputTokensOver200k, e.outputTokensOver200k, e.cachedTokensOver200k)
      && r.inputTokens == e.inputTokens + BillingInput(u)
      && r.outputTokens == e.outputTokens + BillingOutput(u)
      && r.cachedTokens == e.cachedTokens + CountOrZero(u.cachedContentTokenCount)
  {
    var cached := CountOrZero(u.cachedContentTokenCount);
    var bucketed :=
      if IsOver200k(u) then
        e.(inputTokensOver200k := e.inputTokensOver200k + BillingInput(u),
           outputTokensOver200k := e.outputTokensOver200k + BillingOutput(u),
           cachedTokensOver200k := e.cachedTokensOver200k + cached)
      else
        e.(inputTokens := e.inputTokens + BillingInput(u),
           outputTokens := e.outputTokens + BillingOutput(u),
           cachedTokens := e.cachedTokens + cached);
    bucketed.(thinkingTokens := e.thinkingTokens + CountOrZero(u.thoughtsTokenCount),
              totalTokens := e.totalTokens + CountOrZero(u.totalTokenCount))
  }

  predicate SameKey(a: TokenUsageHistory, date: string, model: string) {
    a.date == date && a.model == model
  }

  /** The table's primary key: no two rows share a (date, model) pair. */
  predicate UniqueKeys(records: seq<TokenUsageHistory>) {
    forall i, j :: 0 <= i < j < |records| ==> !SameKey(records[i], records[j].date, records[j].model)
  }

  /** The position of the row for (date, model), or -1. */
  function KeyIndex(records: seq<TokenUsageHistory>, date: string, model: string): (r: int)
    ensures -1 <= r < |records|
    ensures r >= 0 ==> SameKey(records[r], date, model)
    ensures r == -1 ==> forall i :: 0 <= i < |records| ==> !SameKey(records[i], date, model)
  {
    if |records| == 0 then -1
    else if SameKey(records[|records| - 1], date, model) then |records| - 1
    else KeyIndex(records[..|records| - 1], date, model)
  }

  /** The table after `trackUsage` stores a request: the row updated in place, or a new row. */
  function Tracked(records: seq<TokenUsageHistory>, date: string, model: string, u: UsageMetadata): (r: seq<TokenUsageHistory>)
  {
    var i := KeyIndex(records, date, model);
    if i >= 0 then records[i := AddUsage(records[i], u)] else records + [AddUsage(EmptyEntry(date, model), u)]
  }

  /** Storing keeps the key unique and touches no other row. */
  lemma TrackedKeepsKeys(records: seq<TokenUsageHistory>, date: string, model: string, u: UsageMetadata)
    requires UniqueKeys(records)
    ensures var r := Tracked(records, date, model, u);
      && UniqueKeys(r)
      && (KeyIndex(records, date, model) >= 0 ==> |r| == |records|)
      && (KeyIndex(records, date, model) == -1 ==> |r| == |records| + 1 && r[..|records|] == records)
      && forall i :: 0 <= i < |records| && !SameKey(records[i], date, model) ==> r[i] == records[i]
  {
  }

  /** The threshold rule: true only when the day's cost was below the threshold and this request reaches it. */
  predicate Crosses(threshold: Option<real>, preRequestCost: real, requestCost: real) {
    threshold.Some? && preRequestCost < threshold.value && preRequestCost + requestCost >= threshold.value
  }

  /** The counts `trackUsage` adds to the row of one request, in the long-prompt columns past 200k prompt tokens. */
  method CountRequest(entry: TokenUsageHistory, u: UsageMetadata) returns (r: TokenUsageHistory)
    ensures r == AddUsage(entry, u)
  {
    var promptTotal := CountOrZero(u.promptTokenCount);
    var cached := CountOrZero(u.cachedContentTokenCount);
    var candidates := CountOrZero(u.candidatesTokenCount);
    var thinking := CountOrZero(u.thoughtsTokenCount);
    var total := CountOrZero(u.totalTokenCount);
    var billingInput := if promptTotal - cached > 0 then promptTotal - cached else 0;
    var billingOutput := candidates + thinking;
    var isOver200k := promptTotal > 200000;
    r := entry;
    if isOver200k {
      r := r.(inputTokensOver200k := r.inputTokensOver200k + billingInput);
      r := r.(outputTokensOver200k := r.outputTokensOver200k + billingOutput);
      r := r.(cachedTokensOver200k := r.cachedTokensOver200k + cached);
    } else {
      r := r.(inputTokens := r.inputTokens + billingInput);
      r := r.(outputTokens := r.outputTokens + billingOutput);
      r := r.(cachedTokens := r.cachedTokens + cached);
    }
    r := r.(thinkingTokens := r.thinkingTokens + thinking);
    r := r.(totalTokens := r.totalTokens + total);
  }

  /**
   * `trackUsage` over the table.  `saved` is whether the storage transaction commits;
   * when it does not, nothing is stored and the answer is false.
   */
  class UsageTable {
    var records: seq<TokenUsageHistory>

    constructor()
      ensures records == []
    {
      records := [];
    }

    method TrackUsage(model: string, usage: Option<UsageMetadata>, threshold: Option<real>, today: string,
                      preRequestCost: real, requestCost: real, saved: bool) returns (crossed: bool)
      modifies this
      ensures crossed <==> usage.Some? && saved && Crosses(threshold, preRequestCost, requestCost)
      ensures records ==
        if usage.None? || (threshold.Some? && preRequestCost >= threshold.value) || !saved then old(records)
        else Tracked(old(records), today, model, usage.value)
    {
      if usage.None? {
        return false;
      }
      if threshold.Some? && preRequestCost >= threshold.value {
        return false;
      }
      if !saved {
        return false;
      }
      var i := KeyIndex(records, today, model);
      var entry := if i >= 0 then records[i] else EmptyEntry(today, model);
      entry := CountRequest(entry, usage.value);
      if i >= 0 {
        records := records[i := entry];
      } else {
        records := records + [entry];
      }
      crossed := threshold.Some? && preRequestCost < threshold.value && preRequestCost + requestCost >= threshold.value;
    }
  }

  /**
   * Along a day of requests with non-negative costs, where each request starts from the
   * cost reached by the previous ones, at most one request reports the crossing.
   */
  function Crossings(threshold: Option<real>, cost: real, requestCosts: seq<real>): nat
    decreases |requestCosts|
  {
    if |requestCosts| == 0 then 0
    else
      var here := if Crosses(threshold, cost, requestCosts[0]) then 1 else 0;
      here + Crossings(threshold, cost + requestCosts[0], requestCosts[1..])
  }

  lemma {:induction false} NoCrossingAbove(threshold: Option<real>, cost: real, requestCosts: seq<real>)
    requires threshold.Some? && cost >= threshold.value
    requires forall k :: 0 <= k < |requestCosts| ==> requestCosts[k] >= 0.0
    ensures Crossings(threshold, cost, requestCosts) == 0
    decreases |requestCosts|
  {
    if |requestCosts| > 0 {
      NoCrossingAbove(threshold, cost + requestCosts[0], requestCosts[1..]);
    }
  }

  lemma {:induction false} AtMostOneCrossing(threshold: Option<real>, cost: real, requestCosts: seq<real>)
    requires forall k :: 0 <= k < |requestCosts| ==> requestCosts[k] >= 0.0
    ensures Crossings(threshold, cost, requestCosts) <= 1
    decreases |requestCosts|
  {
    if |requestCosts| > 0 {
      if Crosses(threshold, cost, requestCosts[0]) {
        NoCrossingAbove(threshold, cost + requestCosts[0], requestCosts[1..]);
      } else {
        AtMostOneCrossing(threshold, cost + requestCosts[0], requestCosts[1..]);
      }
    }
  }

  /* ---------------- getStats ---------------- */

  datatype TokenTotals = TokenTotals(input: int, output: int, cached: int, thinking: int)

  function Plus(a: TokenTotals, b: TokenTotals): TokenTotals {
    TokenTotals(a.input + b.input, a.output + b.output, a.cached + b.cached, a.thinking + b.thinking)
  }

  function Minus(a: TokenTotals, b: TokenTotals): TokenTotals {
    TokenTotals(a.input - b.input, a.output - b.output, a.cached - b.cached, a.thinking - b.thinking)
  }

  /** What one row adds: normal plus over-200k buckets, and the reasoning tokens. */
  function RowTotals(r: TokenUsageHistory): TokenTotals {
    TokenTotals(r.inputTokens + r.inputTokensOver200k, r.outputTokens + r.outputTokensOver200k,
                r.cachedTokens + r.cachedTokensOver200k, r.thinkingTokens)
  }

  function Totals(records: seq<TokenUsageHistory>): TokenTotals {
    if |records| == 0 then TokenTotals(0, 0, 0, 0)
    else Plus(Totals(records[..|records| - 1]), RowTotals(records[|records| - 1]))
  }

  /** The rows `getStats` reads: dates in [start, end] (compared as strings), of one model unless the filter is "all". */
  predicate Selected(r: TokenUsageHistory, startDate: string, endDate: string, modelFilter: string) {
    Le(startDate, r.date) && Le(r.date, endDate) && (modelFilter == "all" || r.model == modelFilter)
  }

  function SelectedRows(records: seq<TokenUsageHistory>, startDate: string, endDate: string, modelFilter: string): (r: seq<TokenUsageHistory>)
    ensures |r| <= |records|
    ensures forall k :: 0 <= k < |r| ==> Selected(r[k], startDate, endDate, modelFilter)
  {
    if |records| == 0 then []
    else
      var init := SelectedRows(records[..|records| - 1], startDate, endDate, modelFilter);
      var last := records[|records| - 1];
      if Selected(last, startDate, endDate, modelFilter) then init + [last] else init
  }

  /** The selected rows are exactly the rows passing the filter, every one of them, in their stored order. */
  lemma {:induction false} SelectedRowsFilter(records: seq<TokenUsageHistory>, startDate: string, endDate: string, modelFilter: string)
    ensures SelectedRows(records, startDate, endDate, modelFilter)
         == Lists.Filter(records, (x: TokenUsageHistory) => Selected(x, startDate, endDate, modelFilter))
    ensures forall x :: x in records && Selected(x, startDate, endDate, modelFilter) ==> x in SelectedRows(records, startDate, endDate, modelFilter)
    decreases |records|
  {
    var p := (x: TokenUsageHistory) => Selected(x, startDate, endDate, modelFilter);
    if |records| > 0 {
      var init := records[..|records| - 1];
      var last := records[|records| - 1];
      SelectedRowsFilter(init, startDate, endDate, modelFilter);
      assert records == init + [last];
      Lists.FilterAppend(init, [last], p);
      assert Lists.Filter([last], p) == if p(last) then [last] else [] by {
        assert [last][1..] == [];
      }
    }
  }

  /** The token part of `getStats`: the accumulation loop over the selected rows. */
  method GetStats(records: seq<TokenUsageHistory>, startDate: string, endDate: string, modelFilter: string)
    returns (stats: TokenTotals)
    ensures stats == Totals(SelectedRows(records, startDate, endDate, modelFilter))
  {
    var rows: seq<TokenUsageHistory> := [];
    for i := 0 to |records|
      invariant rows == SelectedRows(records[..i], startDate, endDate, modelFilter)
    {
      assert records[..i + 1][..i] == records[..i];
      if Selected(records[i], startDate, endDate, modelFilter) {
        rows := rows + [records[i]];
      }
    }
    assert records[..|records|] == records;
    stats := TokenTotals(0, 0, 0, 0);
    for i := 0 to |rows|
      invariant stats == Totals(rows[..i])
    {
      assert rows[..i + 1][..i] == rows[..i];
      var r := rows[i];
      stats := stats.(input := stats.input + (r.inputTokens + r.inputTokensOver200k));
      stats := stats.(output := stats.output + (r.outputTokens + r.outputTokensOver200k));
      stats := stats.(cached := stats.cached + (r.cachedTokens + r.cachedTokensOver200k));
      stats := stats.(thinking := stats.thinking + r.thinkingTokens);
    }
    assert rows[..|rows|] == rows;
  }

  lemma {:induction false} TotalsUpdate(records: seq<TokenUsageHistory>, i: nat, e: TokenUsageHistory)
    requires i < |records|
    ensures Totals(records[i := e]) == Plus(Minus(Totals(records), RowTotals(records[i])), RowTotals(e))
    decreases |records|
  {
    var n := |records| - 1;
    if i < n {
      TotalsUpdate(records[..n], i, e);
      assert records[i := e][..n] == records[..n][i := e];
    } else {
      assert records[i := e][..n] == records[..n];
    }
  }

  /** What one stored request adds to the totals. */
  function UsageTotals(u: UsageMetadata): TokenTotals {
    TokenTotals(BillingInput(u), BillingOutput(u), CountOrZero(u.cachedContentTokenCount), CountOrZero(u.thoughtsTokenCount))
  }

  /**
   * The totals over the whole table grow by exactly the billed counts of the stored
   * request, whichever buckets they went to.
   */
  lemma TrackedTotals(records: seq<TokenUsageHistory>, date: string, model: string, u: UsageMetadata)
    ensures Totals(Tracked(records, date, model, u)) == Plus(Totals(records), UsageTotals(u))
  {
    var i := KeyIndex(records, date, model);
    if i >= 0 {
      TotalsUpdate(records, i, AddUsage(records[i], u));
    } else {
      var r := records + [AddUsage(EmptyEntry(date, model), u)];
      assert r[..|r| - 1] == records;
    }
  }
}
