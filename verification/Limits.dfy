/**
 The usage log and the two checks made over it: requests per minute and tokens per
 UTC day.  Time is counted in microseconds, the resolution of a timestamptz column.
 */
module Limits {
  import opened Wrappers

  datatype Status = Success | Error | ClientDisconnect | RateLimited | BudgetExceeded

  /** A row of model_usage.  `request` and `admitted` are bookkeeping of the model: which
      request wrote the row, and whether that request had passed every check. */
  datatype UsageRow = UsageRow(
    agent: string,
    delegation: Option<string>,
    status: Status,
    inputTokens: Option<int>,
    outputTokens: Option<int>,
    createdAt: int,
    request: nat,
    admitted: bool)

  const MINUTE: int := 60_000_000

  function Seconds(t: int): int { t / 1_000_000 }

  function DayOf(t: int): int { t / 86_400_000_000 }

  function DayStart(t: int): int { DayOf(t) * 86_400_000_000 }

  predicate Counted(status: Status) { status.Success? || status.Error? }

  /** SUM skips a row in which either count is NULL. */
  function Tokens(row: UsageRow): int {
    if row.inputTokens.Some? && row.outputTokens.Some?
    then row.inputTokens.value + row.outputTokens.value
    else 0
  }

  /** The WHERE clause shared by the four queries: an agent, possibly one delegation of
      it, counted statuses only, and rows created after `since`. */
  datatype Filter = Filter(agent: string, delegation: Option<string>, since: int)

  predicate Matches(f: Filter, row: UsageRow) {
    && row.agent == f.agent
    && (f.delegation.None? || row.delegation == f.delegation)
    && Counted(row.status)
    && row.createdAt > f.since
  }

  function Count(rows: seq<UsageRow>, f: Filter): nat {
    if rows == [] then 0
    else
      var n := |rows| - 1;
      Count(rows[..n], f) + (if Matches(f, rows[n]) then 1 else 0)
  }

  function SumTokens(rows: seq<UsageRow>, f: Filter): int {
    if rows == [] then 0
    else
      var n := |rows| - 1;
      SumTokens(rows[..n], f) + (if Matches(f, rows[n]) then Tokens(rows[n]) else 0)
  }

  /** An empty delegation id counts as none. */
  function DelegationFilter(delegation: Option<string>): Option<string> {
    if delegation == Some("") then None else delegation
  }

  function RateFilter(agent: string, delegation: Option<string>, now: int): Filter {
    Filter(agent, DelegationFilter(delegation), now - MINUTE)
  }

  function BudgetFilter(agent: string, delegation: Option<string>, now: int): Filter {
    Filter(agent, DelegationFilter(delegation), DayStart(now) - 1)
  }

  predicate RateAllowed(rows: seq<UsageRow>, agent: string, delegation: Option<string>, now: int, maxRpm: int) {
    Count(rows, RateFilter(agent, delegation, now)) < maxRpm
  }

  predicate BudgetAllowed(rows: seq<UsageRow>, agent: string, delegation: Option<string>, now: int, maxTokens: int) {
    SumTokens(rows, BudgetFilter(agent, delegation, now)) < maxTokens
  }
}
