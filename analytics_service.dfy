/**
 * Interaction analytics (bot/services/analytics_service.py): the interaction log, the
 * cached monthly-active-users count, retention cleanup, the admin report, and the
 * display strings for the count.
 *
 * Time is an integer number of seconds. The cache is one optional cell holding the MAU
 * count; entries never expire in this model. Failures of the database or of the cache
 * are parameters of the operations that can meet them.
 */
module AnalyticsService {
  import opened Wrappers
  import opened Models
  import Strings

  const Day: nat := 86400
  /** `DEFAULT_DISPLAY_CONFIG['label']`. */
  const DefaultLabel: string := "monthly active users"
  const DefaultLowCountThreshold: int := 10

  // ---------------------------------------------------------------- queries over the log

  /** `UserInteraction.objects.filter(timestamp__gte=since).values('user').distinct()`. */
  function ActiveUsers(log: seq<Interaction>, since: int): (r: set<UserId>)
    ensures forall u :: u in r <==> exists i :: 0 <= i < |log| && log[i].timestamp >= since && log[i].user == u
  {
    set i | 0 <= i < |log| && log[i].timestamp >= since :: log[i].user
  }

  /** A wider window never holds fewer active users. */
  lemma ActiveUsersMonotone(log: seq<Interaction>, since: int, since': int)
    requires since' <= since
    ensures ActiveUsers(log, since) <= ActiveUsers(log, since')
  {
  }

  /** Distinct users are no more than the records in the window. */
  lemma {:induction false} ActiveUsersAtMostRecords(log: seq<Interaction>, since: int)
    ensures |ActiveUsers(log, since)| <= |Kept(log, since)|
  {
    if log != [] {
      var rest := log[1..];
      ActiveUsersAtMostRecords(rest, since);
      ActiveUsersOfTail(log, since);
      if log[0].timestamp >= since {
        assert Kept(log, since) == [log[0]] + Kept(rest, since);
      } else {
        assert Kept(log, since) == Kept(rest, since);
      }
    }
  }

  /** The active users of a log are those of its tail, plus the first record's user if it is in the window. */
  lemma ActiveUsersOfTail(log: seq<Interaction>, since: int)
    requires log != []
    ensures ActiveUsers(log, since)
         == ActiveUsers(log[1..], since) + (if log[0].timestamp >= since then {log[0].user} else {})
  {
    var rest := log[1..];
    forall u | u in ActiveUsers(log, since)
      ensures u in ActiveUsers(rest, since) || (log[0].timestamp >= since && u == log[0].user)
    {
      var i :| 0 <= i < |log| && log[i].timestamp >= since && log[i].user == u;
      if i > 0 {
        assert rest[i - 1] == log[i];
      }
    }
    forall u | u in ActiveUsers(rest, since)
      ensures u in ActiveUsers(log, since)
    {
      var i :| 0 <= i < |rest| && rest[i].timestamp >= since && rest[i].user == u;
      assert log[i + 1] == rest[i];
    }
  }

  /** The records at or after `cutoff`, in order: what survives `filter(timestamp__lt=cutoff).delete()`. */
  function Kept(log: seq<Interaction>, cutoff: int): (r: seq<Interaction>)
    ensures |r| <= |log|
    ensures forall i :: 0 <= i < |r| ==> r[i].timestamp >= cutoff
    decreases |log|
  {
    if log == [] then []
    else (if log[0].timestamp >= cutoff then [log[0]] else []) + Kept(log[1..], cutoff)
  }

  /** The records before `cutoff`: what the cleanup deletes. */
  function Stale(log: seq<Interaction>, cutoff: int): (r: seq<Interaction>)
    ensures forall i :: 0 <= i < |r| ==> r[i].timestamp < cutoff
    decreases |log|
  {
    if log == [] then []
    else (if log[0].timestamp < cutoff then [log[0]] else []) + Stale(log[1..], cutoff)
  }

  /** Every record is either kept or deleted, never both, never neither. */
  lemma {:induction false} KeptAndStalePartition(log: seq<Interaction>, cutoff: int)
    ensures multiset(Kept(log, cutoff)) + multiset(Stale(log, cutoff)) == multiset(log)
    decreases |log|
  {
    if log != [] {
      var rest := log[1..];
      KeptAndStalePartition(rest, cutoff);
      assert log == [log[0]] + rest;
      assert multiset(log) == multiset([log[0]]) + multiset(rest);
      if log[0].timestamp >= cutoff {
        assert Kept(log, cutoff) == [log[0]] + Kept(rest, cutoff);
        assert multiset(Kept(log, cutoff)) == multiset([log[0]]) + multiset(Kept(rest, cutoff));
        assert Stale(log, cutoff) == Stale(rest, cutoff);
      } else {
        assert Kept(log, cutoff) == Kept(rest, cutoff);
        assert Stale(log, cutoff) == [log[0]] + Stale(rest, cutoff);
        assert multiset(Stale(log, cutoff)) == multiset([log[0]]) + multiset(Stale(rest, cutoff));
      }
    }
  }

  /** So the kept and the deleted records add up to the whole log. */
  lemma KeptAndStaleSizes(log: seq<Interaction>, cutoff: int)
    ensures |Kept(log, cutoff)| + |Stale(log, cutoff)| == |log|
  {
    KeptAndStalePartition(log, cutoff);
    assert |multiset(Kept(log, cutoff)) + multiset(Stale(log, cutoff))| == |multiset(log)|;
  }

  /** The number of records of interaction type `kind`. */
  function CountKind(log: seq<Interaction>, kind: string): (n: nat)
    ensures n <= |log|
    ensures n > 0 <==> exists i :: 0 <= i < |log| && log[i].kind == kind
    decreases |log|
  {
    if log == [] then 0
    else
      var n := (if log[0].kind == kind then 1 else 0) + CountKind(log[1..], kind);
      assert forall i :: 0 <= i < |log[1..]| ==> log[1..][i] == log[i + 1];
      n
  }

  /** The interaction types that occur in the log. */
  function Kinds(log: seq<Interaction>): (r: set<string>)
    ensures forall k :: k in r <==> exists i :: 0 <= i < |log| && log[i].kind == k
  {
    set i | 0 <= i < |log| :: log[i].kind
  }

  // ---------------------------------------------------------------- the analytics store

  /** The interaction table and the MAU cache cell. */
  class Analytics {
    var log: seq<Interaction>
    var cache: Option<nat>

    constructor ()
      ensures log == [] && cache == None
    {
      log, cache := [], None;
    }

    /**
     * `get_monthly_active_users_count`: a cached value is returned as it is; otherwise
     * the distinct users active in the last 30 days, which are then cached. A failed
     * query yields the value read from the cache if there was one, else 0.
     */
    method GetMonthlyActiveUsersCount(now: int, cacheGetFails: bool, queryFails: bool, cacheSetFails: bool)
      returns (count: nat)
      modifies this
      ensures log == old(log)
      ensures !cacheGetFails && old(cache).Some? ==> count == old(cache).value && cache == old(cache)
      ensures (cacheGetFails || old(cache).None?) && !queryFails ==>
                && count == |ActiveUsers(log, now - 30 * Day)|
                && cache == (if cacheSetFails then old(cache) else Some(count))
      ensures (cacheGetFails || old(cache).None?) && queryFails ==> count == 0 && cache == old(cache)
    {
      if !cacheGetFails && cache.Some? {
        return cache.value;
      }
      if queryFails {
        // the source's stale-cache fallback never applies: a value read from the cache has returned above
        return 0;
      }
      count := |ActiveUsers(log, now - 30 * Day)|;
      if !cacheSetFails {
        cache := Some(count);
      }
    }

    /**
     * `get_admin_analytics_report`: aggregate counts only. The total is counted first, so
     * when that query fails (`totalFails`) the monthly count is never asked for and the
     * cache is untouched; the monthly count comes from `GetMonthlyActiveUsersCount`, and
     * may be written to the cache even when a later query fails (`laterFails`).
     */
    method GetAdminAnalyticsReport(now: int, totalFails: bool, cacheGetFails: bool, queryFails: bool,
                                   cacheSetFails: bool, laterFails: bool)
      returns (r: AdminReport)
      modifies this
      ensures log == old(log)
      ensures totalFails ==> r == AdminReport(0, 0, 0, 0, map[]) && cache == old(cache)
      ensures !totalFails && !cacheGetFails && old(cache).Some? ==>
                r == ReportOf(log, now, old(cache).value, laterFails) && cache == old(cache)
      ensures !totalFails && (cacheGetFails || old(cache).None?) && !queryFails ==>
                && r == ReportOf(log, now, |ActiveUsers(log, now - 30 * Day)|, laterFails)
                && cache == (if cacheSetFails then old(cache) else Some(|ActiveUsers(log, now - 30 * Day)|))
                && (!laterFails ==> r.weeklyActiveUsers <= r.monthlyActiveUsers)
      ensures !totalFails && (cacheGetFails || old(cache).None?) && queryFails ==>
                r == ReportOf(log, now, 0, laterFails) && cache == old(cache)
    {
      if totalFails {
        return AdminReport(0, 0, 0, 0, map[]);
      }
      var mau := GetMonthlyActiveUsersCount(now, cacheGetFails, queryFails, cacheSetFails);
      FreshReportWindowsNest(log, now);
      r := ReportOf(log, now, mau, laterFails);
    }

    /** `clear_cache`: drop the cached count; a failing cache is ignored. */
    method ClearCache(fails: bool)
      modifies this
      ensures log == old(log)
      ensures cache == (if fails then old(cache) else None)
    {
      if !fails {
        cache := None;
      }
    }

    /**
     * `track_user_interaction`: refuse a missing user or an empty type; otherwise try
     * to store the record up to `maxRetries + 1` times. `succeeds(k)` says whether
     * attempt k (from 0) stores it; `waits` are the pauses between attempts, in tenths
     * of a second.
     */
    method TrackUserInteraction(user: Option<UserId>, kind: string, maxRetries: nat, succeeds: seq<bool>, now: int)
      returns (r: Option<Interaction>, attempts: nat, waits: seq<nat>)
      modifies this
      ensures cache == old(cache)
      ensures user.None? || kind == "" ==> r.None? && attempts == 0 && log == old(log)
      ensures user.Some? && kind != "" ==>
        && 1 <= attempts <= maxRetries + 1
        && (forall k :: 0 <= k < attempts - 1 ==> !Succeeds(succeeds, k))
        && |waits| == attempts - 1
        && (forall k :: 0 <= k < |waits| ==> waits[k] == Pow2(k))
        && (Succeeds(succeeds, attempts - 1) ==>
              r == Some(Interaction(user.value, kind, now)) && log == old(log) + [r.value])
        && (!Succeeds(succeeds, attempts - 1) ==> attempts == maxRetries + 1 && r.None? && log == old(log))
    {
      r, attempts, waits := None, 0, [];
      if user.None? || kind == "" {
        return;
      }
      var attempt := 0;
      while attempt <= maxRetries
        invariant 0 <= attempt <= maxRetries + 1
        invariant attempts == attempt && log == old(log) && cache == old(cache) && r.None?
        invariant forall k :: 0 <= k < attempt ==> !Succeeds(succeeds, k)
        invariant |waits| == if attempt <= maxRetries then attempt else maxRetries
        invariant forall k :: 0 <= k < |waits| ==> waits[k] == Pow2(k)
        decreases maxRetries + 1 - attempt
      {
        attempts := attempt + 1;
        if Succeeds(succeeds, attempt) {
          r := Some(Interaction(user.value, kind, now));
          log := log + [r.value];
          return;
        }
        if attempt < maxRetries {
          // `(2 ** attempt) * 0.1` seconds
          waits := waits + [Pow2(attempt)];
        }
        attempt := attempt + 1;
      }
    }

    /**
     * `cleanup_old_interactions(days)`: delete the records older than `days` days, clear
     * the cache and return how many went; if the delete fails, nothing changes and 0 is
     * returned.
     */
    method CleanupOldInteractions(days: int, now: int, fails: bool, cacheFails: bool) returns (deleted: nat)
      modifies this
      ensures fails ==> deleted == 0 && log == old(log) && cache == old(cache)
      ensures !fails ==>
        && log == Kept(old(log), now - days * Day)
        && deleted == |Stale(old(log), now - days * Day)|
        && deleted == |old(log)| - |log|
        && cache == (if cacheFails then old(cache) else None)
    {
      if fails {
        return 0;
      }
      var cutoff := now - days * Day;
      KeptAndStaleSizes(log, cutoff);
      deleted := |Stale(log, cutoff)|;
      log := Kept(log, cutoff);
      ClearCache(cacheFails);
    }
  }

  /** Whether attempt `k` succeeds; attempts past the end of `succeeds` fail. */
  predicate Succeeds(succeeds: seq<bool>, k: nat) {
    k < |succeeds| && succeeds[k]
  }

  function Pow2(k: nat): (r: nat)
    ensures r >= 1
  {
    if k == 0 then 1 else 2 * Pow2(k - 1)
  }

  /** Each retry waits twice as long as the one before. */
  lemma Pow2Doubles(k: nat)
    ensures Pow2(k + 1) == 2 * Pow2(k)
  {
  }

  // ---------------------------------------------------------------- admin report

  datatype AdminReport = AdminReport(
    totalInteractions: nat,
    monthlyActiveUsers: nat,
    dailyActiveUsers: nat,
    weeklyActiveUsers: nat,
    breakdown: map<string, nat>)

  /** `interaction_types_breakdown`: each type present, with its number of records. */
  function Breakdown(log: seq<Interaction>): (m: map<string, nat>)
    ensures forall k :: k in m <==> exists i :: 0 <= i < |log| && log[i].kind == k
    ensures forall k :: k in m ==> 1 <= m[k] <= |log| && m[k] == CountKind(log, k)
  {
    map k | k in Kinds(log) :: CountKind(log, k)
  }

  /**
   * The report `get_admin_analytics_report` builds from the interaction table, given the
   * monthly count `mau`; a failing query gives the all-zero report.
   */
  function ReportOf(log: seq<Interaction>, now: int, mau: nat, fails: bool): (r: AdminReport)
    ensures fails ==> r == AdminReport(0, 0, 0, 0, map[])
    ensures !fails ==>
      && r.totalInteractions == |log|
      && r.monthlyActiveUsers == mau
      && r.dailyActiveUsers == |ActiveUsers(log, now - Day)|
      && r.weeklyActiveUsers == |ActiveUsers(log, now - 7 * Day)|
      && r.dailyActiveUsers <= r.weeklyActiveUsers <= r.totalInteractions
      && r.breakdown == Breakdown(log)
  {
    if fails then AdminReport(0, 0, 0, 0, map[])
    else
      ActiveUsersMonotone(log, now - Day, now - 7 * Day);
      Models.SubsetSize(ActiveUsers(log, now - Day), ActiveUsers(log, now - 7 * Day));
      ActiveUsersAtMostRecords(log, now - 7 * Day);
      AdminReport(|log|, mau, |ActiveUsers(log, now - Day)|, |ActiveUsers(log, now - 7 * Day)|, Breakdown(log))
  }

  /** With a freshly counted MAU, the report's windows nest: daily <= weekly <= monthly <= total. */
  lemma FreshReportWindowsNest(log: seq<Interaction>, now: int)
    ensures var r := ReportOf(log, now, |ActiveUsers(log, now - 30 * Day)|, false);
      r.dailyActiveUsers <= r.weeklyActiveUsers <= r.monthlyActiveUsers <= r.totalInteractions
  {
    ActiveUsersMonotone(log, now - 7 * Day, now - 30 * Day);
    Models.SubsetSize(ActiveUsers(log, now - 7 * Day), ActiveUsers(log, now - 30 * Day));
    ActiveUsersAtMostRecords(log, now - 30 * Day);
  }

  // ---------------------------------------------------------------- display strings

  /** `count/d` printed with one decimal, the tenths rounded half up. */
  function OneDecimal(count: nat, d: nat): (s: string)
    requires d >= 10
  {
    var tenths := (count * 10 + d / 2) / d;
    Strings.NatToString(tenths / 10) + "." + [Strings.DigitChar(tenths % 10)]
  }

  /** `format_user_count`. */
  function FormatUserCount(count: int): (s: string)
    ensures count < 1000 ==> s == Strings.IntToString(count)
    ensures 1000 <= count < 1000000 ==> |s| >= 4 && s[|s| - 1] == 'K'
    ensures count >= 1000000 ==> |s| >= 4 && s[|s| - 1] == 'M'
    ensures |s| > 0
  {
    if count < 1000 then Strings.IntToString(count)
    else if count < 1000000 then OneDecimal(count, 1000) + "K"
    else OneDecimal(count, 1000000) + "M"
  }

  /** A display configuration as given: each key may be missing. */
  datatype DisplayConfig = DisplayConfig(
    format: Option<string>,
    position: Option<string>,
    labelText: Option<string>,
    showLabel: Option<bool>,
    hideLowCounts: Option<bool>,
    lowCountThreshold: Option<int>)

  /** A configuration with every key present. */
  datatype FullConfig = FullConfig(
    format: string, position: string, labelText: string, showLabel: bool, hideLowCounts: bool, lowCountThreshold: int)

  const DefaultDisplayConfig: FullConfig :=
    FullConfig("abbreviated", "inline", DefaultLabel, true, false, DefaultLowCountThreshold)

  function Or<T>(o: Option<T>, d: T): T { if o.Some? then o.value else d }

  /** `DEFAULT_DISPLAY_CONFIG.copy()` updated with the given keys. */
  function Merge(config: Option<DisplayConfig>): (c: FullConfig)
    ensures config.None? ==> c == DefaultDisplayConfig
    ensures config.Some? ==>
      && c.format == Or(config.value.format, DefaultDisplayConfig.format)
      && c.position == Or(config.value.position, DefaultDisplayConfig.position)
      && c.labelText == Or(config.value.labelText, DefaultDisplayConfig.labelText)
      && c.showLabel == Or(config.value.showLabel, DefaultDisplayConfig.showLabel)
      && c.hideLowCounts == Or(config.value.hideLowCounts, DefaultDisplayConfig.hideLowCounts)
      && c.lowCountThreshold == Or(config.value.lowCountThreshold, DefaultDisplayConfig.lowCountThreshold)
  {
    if config.None? then DefaultDisplayConfig
    else
      var g := config.value;
      FullConfig(Or(g.format, "abbreviated"), Or(g.position, "inline"), Or(g.labelText, DefaultLabel),
                 Or(g.showLabel, true), Or(g.hideLowCounts, false), Or(g.lowCountThreshold, DefaultLowCountThreshold))
  }

  /** The count as `format_display` prints it: in full, or abbreviated. */
  function FormattedCount(count: int, c: FullConfig): (s: string)
    ensures c.format == "full" ==> s == Strings.IntToString(count)
    ensures c.format != "full" ==> s == FormatUserCount(count)
    ensures |s| > 0
  {
    Strings.IntToStringChars(count);
    if c.format == "full" then Strings.IntToString(count) else FormatUserCount(count)
  }

  /** `format_display`. */
  function FormatDisplay(count: int, config: Option<DisplayConfig>): (s: string)
    ensures var c := Merge(config);
      && (s == "" <==> c.hideLowCounts && count < c.lowCountThreshold)
      && (s != "" && !c.showLabel ==> s == FormattedCount(count, c))
      && (s != "" && c.showLabel && c.position == "separate_line" ==> s == c.labelText + "\n" + FormattedCount(count, c))
      && (s != "" && c.showLabel && c.position != "separate_line" ==> s == FormattedCount(count, c) + " " + c.labelText)
  {
    var c := Merge(config);
    if c.hideLowCounts && count < c.lowCountThreshold then ""
    else
      var f := FormattedCount(count, c);
      if !c.showLabel then f
      else if c.position == "separate_line" then c.labelText + "\n" + f
      else f + " " + c.labelText
  }
}
