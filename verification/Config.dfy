/** The settings the scheduler and the limiter run under, and the clamps that validation applies to them. */
module Configs {
  import opened Durations

  datatype Scheduler = Scheduler(
    enabled: bool, minInterval: int, maxCyclesPerHour: int,
    maxReservedTokensPerDay: int, cooldownAfterError: int, historyLimit: int)

  datatype AI = AI(
    enabled: bool, hasKey: bool, autoAnalyze: bool, maxTokens: int, maxRequestsPerMinute: int, scheduler: Scheduler)

  datatype Settings = Settings(port: int, interval: int, maxProcesses: int, sparklinePoints: int, ai: AI)

  function AtLeast(x: int, bound: int): int {
    if x < bound then bound else x
  }

  /** What the scheduler may rely on. */
  predicate Clamped(ai: AI) {
    && ai.maxTokens >= 64
    && ai.maxRequestsPerMinute >= 1
    && ai.scheduler.minInterval >= 15 * SECOND
    && ai.scheduler.maxCyclesPerHour >= 1
    && ai.scheduler.maxReservedTokensPerDay >= ai.maxTokens
    && ai.scheduler.cooldownAfterError >= 30 * SECOND
    && ai.scheduler.historyLimit >= 1
  }

  function Clamp(ai: AI): AI {
    var maxTokens := AtLeast(ai.maxTokens, 64);
    AI(ai.enabled, ai.hasKey, ai.autoAnalyze, maxTokens, AtLeast(ai.maxRequestsPerMinute, 1),
       Scheduler(ai.scheduler.enabled,
                 AtLeast(ai.scheduler.minInterval, 15 * SECOND),
                 AtLeast(ai.scheduler.maxCyclesPerHour, 1),
                 AtLeast(ai.scheduler.maxReservedTokensPerDay, maxTokens),
                 AtLeast(ai.scheduler.cooldownAfterError, 30 * SECOND),
                 AtLeast(ai.scheduler.historyLimit, 1)))
  }

  /** Validation makes a configuration acceptable to the scheduler, and leaves alone one that already is. */
  lemma ClampFixesExactly(ai: AI)
    ensures Clamped(Clamp(ai))
    ensures Clamp(ai) == ai <==> Clamped(ai)
    ensures Clamp(Clamp(ai)) == Clamp(ai)
  {
  }

  /** Every number of ai is at least that of least, and the switches agree. */
  predicate AtMost(least: AI, ai: AI) {
    && ai.enabled == least.enabled && ai.hasKey == least.hasKey && ai.autoAnalyze == least.autoAnalyze
    && ai.scheduler.enabled == least.scheduler.enabled
    && least.maxTokens <= ai.maxTokens && least.maxRequestsPerMinute <= ai.maxRequestsPerMinute
    && least.scheduler.minInterval <= ai.scheduler.minInterval
    && least.scheduler.maxCyclesPerHour <= ai.scheduler.maxCyclesPerHour
    && least.scheduler.maxReservedTokensPerDay <= ai.scheduler.maxReservedTokensPerDay
    && least.scheduler.cooldownAfterError <= ai.scheduler.cooldownAfterError
    && least.scheduler.historyLimit <= ai.scheduler.historyLimit
  }

  /** Of all configurations the scheduler accepts that lower nothing, the clamped one is the least. */
  lemma ClampIsLeast(ai: AI, other: AI)
    ensures AtMost(ai, Clamp(ai)) && Clamped(Clamp(ai))
    ensures AtMost(ai, other) && Clamped(other) ==> AtMost(Clamp(ai), other)
  {
  }

  class Config {
    var port: int
    var interval: int
    var maxProcesses: int
    var sparklinePoints: int
    var aiEnabled: bool
    var hasKey: bool
    var autoAnalyze: bool
    var maxTokens: int
    var maxRequestsPerMinute: int
    var schedulerEnabled: bool
    var minInterval: int
    var maxCyclesPerHour: int
    var maxReservedTokensPerDay: int
    var cooldownAfterError: int
    var historyLimit: int

    ghost function AISection(): AI reads this {
      AI(aiEnabled, hasKey, autoAnalyze, maxTokens, maxRequestsPerMinute,
         Scheduler(schedulerEnabled, minInterval, maxCyclesPerHour, maxReservedTokensPerDay, cooldownAfterError,
             historyLimit))
    }

    ghost function View(): Settings reads this {
      Settings(port, interval, maxProcesses, sparklinePoints, AISection())
    }

    /** Rejects an unusable configuration untouched; otherwise raises every field to its bound. */
    method Validate() returns (ok: bool)
      modifies this
      ensures ok <==> 1 <= old(port) <= 65535 && old(interval) >= 100_000_000
      ensures !ok ==> View() == old(View())
      ensures ok ==> Clamped(AISection()) && AISection() == Clamp(old(AISection()))
      ensures ok ==> port == old(port) && interval == old(interval)
                     && maxProcesses == (if old(maxProcesses) < 100 then 100 else old(maxProcesses))
                     && sparklinePoints == (if old(sparklinePoints) < 10 then 10 else old(sparklinePoints))
    {
      if port < 1 || port > 65535 {
        return false;
      }
      if interval < SECOND / 10 {
        return false;
      }
      ClampLimits();
      ClampScheduler();
      return true;
    }

    /** The first clamps, one field at a time. */
    method ClampLimits()
      modifies `maxProcesses, `sparklinePoints, `maxTokens, `maxRequestsPerMinute
      ensures maxProcesses == AtLeast(old(maxProcesses), 100)
      ensures sparklinePoints == AtLeast(old(sparklinePoints), 10)
      ensures maxTokens == AtLeast(old(maxTokens), 64)
      ensures maxRequestsPerMinute == AtLeast(old(maxRequestsPerMinute), 1)
    {
      if maxProcesses < 100 {
        maxProcesses := 100;
      }
      if sparklinePoints < 10 {
        sparklinePoints := 10;
      }
      if maxTokens < 64 {
        maxTokens := 64;
      }
      if maxRequestsPerMinute < 1 {
        maxRequestsPerMinute := 1;
      }
    }

    /** The scheduler's clamps; the daily budget is raised to cover one request of the clamped size. */
    method ClampScheduler()
      modifies `minInterval, `maxCyclesPerHour, `maxReservedTokensPerDay, `cooldownAfterError, `historyLimit
      ensures minInterval == AtLeast(old(minInterval), 15 * SECOND)
      ensures maxCyclesPerHour == AtLeast(old(maxCyclesPerHour), 1)
      ensures maxReservedTokensPerDay == AtLeast(old(maxReservedTokensPerDay), maxTokens)
      ensures cooldownAfterError == AtLeast(old(cooldownAfterError), 30 * SECOND)
      ensures historyLimit == AtLeast(old(historyLimit), 1)
    {
      if minInterval < 15 * SECOND {
        minInterval := 15 * SECOND;
      }
      if maxCyclesPerHour < 1 {
        maxCyclesPerHour := 1;
      }
      if maxReservedTokensPerDay < maxTokens {
        maxReservedTokensPerDay := maxTokens;
      }
      if cooldownAfterError < 30 * SECOND {
        cooldownAfterError := 30 * SECOND;
      }
      if historyLimit < 1 {
        historyLimit := 1;
      }
    }
  }
}
