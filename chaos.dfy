/** The chaos-injection context managers. Each runs its check after `yield`,
    which Python reaches only when the wrapped block exits normally (a `return`
    inside the block counts as normal); an exception raised in the block is
    thrown into the generator at `yield` and propagates from there unchanged.
    So a wrapper is a function of how the block ended: the random draw is a
    parameter and `time.sleep` becomes a returned latency. */
module Chaos {
  import opened Outcomes

  /** Settings of a fault injector: the enabled flag and the rate in percent. */
  datatype FaultSettings = FaultSettings(enabled: bool, rate: real)

  /** Settings of a delay injector: enabled flag, rate in percent, delay in milliseconds. */
  datatype DelaySettings = DelaySettings(enabled: bool, rate: real, ms: int)

  /** `random.randint(1, 100) <= rate` and the enabled flag, as both injectors test them. */
  function Triggers(draw: Draw, rate: real, enabled: bool): (b: bool)
    // a disabled injector never fires, whatever its rate
    ensures !enabled ==> !b
    // an enabled injector at rate 100 always fires, one at a rate below 1 never does
    ensures enabled && rate >= 100.0 ==> b
    ensures rate < 1.0 ==> !b
  {
    draw as real <= rate && enabled
  }

  /** What CPython's `time.sleep` raises for a negative duration. */
  const NEGATIVE_SLEEP := "sleep length must be non-negative"

  /** The exit of `fault_injection(message)` around a block that ended with `body`. */
  function FaultExit<T>(body: Outcome<T>, draw: Draw, s: FaultSettings, message: string): (r: Outcome<T>)
    // a failure of the block itself is never masked
    ensures body.Raised? ==> r == body
    // after a normal exit the fault fires exactly when the draw triggers
    ensures body.Returned? ==> (r.Raised? <==> Triggers(draw, s.rate, s.enabled))
    // an injected fault carries exactly the supplied message, and the block's value is discarded
    ensures body.Returned? && r.Raised? ==> r.error == Exception(message)
    // when nothing fires the block's value is left untouched
    ensures r.Returned? ==> r == body
  {
    if body.Raised? then body
    else if Triggers(draw, s.rate, s.enabled) then Raised(Exception(message))
    else body
  }

  /** The exit of `delay_injection()` around a block that ended with `body`:
      the outcome the caller sees and the seconds slept (`ms / 1000`). */
  function DelayExit<T>(body: Outcome<T>, draw: Draw, s: DelaySettings): (r: Delayed<Outcome<T>>)
    // after a failure of the block nothing is slept and the failure propagates
    ensures body.Raised? ==> r == Delayed(body, 0.0)
    // a delay never changes the block's value
    ensures r.value.Returned? ==> r.value == body
    // the delay is added exactly when the draw triggers after a normal exit
    ensures r.latency != 0.0 ==> body.Returned? && Triggers(draw, s.rate, s.enabled)
    ensures body.Returned? && Triggers(draw, s.rate, s.enabled) && s.ms >= 0 ==>
              r == Delayed(body, s.ms as real / 1000.0)
    ensures !Triggers(draw, s.rate, s.enabled) ==> r == Delayed(body, 0.0)
    // a negative duration makes the sleep itself raise
    ensures body.Returned? && Triggers(draw, s.rate, s.enabled) && s.ms < 0 ==>
              r == Delayed(Raised(ValueError(NEGATIVE_SLEEP)), 0.0)
  {
    if body.Raised? then Delayed(body, 0.0)
    else if Triggers(draw, s.rate, s.enabled) then
      if s.ms < 0 then Delayed(Raised(ValueError(NEGATIVE_SLEEP)), 0.0)
      else Delayed(body, s.ms as real / 1000.0)
    else Delayed(body, 0.0)
  }

  /** With injection enabled and a rate of 100, every successful block is turned into the fault. */
  lemma FullRateAlwaysFaults<T>(v: T, draw: Draw, s: FaultSettings, message: string)
    requires s.enabled && s.rate >= 100.0
    ensures FaultExit(Returned(v), draw, s, message) == Raised(Exception(message))
  {
  }

  /** With a rate below 1 no draw triggers, so the fault injector never changes an outcome. */
  lemma LowRateNeverFaults<T>(body: Outcome<T>, draw: Draw, s: FaultSettings, message: string)
    requires s.rate < 1.0
    ensures FaultExit(body, draw, s, message) == body
  {
  }

  /** With delay enabled, a rate of 100 and a non-negative duration, every successful block is
      delayed by `ms / 1000` seconds and its value is kept. */
  lemma FullRateAlwaysDelays<T>(v: T, draw: Draw, s: DelaySettings)
    requires s.enabled && s.rate >= 100.0 && s.ms >= 0
    ensures DelayExit(Returned(v), draw, s) == Delayed(Returned(v), s.ms as real / 1000.0)
  {
  }
}
