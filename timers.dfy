/** The countdown timer that every message slot and the scroll animation use.

    Its declaration is not part of this model, so its behaviour is an
    assumption, stated here once: `reset(t)` restarts the countdown at `t`,
    `clear()` sets it to zero, and `update(d)` counts down by `d`, stops at
    zero, and answers true only on the call in which a running countdown
    reaches zero. A timer also has a period: the scroll timer's reset() with
    no argument restarts it at that period, which this model writes as
    Reset(scrollTime); the period's other use, the rendering fraction, is
    left out. */
module Timers {

  datatype Timer = Timer(current: nat)
  {
    /** reset(t): the countdown restarts at t, whatever it was. */
    function Reset(t: nat): (r: Timer)
      ensures r.current == t
    {
      Timer(t)
    }

    /** clear(): the countdown stops at zero. */
    function Clear(): (r: Timer)
      ensures r.current == 0
    {
      Timer(0)
    }

    /** update(d): counts down by d, saturating at zero; the flag reports the
        step on which a running countdown reaches zero. */
    function Update(timeDelta: nat): (r: (Timer, bool))
      ensures r.1 <==> current > 0 && r.0.current == 0
      ensures r.0.current == if timeDelta >= current then 0 else current - timeDelta
    {
      if current == 0 then (this, false)
      else if timeDelta >= current then (Timer(0), true)
      else (Timer(current - timeDelta), false)
    }
  }

  /** A zero-length step changes nothing and reports nothing. */
  lemma UpdateByZeroIsIdle(t: Timer)
    ensures t.Update(0) == (t, false)
  {
  }

  /** A stopped countdown stays stopped and silent whatever the step. */
  lemma StoppedTimerStaysSilent(t: Timer, timeDelta: nat)
    requires t.current == 0
    ensures t.Update(timeDelta) == (t, false)
  {
  }
}
