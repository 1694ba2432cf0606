/** One displayed line of chat text with its expiry timer and its optional
    fade timer (the source's ColorTimerString). A slot is a value: the
    displayer keeps 25 of them in an array and overwrites them in place. */
module ChatSlot {
  import opened Timers

  /** Length of the fade that follows expiry, when fading is used. */
  const FADE_TIME: nat := 100

  /** Text colour; carried along, never inspected. */
  datatype Color = Color(r: real, g: real, b: real)

  datatype ColorTimerString = ColorTimerString(
    str: string,
    color: Color,
    groupId: nat,
    timer: Timer,
    usingFadeTimer: bool,
    fadeTimer: Timer)
  {
    /** set: store a new line with a fresh expiry countdown and a stopped
        fade timer. */
    function Set(s: string, useFadeTimer: bool, c: Color, time: nat, id: nat): (r: ColorTimerString)
      ensures r.str == s && r.color == c && r.groupId == id && r.usingFadeTimer == useFadeTimer
      ensures r.timer.current == time && r.fadeTimer.current == 0
      ensures r.HasExpired() <==> time == 0
      ensures !r.Fading()
      ensures time > 0 ==> r.Key() == (if useFadeTimer then FADE_TIME else 0) + time
    {
      ColorTimerString(s, c, id, timer.Reset(time), useFadeTimer, fadeTimer.Clear())
    }

    /** Both countdowns have run out: the line is no longer shown in the
        mode that hides expired lines. */
    predicate HasExpired()
    {
      timer.current == 0 && fadeTimer.current == 0
    }

    /** The line has expired and is fading out. */
    predicate Fading()
    {
      timer.current == 0 && fadeTimer.current > 0
    }

    /** idle: advance both countdowns by one frame. The flag is true when the
        line stops being shown ("is disappearing"). When the expiry countdown
        runs out and fading is used, the fade countdown starts instead and the
        flag stays false. */
    function Idle(timeDelta: nat): (r: (ColorTimerString, bool))
      ensures r.0.str == str && r.0.color == color && r.0.groupId == groupId
      ensures r.0.usingFadeTimer == usingFadeTimer
      ensures r.0.timer.current <= timer.current
    {
      var main := timer.Update(timeDelta);
      if main.1 then
        if !usingFadeTimer then (this.(timer := main.0), true)
        else (this.(timer := main.0, fadeTimer := fadeTimer.Reset(FADE_TIME)), false)
      else
        var fade := fadeTimer.Update(timeDelta);
        (this.(timer := main.0, fadeTimer := fade.0), fade.1)
    }

    /** The shape every slot keeps: the fade countdown only runs after the
        expiry countdown stopped, and only in a slot that uses fading; both
        countdowns stay within their starting values. */
    predicate WellFormed(expireTime: nat)
    {
      && (fadeTimer.current > 0 ==> timer.current == 0 && usingFadeTimer)
      && timer.current <= expireTime
      && fadeTimer.current <= FADE_TIME
    }

    /** What is left of the line's life: the expiry countdown plus the whole
        fade still to come, or the remaining fade. Lines inserted later never
        have a smaller key, which is what makes expiry first-in first-out. */
    function Key(): nat
    {
      if timer.current > 0 then (if usingFadeTimer then FADE_TIME else 0) + timer.current
      else fadeTimer.current
    }
  }

  /** The largest key that reports expiry on a step of timeDelta. */
  function ReportLimit(usingFadeTimer: bool, timeDelta: nat): nat
  {
    if usingFadeTimer && FADE_TIME < timeDelta then FADE_TIME else timeDelta
  }

  /** The key a running line has after a step that did not retire it. */
  function KeyStep(usingFadeTimer: bool, key: nat, timeDelta: nat): int
  {
    if usingFadeTimer && key > FADE_TIME && key - timeDelta < FADE_TIME then FADE_TIME
    else key - timeDelta
  }

  /** set keeps nothing of the slot's previous occupant. */
  lemma SetForgetsPreviousOccupant(a: ColorTimerString, b: ColorTimerString, s: string, useFadeTimer: bool, c: Color, time: nat, id: nat)
    ensures a.Set(s, useFadeTimer, c, time, id) == b.Set(s, useFadeTimer, c, time, id)
  {
  }

  /** Without fading, idle reports exactly on the step where the expiry
        countdown reaches zero. */
  lemma IdleWithoutFading(x: ColorTimerString, timeDelta: nat)
    requires !x.usingFadeTimer && x.fadeTimer.current == 0
    ensures x.Idle(timeDelta).1 == x.timer.Update(timeDelta).1
    ensures x.Idle(timeDelta).0.fadeTimer.current == 0
  {
  }

  /** With fading, the step where the expiry countdown reaches zero reports
      nothing and starts the fade countdown at FADE_TIME. */
  lemma IdleStartsFading(x: ColorTimerString, timeDelta: nat)
    requires x.usingFadeTimer && x.timer.Update(timeDelta).1
    ensures !x.Idle(timeDelta).1
    ensures x.Idle(timeDelta).0.Fading() && x.Idle(timeDelta).0.fadeTimer.current == FADE_TIME
  {
  }

  /** Once the expiry countdown has stopped, idle reports exactly on the step
      where the fade countdown reaches zero. */
  lemma IdleEndsFading(x: ColorTimerString, timeDelta: nat)
    requires x.timer.current == 0
    ensures x.Idle(timeDelta).1 == x.fadeTimer.Update(timeDelta).1
  {
  }

  /** idle reports exactly the step on which a line passes from shown to
      expired, and leaves an expired line as it is. */
  lemma IdleReportsExpiry(x: ColorTimerString, timeDelta: nat)
    requires x.fadeTimer.current > 0 ==> x.timer.current == 0
    ensures x.Idle(timeDelta).1 <==> !x.HasExpired() && x.Idle(timeDelta).0.HasExpired()
    ensures x.HasExpired() ==> x.Idle(timeDelta) == (x, false)
    ensures var y := x.Idle(timeDelta).0; y.fadeTimer.current > 0 ==> y.timer.current == 0
  {
    var main := x.timer.Update(timeDelta);
    if !main.1 {
      if x.fadeTimer.current > 0 {
        assert x.timer.current == 0;
      }
    }
  }

  /** idle keeps a slot well formed. */
  lemma IdleKeepsWellFormed(x: ColorTimerString, expireTime: nat, timeDelta: nat)
    requires x.WellFormed(expireTime)
    ensures x.Idle(timeDelta).0.WellFormed(expireTime)
  {
  }

  /** A well-formed line reports expiry on a step exactly when its key is
      positive and within the step's limit. */
  lemma ReportsIffKeyWithinLimit(x: ColorTimerString, expireTime: nat, timeDelta: nat)
    requires x.WellFormed(expireTime)
    ensures x.Idle(timeDelta).1 <==> 0 < x.Key() <= ReportLimit(x.usingFadeTimer, timeDelta)
  {
  }

  /** A running line that a step does not retire has the key KeyStep gives. */
  lemma KeyAfterIdle(x: ColorTimerString, expireTime: nat, timeDelta: nat)
    requires x.WellFormed(expireTime) && !x.HasExpired() && !x.Idle(timeDelta).1
    ensures x.Idle(timeDelta).0.Key() == KeyStep(x.usingFadeTimer, x.Key(), timeDelta)
  {
  }

  /** KeyStep keeps the order of keys. */
  lemma KeyStepMonotone(usingFadeTimer: bool, k: nat, l: nat, timeDelta: nat)
    requires k <= l
    ensures KeyStep(usingFadeTimer, k, timeDelta) <= KeyStep(usingFadeTimer, l, timeDelta)
  {
  }

  function Sum(ds: seq<nat>): nat
  {
    if ds == [] then 0 else ds[0] + Sum(ds[1..])
  }

  /** A slot driven by a sequence of frames: its final state and how many
      times idle reported expiry. */
  function Run(x: ColorTimerString, ds: seq<nat>): (r: (ColorTimerString, nat))
    decreases |ds|
  {
    if ds == [] then (x, 0)
    else
      var step := x.Idle(ds[0]);
      var rest := Run(step.0, ds[1..]);
      (rest.0, rest.1 + (if step.1 then 1 else 0))
  }

  /** However many frames pass, a slot reports expiry at most once, and it
      reports once exactly when it goes from shown to expired. */
  lemma {:induction false} ReportsAtMostOnce(x: ColorTimerString, ds: seq<nat>)
    requires x.fadeTimer.current > 0 ==> x.timer.current == 0
    ensures Run(x, ds).1 <= 1
    ensures Run(x, ds).1 == 1 <==> !x.HasExpired() && Run(x, ds).0.HasExpired()
    ensures x.HasExpired() ==> Run(x, ds) == (x, 0)
    decreases |ds|
  {
    if ds != [] {
      IdleReportsExpiry(x, ds[0]);
      ReportsAtMostOnce(x.Idle(ds[0]).0, ds[1..]);
    }
  }

  /** A slot never reports expiry before frames adding up to its whole
      remaining life (its key) have passed. */
  lemma {:induction false} NoReportBeforeLifetime(x: ColorTimerString, expireTime: nat, ds: seq<nat>)
    requires x.WellFormed(expireTime)
    ensures Run(x, ds).1 > 0 ==> Sum(ds) >= x.Key()
    decreases |ds|
  {
    if ds != [] {
      var step := x.Idle(ds[0]);
      IdleKeepsWellFormed(x, expireTime, ds[0]);
      NoReportBeforeLifetime(step.0, expireTime, ds[1..]);
      ReportsIffKeyWithinLimit(x, expireTime, ds[0]);
      if !step.1 && !x.HasExpired() {
        KeyAfterIdle(x, expireTime, ds[0]);
      }
      if x.HasExpired() {
        IdleReportsExpiry(x, ds[0]);
      }
    }
  }

  /** Without fading, a running slot reports expiry exactly once if and only
      if the frames add up to at least its remaining expiry time. */
  lemma {:induction false} ExpiresWhenLifetimeElapses(x: ColorTimerString, ds: seq<nat>)
    requires !x.usingFadeTimer && x.fadeTimer.current == 0 && x.timer.current > 0
    ensures Run(x, ds).1 == (if Sum(ds) >= x.timer.current then 1 else 0)
    decreases |ds|
  {
    if ds != [] {
      var step := x.Idle(ds[0]);
      if step.1 {
        ReportsAtMostOnce(step.0, ds[1..]);
      } else {
        ExpiresWhenLifetimeElapses(step.0, ds[1..]);
      }
    }
  }
}
