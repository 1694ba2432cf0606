/** The displayer's state as a value, and each of its operations as a
    function of that state. The ring holds SIZE slots; two counters that only
    grow between resets address it: `first` is the position of the newest line and `last`
    the position just before the oldest line still counted, so the counted
    lines are the positions last+1 .. first, and position p lives in slot
    p % SIZE. */
module ChatRing {
  import opened Numeric
  import opened Timers
  import opened ChatSlot
  import opened DisplayPolicy

  /** One slot more than can be shown, for the scrolling effect. */
  const SIZE: nat := MAX_MESSAGES + 1

  /** What the displayer is built with and never changes: top-down or
      bottom-up layout, the short-mode line count (a signed argument), and
      the two time constants whose values are not part of this model
      (MESSAGE_EXPIRE_TIME and SCROLL_TIME). */
  datatype Config = Config(
    topDown: bool,
    messagesToShowInShortMode: int,
    expireTime: nat,
    scrollTime: nat)

  datatype DisplayerState = DisplayerState(
    messages: seq<ColorTimerString>,
    first: nat,
    last: nat,
    full: bool,
    displayMode: DisplayMode,
    chatScrollTimer: Timer,
    nextGroupId: nat)

  /** getMessageCount: the distance from tail to head, as the U32 the source
      returns. */
  function MessageCount(st: DisplayerState): (n: nat)
    ensures n < U32_LIMIT
    ensures st.last <= st.first < st.last + U32_LIMIT ==> n == st.first - st.last
    ensures st.first < st.last <= st.first + U32_LIMIT ==> n == U32_LIMIT - (st.last - st.first)
  {
    AsU32(st.first - st.last)
  }

  /** isScrolling: the scroll animation runs until its timer is stopped. */
  predicate Scrolling(st: DisplayerState): (b: bool)
    ensures !b <==> st.chatScrollTimer == st.chatScrollTimer.Clear()
  {
    st.chatScrollTimer.current > 0
  }

  /** advanceFirst: the head moves on by one; when it lands on the tail's
      slot the tail moves on too and the ring is marked full. */
  function Advanced(st: DisplayerState): (r: DisplayerState)
    ensures r.first == st.first + 1
    ensures r.last == st.last || r.last == st.last + 1
    ensures r.messages == st.messages && r.displayMode == st.displayMode
    ensures r.chatScrollTimer == st.chatScrollTimer && r.nextGroupId == st.nextGroupId
  {
    var first := st.first + 1;
    if st.last % SIZE == first % SIZE then st.(first := first, last := st.last + 1, full := true)
    else st.(first := first)
  }

  /** Advancing `n` times with no line stored in between. */
  function AdvancedTimes(st: DisplayerState, n: nat): DisplayerState
  {
    if n == 0 then st else Advanced(AdvancedTimes(st, n - 1))
  }

  /** The loop body of onChatMessageReceived: make room at the head, then
      store the line in the head's slot with a fresh expiry countdown. Lines
      fade only in the bottom-up layout. */
  function WithLine(cfg: Config, st: DisplayerState, line: string, color: Color): (r: DisplayerState)
    requires |st.messages| == SIZE
    ensures |r.messages| == SIZE
    ensures r.first == st.first + 1
    ensures r.messages[r.first % SIZE].str == line && r.messages[r.first % SIZE].groupId == st.nextGroupId
    ensures forall i :: 0 <= i < SIZE && i != r.first % SIZE ==> r.messages[i] == st.messages[i]
  {
    var a := Advanced(st);
    var i := a.first % SIZE;
    a.(messages := a.messages[i := a.messages[i].Set(line, !cfg.topDown, color, cfg.expireTime, a.nextGroupId)])
  }

  /** The lines of one message stored one after another, in order. */
  function InsertLines(cfg: Config, st: DisplayerState, lines: seq<string>, color: Color): (r: DisplayerState)
    requires |st.messages| == SIZE
    ensures |r.messages| == SIZE
    ensures r.first == st.first + |lines| && r.nextGroupId == st.nextGroupId
    ensures r.displayMode == st.displayMode && r.chatScrollTimer == st.chatScrollTimer
    decreases |lines|
  {
    if lines == [] then st
    else WithLine(cfg, InsertLines(cfg, st, lines[..|lines| - 1], color), lines[|lines| - 1], color)
  }

  /** onChatMessageReceived, given the wrapped lines of the substituted
      text: all lines share the group id, the next message gets the next id,
      and the bottom-up layout starts its scroll animation. */
  function Received(cfg: Config, st: DisplayerState, color: Color, lines: seq<string>): (r: DisplayerState)
    requires |st.messages| == SIZE
    ensures |r.messages| == SIZE
    ensures r.first == st.first + |lines| && r.nextGroupId == st.nextGroupId + 1
    ensures !cfg.topDown ==> r.chatScrollTimer.current == cfg.scrollTime
    ensures cfg.topDown ==> r.chatScrollTimer == st.chatScrollTimer
  {
    var s := InsertLines(cfg, st, lines, color);
    s.(nextGroupId := s.nextGroupId + 1,
       chatScrollTimer := if !cfg.topDown then s.chatScrollTimer.Reset(cfg.scrollTime) else s.chatScrollTimer)
  }

  /** What reset leaves in one slot: both countdowns stopped, no text. */
  function Blanked(x: ColorTimerString): (r: ColorTimerString)
    ensures r.HasExpired() && r.str == []
    ensures r.color == x.color && r.groupId == x.groupId && r.usingFadeTimer == x.usingFadeTimer
    ensures forall expireTime: nat :: r.WellFormed(expireTime)
  {
    x.(timer := x.timer.Clear(), fadeTimer := x.fadeTimer.Clear(), str := "")
  }

  /** reset: no line is counted and no slot is shown any longer. */
  function Cleared(st: DisplayerState): (r: DisplayerState)
    ensures r.first == 0 && r.last == 0 && !r.full && |r.messages| == |st.messages|
    ensures forall i :: 0 <= i < |r.messages| ==> r.messages[i].HasExpired() && r.messages[i].str == []
    ensures forall i :: 0 <= i < |r.messages| ==>
      var x, y := st.messages[i], r.messages[i];
      y.color == x.color && y.groupId == x.groupId && y.usingFadeTimer == x.usingFadeTimer
    ensures r.displayMode == st.displayMode && r.chatScrollTimer == st.chatScrollTimer && r.nextGroupId == st.nextGroupId
  {
    st.(first := 0, last := 0, full := false,
        messages := seq(|st.messages|, i requires 0 <= i < |st.messages| => Blanked(st.messages[i])))
  }

  /** toggleDisplayMode */
  function Toggled(st: DisplayerState): (r: DisplayerState)
    ensures Ordinal(r.displayMode) == (Ordinal(st.displayMode) + 1) % MessageDisplayModes
    ensures r == st.(displayMode := r.displayMode)
  {
    st.(displayMode := NextMode(st.displayMode))
  }

  /** Every slot after one idle step. */
  function IdleSlots(slots: seq<ColorTimerString>, timeDelta: nat): (r: seq<ColorTimerString>)
    ensures |r| == |slots|
    ensures forall i :: 0 <= i < |slots| ==> r[i] == slots[i].Idle(timeDelta).0
  {
    seq(|slots|, i requires 0 <= i < |slots| => slots[i].Idle(timeDelta).0)
  }

  /** How many slots report expiry on an idle step. */
  function Reports(slots: seq<ColorTimerString>, timeDelta: nat): (n: nat)
    ensures n <= |slots|
  {
    if slots == [] then 0
    else Reports(slots[..|slots| - 1], timeDelta) + (if slots[|slots| - 1].Idle(timeDelta).1 then 1 else 0)
  }

  /** How many slots are still shown (neither countdown has run out). */
  function LiveSlots(slots: seq<ColorTimerString>): (n: nat)
    ensures n <= |slots|
  {
    if slots == [] then 0
    else LiveSlots(slots[..|slots| - 1]) + (if slots[|slots| - 1].HasExpired() then 0 else 1)
  }

  /** Whether the idle loop, having visited the first n slots, has restarted
      the scroll timer: in the top-down layout it does so whenever a slot
      reports and the count at that moment is within the show limit. */
  function ScrollResetDue(cfg: Config, slots: seq<ColorTimerString>, timeDelta: nat, first: nat, last: nat, show: nat, n: nat): bool
    requires n <= |slots|
  {
    if n == 0 then false
    else
      || ScrollResetDue(cfg, slots, timeDelta, first, last, show, n - 1)
      || (cfg.topDown && slots[n - 1].Idle(timeDelta).1
          && AsU32(first - (last + Reports(slots[..n], timeDelta))) <= show)
  }

  /** idle: the scroll timer counts down, every slot is advanced, and the
      tail moves on by one for every slot that reports expiry. */
  function AfterIdle(cfg: Config, st: DisplayerState, timeDelta: nat, composing: bool): (r: DisplayerState)
    ensures r.first == st.first && r.last == st.last + Reports(st.messages, timeDelta)
    ensures r.messages == IdleSlots(st.messages, timeDelta)
    ensures r.full == st.full && r.displayMode == st.displayMode && r.nextGroupId == st.nextGroupId
  {
    var show := NumberOfMessagesToShow(st.displayMode, cfg.messagesToShowInShortMode, composing);
    var scroll := st.chatScrollTimer.Update(timeDelta).0;
    st.(messages := IdleSlots(st.messages, timeDelta),
        last := st.last + Reports(st.messages, timeDelta),
        chatScrollTimer :=
          if ScrollResetDue(cfg, st.messages, timeDelta, st.first, st.last, show, |st.messages|)
          then scroll.Reset(cfg.scrollTime) else scroll)
  }

  /** The idle loop after it has visited slots 0 .. n - 1, starting from
      `st`, whose scroll timer has already counted down: each visited slot
      is advanced, and each report moves the tail on and, in the top-down
      layout, restarts the scroll animation when the count is then within
      `show`. */
  function IdleUpTo(cfg: Config, st: DisplayerState, timeDelta: nat, show: nat, n: nat): (r: DisplayerState)
    requires n <= |st.messages|
    ensures |r.messages| == |st.messages|
    ensures forall k :: n <= k < |st.messages| ==> r.messages[k] == st.messages[k]
    ensures r.first == st.first && r.full == st.full && r.displayMode == st.displayMode && r.nextGroupId == st.nextGroupId
    decreases n
  {
    if n == 0 then st
    else IdleVisit(cfg, IdleUpTo(cfg, st, timeDelta, show, n - 1), n - 1, st.messages[n - 1].Idle(timeDelta), show)
  }

  /** One pass of the idle loop: store the advanced slot at `i`; on a
      report move the tail on and, in the top-down layout, restart the
      scroll animation when the count is then within `show`. */
  function IdleVisit(cfg: Config, s: DisplayerState, i: nat, step: (ColorTimerString, bool), show: nat): (r: DisplayerState)
    requires i < |s.messages|
    ensures r.messages == s.messages[i := step.0]
    ensures r.last == if step.1 then s.last + 1 else s.last
    ensures r.chatScrollTimer ==
      if step.1 && cfg.topDown && AsU32(r.first - r.last) <= show then s.chatScrollTimer.Reset(cfg.scrollTime)
      else s.chatScrollTimer
    ensures r.first == s.first && r.full == s.full && r.displayMode == s.displayMode && r.nextGroupId == s.nextGroupId
  {
    var s1 := s.(messages := s.messages[i := step.0]);
    if !step.1 then s1
    else if cfg.topDown && AsU32(s1.first - (s1.last + 1)) <= show then
      s1.(last := s1.last + 1, chatScrollTimer := s1.chatScrollTimer.Reset(cfg.scrollTime))
    else s1.(last := s1.last + 1)
  }

  /** After n passes, the first n slots hold their advanced contents. */
  lemma {:induction false} IdleUpToAdvancesSlots(cfg: Config, st: DisplayerState, timeDelta: nat, show: nat, n: nat)
    requires n <= |st.messages|
    ensures forall k :: 0 <= k < n ==> IdleUpTo(cfg, st, timeDelta, show, n).messages[k] == st.messages[k].Idle(timeDelta).0
  {
    if n > 0 {
      IdleUpToAdvancesSlots(cfg, st, timeDelta, show, n - 1);
    }
  }

  /** After n passes, the tail has moved on once per report among them. */
  lemma {:induction false} IdleUpToCountsReports(cfg: Config, st: DisplayerState, timeDelta: nat, show: nat, n: nat)
    requires n <= |st.messages|
    ensures IdleUpTo(cfg, st, timeDelta, show, n).last == st.last + Reports(st.messages[..n], timeDelta)
  {
    if n > 0 {
      IdleUpToCountsReports(cfg, st, timeDelta, show, n - 1);
      ReportsStep(st.messages, timeDelta, n);
    }
  }

  /** After n passes, the scroll animation has been restarted exactly when
      one of those reports left the count within `show`. */
  lemma {:induction false} IdleUpToResetsScroll(cfg: Config, st: DisplayerState, timeDelta: nat, show: nat, n: nat)
    requires n <= |st.messages|
    ensures IdleUpTo(cfg, st, timeDelta, show, n).chatScrollTimer ==
      (if ScrollResetDue(cfg, st.messages, timeDelta, st.first, st.last, show, n)
       then st.chatScrollTimer.Reset(cfg.scrollTime) else st.chatScrollTimer)
  {
    if n > 0 {
      IdleUpToResetsScroll(cfg, st, timeDelta, show, n - 1);
      IdleUpToCountsReports(cfg, st, timeDelta, show, n - 1);
      ReportsStep(st.messages, timeDelta, n);
      var prev := IdleUpTo(cfg, st, timeDelta, show, n - 1);
      var step := st.messages[n - 1].Idle(timeDelta);
      assert IdleUpTo(cfg, st, timeDelta, show, n) == IdleVisit(cfg, prev, n - 1, step, show);
      ScrollResetDueStep(cfg, st.messages, timeDelta, st.first, st.last, show, n);
      VisitResetsScroll(cfg, prev, n - 1, step, show,
        ScrollResetDue(cfg, st.messages, timeDelta, st.first, st.last, show, n - 1),
        st.chatScrollTimer, st.first, st.last + Reports(st.messages[..n], timeDelta));
    }
  }

  /** Unfolds one step of Reports over a prefix. */
  lemma ReportsStep(slots: seq<ColorTimerString>, timeDelta: nat, n: nat)
    requires 0 < n <= |slots|
    ensures Reports(slots[..n], timeDelta) ==
      Reports(slots[..n - 1], timeDelta) + (if slots[n - 1].Idle(timeDelta).1 then 1 else 0)
  {
    assert slots[..n][..n - 1] == slots[..n - 1];
  }

  /** Unfolds one step of ScrollResetDue. */
  lemma ScrollResetDueStep(cfg: Config, slots: seq<ColorTimerString>, timeDelta: nat, first: nat, last: nat, show: nat, n: nat)
    requires 0 < n <= |slots|
    ensures ScrollResetDue(cfg, slots, timeDelta, first, last, show, n) ==
      (ScrollResetDue(cfg, slots, timeDelta, first, last, show, n - 1)
       || (cfg.topDown && slots[n - 1].Idle(timeDelta).1
           && AsU32(first - (last + Reports(slots[..n], timeDelta))) <= show))
  {
  }

  /** One pass restarts the scroll animation when it was due already or
      when this slot's report leaves the count within `show`. */
  lemma VisitResetsScroll(cfg: Config, prev: DisplayerState, i: nat, step: (ColorTimerString, bool), show: nat,
                          dueBefore: bool, start: Timer, first: nat, tail: nat)
    requires i < |prev.messages| && prev.first == first
    requires step.1 ==> prev.last + 1 == tail
    requires prev.chatScrollTimer == if dueBefore then start.Reset(cfg.scrollTime) else start
    ensures IdleVisit(cfg, prev, i, step, show).chatScrollTimer ==
      (if dueBefore || (cfg.topDown && step.1 && AsU32(first - tail) <= show) then start.Reset(cfg.scrollTime) else start)
  {
  }

  /** The whole idle loop computes AfterIdle. */
  lemma IdleLoopIsAfterIdle(cfg: Config, st: DisplayerState, timeDelta: nat, composing: bool)
    ensures var show := NumberOfMessagesToShow(st.displayMode, cfg.messagesToShowInShortMode, composing);
      var counted := st.(chatScrollTimer := st.chatScrollTimer.Update(timeDelta).0);
      IdleUpTo(cfg, counted, timeDelta, show, |st.messages|) == AfterIdle(cfg, st, timeDelta, composing)
  {
    var show := NumberOfMessagesToShow(st.displayMode, cfg.messagesToShowInShortMode, composing);
    var counted := st.(chatScrollTimer := st.chatScrollTimer.Update(timeDelta).0);
    IdleUpToAdvancesSlots(cfg, counted, timeDelta, show, |st.messages|);
    IdleUpToCountsReports(cfg, counted, timeDelta, show, |st.messages|);
    IdleUpToResetsScroll(cfg, counted, timeDelta, show, |st.messages|);
    assert st.messages[..|st.messages|] == st.messages;
    assert IdleUpTo(cfg, counted, timeDelta, show, |st.messages|).messages == IdleSlots(st.messages, timeDelta);
  }

  /** The ring read from the oldest slot to the newest: entry k holds
      position first - MAX_MESSAGES + k, so the last entry is the head. */
  function Window(slots: seq<ColorTimerString>, first: nat): (w: seq<ColorTimerString>)
    requires |slots| == SIZE
    ensures |w| == SIZE && w[SIZE - 1] == slots[first % SIZE]
    ensures forall k :: 0 <= k < SIZE ==> w[k] == slots[(first + 1 + k) % SIZE]
  {
    seq(SIZE, k requires 0 <= k < SIZE => slots[(first + 1 + k) % SIZE])
  }

  /** Among the j newest positions first, first - 1, ..., first - j + 1, how
      many hold an expired line: what the backward scan of
      getCountOfMessagesToDisplay has met after j steps. */
  function ExpiredAmongNewest(slots: seq<ColorTimerString>, first: nat, j: nat): (n: nat)
    requires |slots| == SIZE && j <= first
    ensures n <= j
  {
    if j == 0 then 0
    else ExpiredAmongNewest(slots, first, j - 1) + (if slots[(first - (j - 1)) % SIZE].HasExpired() then 1 else 0)
  }

  /** How many lines the scan may show at most: it counts a line before it
      compares, so at least one. */
  function ShowCap(cfg: Config, st: DisplayerState, composing: bool): nat
  {
    Max(1, NumberOfMessagesToShow(st.displayMode, cfg.messagesToShowInShortMode, composing))
  }

  /** How many expired lines may be drawn because they are scrolling off. */
  function ScrolledOffAllowance(cfg: Config, st: DisplayerState): nat
  {
    if Scrolling(st) && (cfg.topDown || st.full) then 1 else 0
  }

  /** Whether the scan stops at expired lines: neither composing, nor the
      chat box fading in, nor a mode that keeps expired lines visible. */
  predicate HidesExpired(st: DisplayerState, fadingIn: bool, composing: bool)
  {
    !(ShowExpiredMessages(st.displayMode, composing) || fadingIn)
  }

  /** What getCountOfMessagesToDisplay returns: nothing before the first
      line; while the chat box fades in, the newest MAX_MESSAGES lines;
      otherwise the longest run of newest lines that stays within the head,
      within the show cap and, when expired lines are hidden, within the
      scrolled-off allowance of expired ones. */
  predicate DisplayCount(cfg: Config, st: DisplayerState, fadingIn: bool, composing: bool, r: nat): (b: bool)
    requires |st.messages| == SIZE
    ensures b ==> r <= st.first
    ensures b && fadingIn ==> r <= MAX_MESSAGES
    ensures b && !fadingIn ==> r <= ShowCap(cfg, st, composing)
  {
    if st.first == 0 then r == 0
    else if fadingIn then r == Min(MAX_MESSAGES, st.first)
    else
      && r <= st.first && r <= ShowCap(cfg, st, composing)
      && (HidesExpired(st, fadingIn, composing) ==> ExpiredAmongNewest(st.messages, st.first, r) <= ScrolledOffAllowance(cfg, st))
      && (r < st.first && r < ShowCap(cfg, st, composing) ==>
            HidesExpired(st, fadingIn, composing)
            && ExpiredAmongNewest(st.messages, st.first, r + 1) > ScrolledOffAllowance(cfg, st))
  }

  // ---------------------------------------------------------------------
  // Properties of the head and tail counters

  /** advanceFirst moves the tail exactly when the head has caught up with
      it, and then marks the ring full; from a state whose count is within
      the ring, this happens exactly when the count was at its maximum. */
  lemma AdvanceMovesTailOnlyWhenFull(st: DisplayerState)
    requires st.last <= st.first && st.first - st.last <= SIZE - 1
    ensures var r := Advanced(st);
      && (r.last == st.last + 1 <==> st.first - st.last == SIZE - 1)
      && (r.last == st.last + 1 ==> r.full)
      && (r.last == st.last ==> r.full == st.full)
      && r.last <= r.first && r.first - r.last <= SIZE - 1
  {
    var d := st.first + 1 - st.last;
    assert 1 <= d <= SIZE;
    assert st.last % SIZE == (st.first + 1) % SIZE <==> d % SIZE == 0;
  }

  /** Over any number of inserts alone, the count stays between 0 and
      SIZE - 1. */
  lemma {:induction false} InsertsAloneKeepCountInRing(st: DisplayerState, n: nat)
    requires st.last <= st.first && st.first - st.last <= SIZE - 1
    ensures var r := AdvancedTimes(st, n);
      r.first == st.first + n && r.last <= r.first && r.first - r.last <= SIZE - 1
  {
    if n > 0 {
      InsertsAloneKeepCountInRing(st, n - 1);
      AdvanceMovesTailOnlyWhenFull(AdvancedTimes(st, n - 1));
    }
  }

  /** Storing lines moves the counters exactly as advancing alone does. */
  lemma {:induction false} InsertLinesAdvances(cfg: Config, st: DisplayerState, lines: seq<string>, color: Color)
    requires |st.messages| == SIZE
    ensures var r := InsertLines(cfg, st, lines, color); var a := AdvancedTimes(st, |lines|);
      r.first == a.first && r.last == a.last && r.full == a.full
    decreases |lines|
  {
    if lines != [] {
      InsertLinesAdvances(cfg, st, lines[..|lines| - 1], color);
    }
  }

  /** In the bottom-up layout a received message starts the scroll
      animation (when it has a positive period); in the top-down layout it
      leaves the animation as it was. */
  lemma ReceivingStartsScrollBottomUp(cfg: Config, st: DisplayerState, color: Color, lines: seq<string>)
    requires |st.messages| == SIZE
    ensures !cfg.topDown ==> (Scrolling(Received(cfg, st, color, lines)) <==> cfg.scrollTime > 0)
    ensures cfg.topDown ==> (Scrolling(Received(cfg, st, color, lines)) <==> Scrolling(st))
  {
  }

  // ---------------------------------------------------------------------
  // Properties of idle

  /** A zero-length step changes nothing. */
  lemma IdleByZeroChangesNothing(cfg: Config, st: DisplayerState, composing: bool)
    ensures AfterIdle(cfg, st, 0, composing) == st
  {
    forall i | 0 <= i < |st.messages|
      ensures st.messages[i].Idle(0) == (st.messages[i], false)
    {
      UpdateByZeroIsIdle(st.messages[i].timer);
      UpdateByZeroIsIdle(st.messages[i].fadeTimer);
    }
    assert IdleSlots(st.messages, 0) == st.messages;
    QuietStepReportsNothing(st.messages, 0);
    QuietStepResetsNoScroll(cfg, st.messages, 0, st.first, st.last,
      NumberOfMessagesToShow(st.displayMode, cfg.messagesToShowInShortMode, composing), |st.messages|);
    UpdateByZeroIsIdle(st.chatScrollTimer);
  }

  lemma {:induction false} QuietStepReportsNothing(slots: seq<ColorTimerString>, timeDelta: nat)
    requires forall i :: 0 <= i < |slots| ==> !slots[i].Idle(timeDelta).1
    ensures Reports(slots, timeDelta) == 0
    decreases |slots|
  {
    if slots != [] {
      QuietStepReportsNothing(slots[..|slots| - 1], timeDelta);
    }
  }

  lemma {:induction false} QuietStepResetsNoScroll(cfg: Config, slots: seq<ColorTimerString>, timeDelta: nat, first: nat, last: nat, show: nat, n: nat)
    requires n <= |slots|
    requires forall i :: 0 <= i < |slots| ==> !slots[i].Idle(timeDelta).1
    ensures !ScrollResetDue(cfg, slots, timeDelta, first, last, show, n)
  {
    if n > 0 {
      QuietStepResetsNoScroll(cfg, slots, timeDelta, first, last, show, n - 1);
    }
  }

  /** A prefix never has more reports than the whole. */
  lemma {:induction false} ReportsOfPrefix(slots: seq<ColorTimerString>, timeDelta: nat, n: nat)
    requires n <= |slots|
    ensures Reports(slots[..n], timeDelta) <= Reports(slots, timeDelta)
    decreases |slots|
  {
    if n < |slots| {
      assert slots[..|slots| - 1][..n] == slots[..n];
      ReportsOfPrefix(slots[..|slots| - 1], timeDelta, n);
    } else {
      assert slots[..n] == slots;
    }
  }

  /** While the tail cannot pass the head, the top-down layout restarts its
      scroll animation on an idle step exactly when some line expired and
      the count has come down to the show limit. */
  lemma {:induction false} ScrollResetWhenCountReachesLimit(cfg: Config, slots: seq<ColorTimerString>, timeDelta: nat, first: nat, last: nat, show: nat, n: nat)
    requires n <= |slots| && last + Reports(slots[..n], timeDelta) <= first < last + U32_LIMIT
    ensures ScrollResetDue(cfg, slots, timeDelta, first, last, show, n) <==>
      cfg.topDown && Reports(slots[..n], timeDelta) > 0 && first - (last + Reports(slots[..n], timeDelta)) <= show
  {
    if n > 0 {
      assert slots[..n][..n - 1] == slots[..n - 1] && slots[..n][n - 1] == slots[n - 1];
      var before := Reports(slots[..n - 1], timeDelta);
      var after := Reports(slots[..n], timeDelta);
      assert after == before + (if slots[n - 1].Idle(timeDelta).1 then 1 else 0);
      ScrollResetWhenCountReachesLimit(cfg, slots, timeDelta, first, last, show, n - 1);
      assert AsU32(first - (last + after)) == first - (last + after);
    }
  }

  // ---------------------------------------------------------------------
  // Properties of the count of lines to display

  lemma {:induction false} ExpiredAmongNewestGrows(slots: seq<ColorTimerString>, first: nat, j: nat, j': nat)
    requires |slots| == SIZE && j <= j' <= first
    ensures ExpiredAmongNewest(slots, first, j) <= ExpiredAmongNewest(slots, first, j')
    decreases j'
  {
    if j < j' {
      ExpiredAmongNewestGrows(slots, first, j, j' - 1);
    }
  }

  /** At most one count meets the description, so it determines what the
      scan returns. */
  lemma DisplayCountIsUnique(cfg: Config, st: DisplayerState, fadingIn: bool, composing: bool, r1: nat, r2: nat)
    requires |st.messages| == SIZE
    requires DisplayCount(cfg, st, fadingIn, composing, r1) && DisplayCount(cfg, st, fadingIn, composing, r2)
    ensures r1 == r2
  {
    if st.first != 0 && !fadingIn && r1 != r2 {
      var lo, hi := if r1 < r2 then r1 else r2, if r1 < r2 then r2 else r1;
      assert DisplayCount(cfg, st, fadingIn, composing, lo) && DisplayCount(cfg, st, fadingIn, composing, hi);
      ExpiredAmongNewestGrows(st.messages, st.first, lo + 1, hi);
    }
  }

  /** When expired lines are shown, the count is the head or the show cap,
      whichever is smaller. */
  lemma CountWhenExpiredShown(cfg: Config, st: DisplayerState, fadingIn: bool, composing: bool, r: nat)
    requires |st.messages| == SIZE && !fadingIn && ShowExpiredMessages(st.displayMode, composing)
    requires DisplayCount(cfg, st, fadingIn, composing, r)
    ensures r == Min(st.first, ShowCap(cfg, st, composing))
  {
  }
}
