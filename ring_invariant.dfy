/** What keeps the head and tail counters honest: the ring read from oldest
    to newest is a run of expired slots followed by exactly first - last
    running ones, whose remaining lives never decrease towards the head.
    Reset establishes this, storing a line keeps it as long as the ring does
    not overflow, and idle keeps it because lines then expire oldest first.
    An overflowing insert breaks it: the line pushed out of the count keeps
    its running countdown, and its later expiry moves the tail a second
    time, past the head. */
module RingInvariant {
  import opened Numeric
  import opened Timers
  import opened ChatSlot
  import opened DisplayPolicy
  import opened ChatRing

  /** The remaining life of a freshly stored line. */
  function FreshKey(cfg: Config): nat
  {
    (if !cfg.topDown then FADE_TIME else 0) + cfg.expireTime
  }

  /** The shape of the ring read from oldest to newest, with m expired
      entries in front. */
  ghost predicate WindowOk(cfg: Config, w: seq<ColorTimerString>, m: nat)
  {
    && m <= |w|
    && (forall k :: 0 <= k < |w| ==> w[k].WellFormed(cfg.expireTime))
    && (forall k :: 0 <= k < m ==> w[k].HasExpired())
    && (forall k :: m <= k < |w| ==> !w[k].HasExpired() && w[k].usingFadeTimer == !cfg.topDown)
    && (forall k, l :: m <= k <= l < |w| ==> w[k].Key() <= w[l].Key())
  }

  /** The counters agree with the slots: the count is within the ring and
      the running lines are exactly the newest first - last ones. */
  ghost predicate Coherent(cfg: Config, st: DisplayerState)
  {
    && |st.messages| == SIZE
    && st.last <= st.first && st.first - st.last <= MAX_MESSAGES
    && WindowOk(cfg, Window(st.messages, st.first), SIZE - (st.first - st.last))
  }

  // ---------------------------------------------------------------------
  // Counting over the ring

  lemma {:induction false} ReportsAppend(a: seq<ColorTimerString>, b: seq<ColorTimerString>, timeDelta: nat)
    ensures Reports(a + b, timeDelta) == Reports(a, timeDelta) + Reports(b, timeDelta)
    decreases |b|
  {
    if b == [] {
      assert a + b == a;
    } else {
      assert (a + b)[..|a + b| - 1] == a + b[..|b| - 1];
      ReportsAppend(a, b[..|b| - 1], timeDelta);
    }
  }

  lemma {:induction false} LiveSlotsAppend(a: seq<ColorTimerString>, b: seq<ColorTimerString>)
    ensures LiveSlots(a + b) == LiveSlots(a) + LiveSlots(b)
    decreases |b|
  {
    if b == [] {
      assert a + b == a;
    } else {
      assert (a + b)[..|a + b| - 1] == a + b[..|b| - 1];
      LiveSlotsAppend(a, b[..|b| - 1]);
    }
  }

  /** Position first + 1 + k of the ring, split at the rotation point. */
  lemma RotatedIndex(first: nat, k: nat)
    requires k < SIZE
    ensures var r := (first + 1) % SIZE;
      (first + 1 + k) % SIZE == if k < SIZE - r then r + k else k - (SIZE - r)
  {
    var q, r := (first + 1) / SIZE, (first + 1) % SIZE;
    assert first + 1 + k == q * SIZE + (r + k);
    if k >= SIZE - r {
      assert first + 1 + k == (q + 1) * SIZE + (k - (SIZE - r));
    }
  }

  /** The window is the ring rotated so that it starts after the head. */
  lemma WindowIsRotation(slots: seq<ColorTimerString>, first: nat)
    requires |slots| == SIZE
    ensures var r := (first + 1) % SIZE; Window(slots, first) == slots[r..] + slots[..r]
  {
    var r := (first + 1) % SIZE;
    var w := Window(slots, first);
    forall k | 0 <= k < SIZE
      ensures w[k] == (slots[r..] + slots[..r])[k]
    {
      RotatedIndex(first, k);
    }
  }

  /** Counting over the window counts over the ring. */
  lemma CountsOverWindow(slots: seq<ColorTimerString>, first: nat, timeDelta: nat)
    requires |slots| == SIZE
    ensures Reports(Window(slots, first), timeDelta) == Reports(slots, timeDelta)
    ensures LiveSlots(Window(slots, first)) == LiveSlots(slots)
  {
    var r := (first + 1) % SIZE;
    WindowIsRotation(slots, first);
    ReportsAppend(slots[r..], slots[..r], timeDelta);
    ReportsAppend(slots[..r], slots[r..], timeDelta);
    LiveSlotsAppend(slots[r..], slots[..r]);
    LiveSlotsAppend(slots[..r], slots[r..]);
    assert slots[..r] + slots[r..] == slots;
  }

  /** A sequence that is quiet, then reporting on [a, b), then quiet again
      has b - a reports. */
  lemma {:induction false} ReportsOfBlock(w: seq<ColorTimerString>, timeDelta: nat, a: nat, b: nat)
    requires a <= b <= |w|
    requires forall k :: 0 <= k < |w| ==> (w[k].Idle(timeDelta).1 <==> a <= k < b)
    ensures Reports(w, timeDelta) == b - a
    decreases |w|
  {
    if w != [] {
      var n := |w| - 1;
      var a', b' := Min(a, n), Min(b, n);
      assert forall k :: 0 <= k < n ==> w[..n][k] == w[k];
      ReportsOfBlock(w[..n], timeDelta, a', b');
    }
  }

  /** A sequence of m expired entries followed by running ones has
      |w| - m live entries. */
  lemma {:induction false} LiveSlotsOfSuffix(w: seq<ColorTimerString>, m: nat)
    requires m <= |w|
    requires forall k :: 0 <= k < |w| ==> (w[k].HasExpired() <==> k < m)
    ensures LiveSlots(w) == |w| - m
    decreases |w|
  {
    if w != [] {
      var n := |w| - 1;
      assert forall k :: 0 <= k < n ==> w[..n][k] == w[k];
      LiveSlotsOfSuffix(w[..n], Min(m, n));
    }
  }

  // ---------------------------------------------------------------------
  // Reset and the meaning of the count

  /** reset leaves the ring coherent: nothing counted, nothing running. */
  lemma ResetEstablishesCoherent(cfg: Config, st: DisplayerState)
    requires |st.messages| == SIZE
    ensures Coherent(cfg, Cleared(st))
  {
    var r := Cleared(st);
    var w := Window(r.messages, 0);
    forall k | 0 <= k < SIZE
      ensures w[k].HasExpired() && w[k].WellFormed(cfg.expireTime)
    {
      assert w[k] == Blanked(st.messages[(1 + k) % SIZE]);
    }
  }

  /** In a coherent state getMessageCount does not wrap, stays within the
      lines that can be shown, and counts exactly the running lines. */
  lemma CoherentCountIsLiveLines(cfg: Config, st: DisplayerState)
    requires Coherent(cfg, st)
    ensures MessageCount(st) == st.first - st.last <= MAX_MESSAGES
    ensures LiveSlots(st.messages) == st.first - st.last
  {
    var w := Window(st.messages, st.first);
    LiveSlotsOfSuffix(w, SIZE - (st.first - st.last));
    CountsOverWindow(st.messages, st.first, 0);
  }

  // ---------------------------------------------------------------------
  // Storing lines

  /** A running, well-formed line of the layout never outlives a fresh one. */
  lemma KeyAtMostFresh(cfg: Config, x: ColorTimerString)
    requires x.WellFormed(cfg.expireTime) && x.usingFadeTimer == !cfg.topDown
    ensures x.Key() <= FreshKey(cfg)
  {
  }

  /** Storing a line shifts the window by one: the oldest entry leaves and
      the new line becomes the newest. */
  lemma WindowShifts(cfg: Config, st: DisplayerState, line: string, color: Color)
    requires |st.messages| == SIZE
    ensures var r := WithLine(cfg, st, line, color);
      var w, w' := Window(st.messages, st.first), Window(r.messages, r.first);
      && (forall k :: 0 <= k < SIZE - 1 ==> w'[k] == w[k + 1])
      && w'[SIZE - 1] == w[0].Set(line, !cfg.topDown, color, cfg.expireTime, st.nextGroupId)
  {
    var r := WithLine(cfg, st, line, color);
    var w, w' := Window(st.messages, st.first), Window(r.messages, r.first);
    forall k | 0 <= k < SIZE - 1
      ensures w'[k] == w[k + 1]
    {
      SlotsApart(r.first, k + 1);
    }
  }

  /** Positions fewer than SIZE apart occupy different slots. */
  lemma SlotsApart(a: nat, d: nat)
    requires 0 < d < SIZE
    ensures (a + d) % SIZE != a % SIZE
  {
    var q, r := a / SIZE, a % SIZE;
    assert a + d == q * SIZE + (r + d);
    if r + d >= SIZE {
      assert a + d == (q + 1) * SIZE + (r + d - SIZE);
    }
  }

  /** Storing a line while the ring has room keeps it coherent and leaves the
      tail where it is. The expiry time must be positive, so that a stored
      line is running. */
  lemma InsertKeepsCoherent(cfg: Config, st: DisplayerState, line: string, color: Color)
    requires Coherent(cfg, st) && cfg.expireTime > 0 && st.first - st.last < MAX_MESSAGES
    ensures Coherent(cfg, WithLine(cfg, st, line, color))
    ensures WithLine(cfg, st, line, color).last == st.last
  {
    var r := WithLine(cfg, st, line, color);
    AdvanceMovesTailOnlyWhenFull(st);
    WindowShifts(cfg, st, line, color);
    var w, w' := Window(st.messages, st.first), Window(r.messages, r.first);
    var m := SIZE - (st.first - st.last);
    forall k | m <= k < SIZE
      ensures w[k].Key() <= FreshKey(cfg)
    {
      KeyAtMostFresh(cfg, w[k]);
    }
    ShiftedWindowOk(cfg, w, w', m);
  }

  lemma ShiftedWindowOk(cfg: Config, w: seq<ColorTimerString>, w': seq<ColorTimerString>, m: nat)
    requires |w| == |w'| == SIZE && 2 <= m && WindowOk(cfg, w, m) && cfg.expireTime > 0
    requires forall k :: 0 <= k < SIZE - 1 ==> w'[k] == w[k + 1]
    requires w'[SIZE - 1].WellFormed(cfg.expireTime) && !w'[SIZE - 1].HasExpired()
    requires w'[SIZE - 1].usingFadeTimer == !cfg.topDown && w'[SIZE - 1].Key() == FreshKey(cfg)
    requires forall k :: m <= k < SIZE ==> w[k].Key() <= FreshKey(cfg)
    ensures WindowOk(cfg, w', m - 1)
  {
  }

  /** Storing several lines while the ring has room for all of them. */
  lemma {:induction false} InsertLinesKeepCoherent(cfg: Config, st: DisplayerState, lines: seq<string>, color: Color)
    requires Coherent(cfg, st) && cfg.expireTime > 0 && st.first - st.last + |lines| <= MAX_MESSAGES
    ensures Coherent(cfg, InsertLines(cfg, st, lines, color))
    ensures InsertLines(cfg, st, lines, color).last == st.last
    decreases |lines|
  {
    if lines != [] {
      var init := lines[..|lines| - 1];
      InsertLinesKeepCoherent(cfg, st, init, color);
      InsertKeepsCoherent(cfg, InsertLines(cfg, st, init, color), lines[|lines| - 1], color);
    }
  }

  /** onChatMessageReceived keeps the ring coherent when the message's lines
      fit beside the lines already counted. */
  lemma ReceivedKeepsCoherent(cfg: Config, st: DisplayerState, color: Color, lines: seq<string>)
    requires Coherent(cfg, st) && cfg.expireTime > 0 && st.first - st.last + |lines| <= MAX_MESSAGES
    ensures Coherent(cfg, Received(cfg, st, color, lines))
    ensures Received(cfg, st, color, lines).last == st.last
  {
    InsertLinesKeepCoherent(cfg, st, lines, color);
  }

  // ---------------------------------------------------------------------
  // Idle

  /** The first entry from k on that does not report on this step. */
  function FirstQuiet(w: seq<ColorTimerString>, timeDelta: nat, k: nat): (p: nat)
    requires k <= |w|
    ensures k <= p <= |w|
    ensures forall i :: k <= i < p ==> w[i].Idle(timeDelta).1
    ensures p < |w| ==> !w[p].Idle(timeDelta).1
    decreases |w| - k
  {
    if k == |w| || !w[k].Idle(timeDelta).1 then k else FirstQuiet(w, timeDelta, k + 1)
  }

  /** In a well-shaped window the entries that report form one block: the
      oldest running lines, from m up to the first that does not report. */
  lemma ReportingBlock(cfg: Config, w: seq<ColorTimerString>, m: nat, timeDelta: nat)
    requires |w| == SIZE && WindowOk(cfg, w, m)
    ensures var p := FirstQuiet(w, timeDelta, m);
      forall k :: 0 <= k < |w| ==> (w[k].Idle(timeDelta).1 <==> m <= k < p)
  {
    var p := FirstQuiet(w, timeDelta, m);
    forall k | 0 <= k < |w|
      ensures w[k].Idle(timeDelta).1 <==> m <= k < p
    {
      ReportsIffKeyWithinLimit(w[k], cfg.expireTime, timeDelta);
      if k >= p && p < |w| {
        ReportsIffKeyWithinLimit(w[p], cfg.expireTime, timeDelta);
        assert w[p].Key() <= w[k].Key();
      }
    }
  }

  /** One idle step on a well-shaped window: the reporting block joins the
      expired prefix, and the rest keeps its shape. */
  lemma IdledWindowOk(cfg: Config, w: seq<ColorTimerString>, m: nat, timeDelta: nat)
    requires |w| == SIZE && WindowOk(cfg, w, m)
    ensures WindowOk(cfg, IdleSlots(w, timeDelta), FirstQuiet(w, timeDelta, m))
  {
    var p := FirstQuiet(w, timeDelta, m);
    var w' := IdleSlots(w, timeDelta);
    ReportingBlock(cfg, w, m, timeDelta);
    forall k | 0 <= k < SIZE
      ensures w'[k].WellFormed(cfg.expireTime)
      ensures k < p ==> w'[k].HasExpired()
      ensures p <= k ==> !w'[k].HasExpired() && w'[k].usingFadeTimer == !cfg.topDown
      ensures p <= k ==> w'[k].Key() == KeyStep(!cfg.topDown, w[k].Key(), timeDelta)
    {
      IdleKeepsWellFormed(w[k], cfg.expireTime, timeDelta);
      IdleReportsExpiry(w[k], timeDelta);
      if p <= k {
        KeyAfterIdle(w[k], cfg.expireTime, timeDelta);
      }
    }
    forall k, l | p <= k <= l < SIZE
      ensures w'[k].Key() <= w'[l].Key()
    {
      KeyStepMonotone(!cfg.topDown, w[k].Key(), w[l].Key(), timeDelta);
    }
  }

  /** idle keeps the ring coherent: lines expire oldest first, and the tail
      moves on by exactly the number that expired. */
  lemma IdleKeepsCoherent(cfg: Config, st: DisplayerState, timeDelta: nat, composing: bool)
    requires Coherent(cfg, st)
    ensures Coherent(cfg, AfterIdle(cfg, st, timeDelta, composing))
  {
    var r := AfterIdle(cfg, st, timeDelta, composing);
    var w := Window(st.messages, st.first);
    var m := SIZE - (st.first - st.last);
    var p := FirstQuiet(w, timeDelta, m);
    assert Window(r.messages, r.first) == IdleSlots(w, timeDelta);
    IdledWindowOk(cfg, w, m, timeDelta);
    ReportingBlock(cfg, w, m, timeDelta);
    ReportsOfBlock(w, timeDelta, m, p);
    CountsOverWindow(st.messages, st.first, timeDelta);
  }

  // ---------------------------------------------------------------------
  // The overflow

  /** Storing a line into a ring whose count is at its maximum moves the
      tail past the oldest counted line, but that line's countdown keeps
      running: every slot is now running while only MAX_MESSAGES are
      counted. */
  lemma OverflowLeavesEvictedLineRunning(cfg: Config, st: DisplayerState, line: string, color: Color)
    requires Coherent(cfg, st) && cfg.expireTime > 0 && st.first - st.last == MAX_MESSAGES
    ensures var r := WithLine(cfg, st, line, color);
      && r.last == st.last + 1 && r.full
      && MessageCount(r) == MAX_MESSAGES
      && LiveSlots(r.messages) == SIZE
      && !Coherent(cfg, r)
  {
    var r := WithLine(cfg, st, line, color);
    AdvanceMovesTailOnlyWhenFull(st);
    WindowShifts(cfg, st, line, color);
    var w' := Window(r.messages, r.first);
    assert !w'[0].HasExpired();
    LiveSlotsOfSuffix(w', 0);
    CountsOverWindow(r.messages, r.first, 0);
  }

  /** In the top-down layout, once the ring has overflowed, a single idle
      step as long as the expiry time retires every slot, the evicted line
      included: the tail ends one past the head, and getMessageCount wraps
      to the largest U32. */
  lemma TailPassesHeadAfterOverflow(cfg: Config, st: DisplayerState, line: string, color: Color, composing: bool)
    requires Coherent(cfg, st) && cfg.topDown && cfg.expireTime > 0 && st.first - st.last == MAX_MESSAGES
    ensures var r := AfterIdle(cfg, WithLine(cfg, st, line, color), cfg.expireTime, composing);
      r.last == r.first + 1 && MessageCount(r) == U32_LIMIT - 1
  {
    var s := WithLine(cfg, st, line, color);
    AdvanceMovesTailOnlyWhenFull(st);
    WindowShifts(cfg, st, line, color);
    var w := Window(st.messages, st.first);
    var w' := Window(s.messages, s.first);
    forall k | 0 <= k < SIZE
      ensures w'[k].Idle(cfg.expireTime).1
    {
      if k < SIZE - 1 {
        assert w'[k] == w[k + 1];
      }
      ReportsIffKeyWithinLimit(w'[k], cfg.expireTime, cfg.expireTime);
    }
    ReportsOfBlock(w', cfg.expireTime, 0, SIZE);
    CountsOverWindow(s.messages, s.first, cfg.expireTime);
  }

  /** After reset, MAX_MESSAGES lines fill the count without moving the tail. */
  lemma FillingFromReset(cfg: Config, st: DisplayerState, lines: seq<string>, color: Color)
    requires |st.messages| == SIZE && cfg.expireTime > 0 && |lines| == MAX_MESSAGES
    ensures var r := InsertLines(cfg, Cleared(st), lines, color);
      Coherent(cfg, r) && r.first - r.last == MAX_MESSAGES
  {
    ResetEstablishesCoherent(cfg, st);
    InsertLinesKeepCoherent(cfg, Cleared(st), lines, color);
  }

  /** The concrete run: in the top-down layout, reset, then SIZE lines, then
      one idle step as long as the expiry time. The tail ends one past the
      head and getMessageCount returns 2^32 - 1. */
  lemma SizeLinesThenExpiryWrapCount(cfg: Config, st: DisplayerState, lines: seq<string>, color: Color, composing: bool)
    requires |st.messages| == SIZE && cfg.topDown && cfg.expireTime > 0 && |lines| == SIZE
    ensures var r := AfterIdle(cfg, InsertLines(cfg, Cleared(st), lines, color), cfg.expireTime, composing);
      r.last == r.first + 1 && MessageCount(r) == U32_LIMIT - 1
  {
    var init := lines[..MAX_MESSAGES];
    FillingFromReset(cfg, st, init, color);
    TailPassesHeadAfterOverflow(cfg, InsertLines(cfg, Cleared(st), init, color), lines[MAX_MESSAGES], color, composing);
  }

  /** A slot with both countdowns stopped. */
  function Stopped(x: ColorTimerString): (r: ColorTimerString)
    ensures r.HasExpired() && r.str == x.str && r.groupId == x.groupId
    ensures x.WellFormed(0) ==> r.WellFormed(0)
  {
    x.(timer := x.timer.Clear(), fadeTimer := x.fadeTimer.Clear())
  }

  /** Storing a line as intended: when the head catches up with the tail,
      the line pushed out of the count also has its countdowns stopped. */
  function WithLineEvicting(cfg: Config, st: DisplayerState, line: string, color: Color): (r: DisplayerState)
    requires |st.messages| == SIZE
    ensures |r.messages| == SIZE
    ensures var a := Advanced(st); r.first == a.first && r.last == a.last && r.full == a.full
  {
    var r := WithLine(cfg, st, line, color);
    if r.last == st.last then r
    else
      var e := r.last % SIZE;
      r.(messages := r.messages[e := Stopped(r.messages[e])])
  }

  /** The intended insert keeps the ring coherent whether or not it
      overflows, so the tail never passes the head. */
  lemma EvictingInsertKeepsCoherent(cfg: Config, st: DisplayerState, line: string, color: Color)
    requires Coherent(cfg, st) && cfg.expireTime > 0
    ensures Coherent(cfg, WithLineEvicting(cfg, st, line, color))
  {
    if st.first - st.last < MAX_MESSAGES {
      InsertKeepsCoherent(cfg, st, line, color);
    } else {
      var s := WithLine(cfg, st, line, color);
      var r := WithLineEvicting(cfg, st, line, color);
      AdvanceMovesTailOnlyWhenFull(st);
      WindowShifts(cfg, st, line, color);
      EvictionStopsOldestEntry(cfg, st, line, color);
      var w, ws, w' := Window(st.messages, st.first), Window(s.messages, s.first), Window(r.messages, r.first);
      forall k | 1 <= k < SIZE
        ensures w[k].Key() <= FreshKey(cfg)
      {
        KeyAtMostFresh(cfg, w[k]);
      }
      EvictedWindowOk(cfg, w, w');
    }
  }

  /** On overflow, the intended insert differs from the source's only in the
      oldest entry of the window, whose countdowns it stops. */
  lemma EvictionStopsOldestEntry(cfg: Config, st: DisplayerState, line: string, color: Color)
    requires |st.messages| == SIZE && st.last <= st.first && st.first - st.last == MAX_MESSAGES
    ensures var s, r := WithLine(cfg, st, line, color), WithLineEvicting(cfg, st, line, color);
      var ws, w' := Window(s.messages, s.first), Window(r.messages, r.first);
      && w'[0] == Stopped(ws[0])
      && forall k :: 1 <= k < SIZE ==> w'[k] == ws[k]
  {
    var s := WithLine(cfg, st, line, color);
    var r := WithLineEvicting(cfg, st, line, color);
    AdvanceMovesTailOnlyWhenFull(st);
    var e := s.last % SIZE;
    assert s.first + 1 == s.last + SIZE;
    assert r.first == s.first && r.messages == s.messages[e := Stopped(s.messages[e])];
    var ws, w' := Window(s.messages, s.first), Window(r.messages, r.first);
    forall k | 0 <= k < SIZE
      ensures w'[k] == if k == 0 then Stopped(ws[0]) else ws[k]
    {
      assert s.first + 1 + k == s.last + k + SIZE;
      OtherSlot(s.last, k);
    }
  }

  /** Positions 1 to SIZE - 1 apart never share a slot. */
  lemma OtherSlot(a: nat, k: nat)
    requires k < SIZE
    ensures (a + k + SIZE) % SIZE == a % SIZE <==> k == 0
  {
  }

  lemma EvictedWindowOk(cfg: Config, w: seq<ColorTimerString>, w': seq<ColorTimerString>)
    requires |w| == |w'| == SIZE && WindowOk(cfg, w, 1) && cfg.expireTime > 0
    requires w'[0] == Stopped(w[1])
    requires forall k :: 1 <= k < SIZE - 1 ==> w'[k] == w[k + 1]
    requires w'[SIZE - 1].WellFormed(cfg.expireTime) && !w'[SIZE - 1].HasExpired()
    requires w'[SIZE - 1].usingFadeTimer == !cfg.topDown && w'[SIZE - 1].Key() == FreshKey(cfg)
    requires forall k :: 1 <= k < SIZE ==> w[k].Key() <= FreshKey(cfg)
    ensures WindowOk(cfg, w', 1)
  {
    assert w'[0].WellFormed(cfg.expireTime);
  }

  // ---------------------------------------------------------------------
  // The count of lines to display in a coherent state

  /** The entry SIZE - j of the window holds position first - (j - 1). */
  lemma WindowHoldsPosition(first: nat, j: nat)
    requires 0 < j <= first && j <= SIZE
    ensures (first + 1 + (SIZE - j)) % SIZE == (first - (j - 1)) % SIZE
  {
    assert first + 1 + (SIZE - j) == (first - (j - 1)) + SIZE;
  }

  /** The backward scan meets expired lines only once it has passed the
      counted ones. */
  lemma {:induction false} ExpiredAmongNewestWhenCoherent(cfg: Config, st: DisplayerState, j: nat)
    requires Coherent(cfg, st) && j <= st.first && j <= SIZE
    ensures ExpiredAmongNewest(st.messages, st.first, j) == Max(0, j - (st.first - st.last))
  {
    if j > 0 {
      ExpiredAmongNewestWhenCoherent(cfg, st, j - 1);
      var w := Window(st.messages, st.first);
      WindowHoldsPosition(st.first, j);
      assert w[SIZE - j].HasExpired() <==> j > st.first - st.last;
    }
  }

  /** In a coherent state, with a show cap the screen can hold, the scan
      shows the counted lines, plus the one scrolling off when allowed, when
      expired lines are hidden; otherwise as many as the cap and the head
      allow. */
  lemma DisplayCountWhenCoherent(cfg: Config, st: DisplayerState, composing: bool, r: nat)
    requires Coherent(cfg, st) && st.first > 0 && ShowCap(cfg, st, composing) <= MAX_MESSAGES
    requires DisplayCount(cfg, st, false, composing, r)
    ensures HidesExpired(st, false, composing) ==>
      r == Min(Min(st.first, ShowCap(cfg, st, composing)), st.first - st.last + ScrolledOffAllowance(cfg, st))
    ensures !HidesExpired(st, false, composing) ==> r == Min(st.first, ShowCap(cfg, st, composing))
  {
    ExpiredAmongNewestWhenCoherent(cfg, st, r);
    if r < st.first {
      ExpiredAmongNewestWhenCoherent(cfg, st, r + 1);
    }
  }
}
