/** The chat message displayer itself: a fixed array of SIZE slots written in
    place, the head and tail counters, the display mode and the scroll
    animation timer. Every method is proved against the function of
    ChatRing that says what it does to the whole state. */
module Displayer {
  import opened Numeric
  import opened Timers
  import opened ChatSlot
  import opened DisplayPolicy
  import opened ChatRing
  import opened Substitution

  /** What a slot holds before anything is stored in it; only its stopped
      countdowns and empty text matter, and reset sets those anyway. */
  const UNUSED_SLOT: ColorTimerString :=
    ColorTimerString("", Color(1.0, 1.0, 1.0), 0, Timer(0), false, Timer(0))

  class ChatMessageDisplayer {
    const messages: array<ColorTimerString>
    var first: nat
    var last: nat
    var full: bool
    var displayMode: DisplayMode
    var chatScrollTimer: Timer
    var nextGroupId: nat

    const messagesToShowInShortMode: int
    const topDown: bool
    /** MESSAGE_EXPIRE_TIME */
    const expireTime: nat
    /** SCROLL_TIME, the scroll timer's period */
    const scrollTime: nat

    ghost predicate Valid()
    {
      messages.Length == SIZE
    }

    ghost function Cfg(): Config
    {
      Config(topDown, messagesToShowInShortMode, expireTime, scrollTime)
    }

    ghost function State(): DisplayerState
      reads this, messages
    {
      DisplayerState(messages[..], first, last, full, displayMode, chatScrollTimer, nextGroupId)
    }

    /** A displayer with an empty ring, in ShortTimeout mode, not scrolling. */
    constructor(msgCount: int, topDown: bool, expireTime: nat, scrollTime: nat)
      ensures Valid() && fresh(messages)
      ensures Cfg() == Config(topDown, msgCount, expireTime, scrollTime)
      ensures first == 0 && last == 0 && !full && nextGroupId == 0
      ensures displayMode == ShortTimeout && chatScrollTimer.current == 0
      ensures forall i :: 0 <= i < SIZE ==> messages[i].HasExpired() && messages[i].str == []
    {
      this.messages := new ColorTimerString[SIZE](_ => UNUSED_SLOT);
      this.chatScrollTimer := Timer(0);
      this.messagesToShowInShortMode := msgCount;
      this.topDown := topDown;
      this.expireTime := expireTime;
      this.scrollTime := scrollTime;
      this.displayMode := ShortTimeout;
      this.nextGroupId := 0;
      new;
      Reset();
    }

    /** reset: stop every slot, blank its text, and empty the ring. */
    method Reset()
      requires Valid()
      modifies this, messages
      ensures State() == Cleared(old(State()))
    {
      first, last := 0, 0;
      full := false;
      var i := 0;
      while i < messages.Length
        invariant 0 <= i <= messages.Length
        invariant forall k :: 0 <= k < i ==> messages[k] == Blanked(old(messages[k]))
        invariant forall k :: i <= k < messages.Length ==> messages[k] == old(messages[k])
        invariant first == 0 && last == 0 && !full
        invariant displayMode == old(displayMode) && chatScrollTimer == old(chatScrollTimer) && nextGroupId == old(nextGroupId)
      {
        messages[i] := messages[i].(timer := messages[i].timer.Clear(), fadeTimer := messages[i].fadeTimer.Clear(), str := "");
        i := i + 1;
      }
    }

    /** idle: count the scroll timer down, advance every slot, and move the
        tail on for each slot that reports expiry; in the top-down layout
        such a report restarts the scroll animation when the count is then
        within the show limit. */
    method Idle(timeDelta: nat, composing: bool)
      requires Valid()
      modifies this, messages
      ensures State() == AfterIdle(Cfg(), old(State()), timeDelta, composing)
    {
      chatScrollTimer := chatScrollTimer.Update(timeDelta).0;
      ghost var counted := State();
      ghost var show := NumberOfMessagesToShow(displayMode, messagesToShowInShortMode, composing);
      var i := 0;
      while i < messages.Length
        invariant 0 <= i <= messages.Length
        invariant State() == IdleUpTo(Cfg(), counted, timeDelta, show, i)
      {
        IdleSlot(i, timeDelta, composing);
        i := i + 1;
      }
      IdleLoopIsAfterIdle(Cfg(), old(State()), timeDelta, composing);
    }

    /** One pass of idle's loop: advance slot i and, when it reports
        expiry, move the tail on and perhaps restart the scroll animation. */
    method IdleSlot(i: nat, timeDelta: nat, composing: bool)
      requires Valid() && i < messages.Length
      modifies this, messages
      ensures State() == IdleVisit(Cfg(), old(State()), i, old(messages[i]).Idle(timeDelta),
                                   NumberOfMessagesToShow(displayMode, messagesToShowInShortMode, composing))
    {
      var step := messages[i].Idle(timeDelta);
      messages[i] := step.0;
      assert messages[..] == old(messages[..])[i := step.0];
      if step.1 {
        last := last + 1;
        // getMessageCount() <= getNumberOfMessagesToShow(composingMessage), both U32
        if topDown && AsU32(first - last) <= NumberOfMessagesToShow(displayMode, messagesToShowInShortMode, composing) {
          chatScrollTimer := chatScrollTimer.Reset(scrollTime);
        }
      }
    }

    /** toggleDisplayMode */
    method ToggleDisplayMode()
      modifies this
      ensures State() == Toggled(old(State()))
    {
      var next := Ordinal(displayMode) + 1;
      if next == MessageDisplayModes {
        displayMode := FromOrdinal(0);
      } else {
        displayMode := FromOrdinal(next);
      }
    }

    /** advanceFirst */
    method AdvanceFirst()
      requires Valid()
      modifies this
      ensures State() == Advanced(old(State()))
    {
      first := first + 1;
      if last % messages.Length == first % messages.Length {
        last := last + 1;
        full := true;
      }
    }

    /** getMessageCount */
    method GetMessageCount() returns (n: nat)
      ensures n == MessageCount(State())
    {
      n := AsU32(first - last);
    }

    /** onChatMessageReceived: substitute the text's tokens, let `wrap`
        split it into lines (text measurement is not part of this model),
        and store the lines one after another under one group id. */
    method OnChatMessageReceived(msgColor: Color, msg: string, game: Resolver, wrap: string -> seq<string>)
      requires Valid()
      modifies this, messages
      ensures State() == Received(Cfg(), old(State()), msgColor, wrap(Substitute(game, msg)))
    {
      var text := SubstituteVars(game, msg);
      var lines := wrap(text);
      ghost var start := State();
      var i := 0;
      while i < |lines|
        invariant 0 <= i <= |lines|
        invariant State() == InsertLines(Cfg(), start, lines[..i], msgColor)
      {
        StoreLine(lines[i], msgColor);
        assert lines[..i + 1][..i] == lines[..i];
        i := i + 1;
      }
      assert lines[..|lines|] == lines;
      nextGroupId := nextGroupId + 1;
      if !topDown {
        chatScrollTimer := chatScrollTimer.Reset(scrollTime);
      }
    }

    /** One pass of onChatMessageReceived's loop: move the head on and
        store the line in the slot it now names. */
    method StoreLine(line: string, msgColor: Color)
      requires Valid()
      modifies this, messages
      ensures State() == WithLine(Cfg(), old(State()), line, msgColor)
    {
      AdvanceFirst();
      var index := first % messages.Length;
      messages[index] := messages[index].Set(line, !topDown, msgColor, expireTime, nextGroupId);
    }

    /** getCountOfMessagesToDisplay: how many of the newest lines to draw,
        found by scanning back from the head. `fadingIn` stands for
        helperFadeIn > 0. Every slot read is i % SIZE, so always inside the
        array. */
    method GetCountOfMessagesToDisplay(fadingIn: bool, composing: bool) returns (r: nat)
      requires Valid()
      ensures DisplayCount(Cfg(), State(), fadingIn, composing, r)
    {
      if first == 0 {
        return 0;
      }
      if fadingIn {
        return Min(MAX_MESSAGES, first);
      }
      var scrolling := chatScrollTimer.current > 0;
      // an extra line is drawn while it scrolls off, in some cases
      var messagesBeingScrolledOff := 0;
      if scrolling {
        if topDown {
          messagesBeingScrolledOff := 1;
        } else if full {
          messagesBeingScrolledOff := 1;
        }
      }
      var messagesToDisplay := 0;
      var scrollingMessageCount := 0;
      var i := first;
      while i > 0
        invariant 0 <= i <= first && messagesToDisplay == first - i
        invariant messagesToDisplay < ShowCap(Cfg(), State(), composing)
        invariant HidesExpired(State(), fadingIn, composing) ==>
          ExpiredAmongNewest(messages[..], first, messagesToDisplay) <= messagesBeingScrolledOff
        invariant HidesExpired(State(), fadingIn, composing) && scrolling ==>
          scrollingMessageCount == ExpiredAmongNewest(messages[..], first, messagesToDisplay)
      {
        var index := i % messages.Length;
        var messageHasExpired := messages[index].timer.current == 0 && messages[index].fadeTimer.current == 0;
        if messageHasExpired {
          if !(composing || fadingIn || displayMode != ShortTimeout) {
            if !scrolling {
              break;
            }
            scrollingMessageCount := scrollingMessageCount + 1;
            if scrollingMessageCount > messagesBeingScrolledOff {
              break;
            }
          }
        }
        messagesToDisplay := messagesToDisplay + 1;
        if messagesToDisplay >= NumberOfMessagesToShow(displayMode, messagesToShowInShortMode, composing) {
          break;
        }
        i := i - 1;
      }
      return messagesToDisplay;
    }
  }
}
