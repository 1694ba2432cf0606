/** The display modes the user cycles through, and what each shows. */
module DisplayPolicy {
  import opened Numeric

  /** Enough lines to fill the screen; the ring holds one more. */
  const MAX_MESSAGES: nat := 24

  /** Number of display modes. */
  const MessageDisplayModes: nat := 3

  /** Declared in this order, so ShortTimeout is mode 0. */
  datatype DisplayMode = ShortTimeout | ShortFixed | LongFixed

  function Ordinal(m: DisplayMode): (i: nat)
    ensures i < MessageDisplayModes
  {
    match m
    case ShortTimeout => 0
    case ShortFixed => 1
    case LongFixed => 2
  }

  function FromOrdinal(i: nat): (m: DisplayMode)
    requires i < MessageDisplayModes
    ensures Ordinal(m) == i
  {
    if i == 0 then ShortTimeout else if i == 1 then ShortFixed else LongFixed
  }

  /** toggleDisplayMode: the next mode, wrapping to mode 0 after the last. */
  function NextMode(m: DisplayMode): (r: DisplayMode)
    ensures Ordinal(r) == (Ordinal(m) + 1) % MessageDisplayModes
  {
    var next := Ordinal(m) + 1;
    if next == MessageDisplayModes then FromOrdinal(0) else FromOrdinal(next)
  }

  /** Toggling MessageDisplayModes times returns to the starting mode, and
      no fewer toggles do. */
  lemma ToggleCycles(m: DisplayMode)
    ensures NextMode(NextMode(NextMode(m))) == m
    ensures NextMode(m) != m && NextMode(NextMode(m)) != m
  {
  }

  /** getNumberOfMessagesToShow: how many lines the mode shows. The short
      count comes from a signed constructor argument and is returned as U32. */
  function NumberOfMessagesToShow(mode: DisplayMode, messagesToShowInShortMode: int, composing: bool): (n: nat)
    ensures n < U32_LIMIT
  {
    if composing then MAX_MESSAGES
    else if mode == ShortTimeout || mode == ShortFixed then AsU32(messagesToShowInShortMode)
    else MAX_MESSAGES
  }

  /** showExpiredMessages: whether expired lines stay visible. */
  function ShowExpiredMessages(mode: DisplayMode, composing: bool): (b: bool)
    ensures !b <==> !composing && Ordinal(mode) == 0
  {
    composing || mode != ShortTimeout
  }

  /** The two short modes show the same number of lines, composing always
      shows the structural maximum, and LongFixed shows it too. */
  lemma ShowLimitByMode(mode: DisplayMode, shortCount: int, composing: bool)
    ensures composing || mode == LongFixed ==> NumberOfMessagesToShow(mode, shortCount, composing) == MAX_MESSAGES
    ensures 0 <= shortCount < U32_LIMIT && !composing && mode != LongFixed ==> NumberOfMessagesToShow(mode, shortCount, composing) == shortCount
    ensures NumberOfMessagesToShow(ShortTimeout, shortCount, composing) == NumberOfMessagesToShow(ShortFixed, shortCount, composing)
  {
  }
}
