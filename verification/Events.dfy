/** Event masks, socket state bits, and the translation between them and poll() flags.

    Masks are 32-bit words, as in the source; `Decode` reads a word as the set of events whose bits it has. */
module Events {

  datatype Event =
    | EvtRead | EvtWrite | EvtConnect | EvtConnFail | EvtAccept | EvtClose | EvtPriority | EvtError | EvtInvalid
    | EvtOobRead | EvtOobWrite

  function Bit(e: Event): bv32 {
    match e
    case EvtRead => 0x001
    case EvtWrite => 0x002
    case EvtConnect => 0x004
    case EvtConnFail => 0x008
    case EvtAccept => 0x010
    case EvtClose => 0x020
    case EvtPriority => 0x040
    case EvtError => 0x080
    case EvtInvalid => 0x100
    case EvtOobRead => 0x200
    case EvtOobWrite => 0x400
  }

  const EVT_ALL: bv32 := 0x7ff

  const S_CONNECT: bv32 := 0x1
  const S_LISTEN: bv32 := 0x2
  const S_CLOSE: bv32 := 0x4

  predicate IsSet(mask: bv32, bits: bv32) {
    mask & bits == bits
  }

  function SetHigh(mask: bv32, bits: bv32): bv32 {
    mask | bits
  }

  function SetLow(mask: bv32, bits: bv32): bv32 {
    mask & !bits
  }

  /** The bits of two events. */
  function Both(x: Event, y: Event): bv32 {
    SetHigh(Bit(x), Bit(y))
  }

  predicate HasEvent(word: bv32, e: Event) {
    IsSet(word, Bit(e))
  }

  function Decode(word: bv32): set<Event> {
    set e: Event | HasEvent(word, e)
  }

  // ----- Words as sets of events -----

  // Facts about single bits: first on bare words, then as the rest of the module puts them.

  lemma BitOfUnion(word: bv32, x: bv32, bit: bv32)
    requires bit & (bit - 1) == 0
    ensures (word | x) & bit == bit <==> word & bit == bit || x & bit == bit
  {
  }

  lemma BitOfDifference(word: bv32, x: bv32, bit: bv32)
    requires bit != 0 && bit & (bit - 1) == 0
    ensures word & !x & bit == bit <==> word & bit == bit && x & bit != bit
  {
  }

  lemma HighSets(word: bv32, x: bv32, bit: bv32)
    requires bit & (bit - 1) == 0
    ensures IsSet(SetHigh(word, x), bit) <==> IsSet(word, bit) || IsSet(x, bit)
  {
    BitOfUnion(word, x, bit);
  }

  lemma LowUnsets(word: bv32, x: bv32, bit: bv32)
    requires bit != 0 && bit & (bit - 1) == 0
    ensures IsSet(SetLow(word, x), bit) <==> IsSet(word, bit) && !IsSet(x, bit)
  {
    BitOfDifference(word, x, bit);
  }

  lemma SingleBit(e: Event)
    ensures Bit(e) != 0 && Bit(e) & (Bit(e) - 1) == 0
  {
  }

  lemma HasUnion(word: bv32, x: bv32, e: Event)
    ensures HasEvent(SetHigh(word, x), e) <==> HasEvent(word, e) || HasEvent(x, e)
  {
    hide Bit, IsSet, SetHigh;
    SingleBit(e);
    HighSets(word, x, Bit(e));
  }

  lemma HasDifference(word: bv32, x: bv32, e: Event)
    ensures HasEvent(SetLow(word, x), e) <==> HasEvent(word, e) && !HasEvent(x, e)
  {
    hide Bit, IsSet, SetLow;
    SingleBit(e);
    LowUnsets(word, x, Bit(e));
  }

  lemma HasBit(x: Event, e: Event)
    ensures HasEvent(Bit(x), e) <==> x == e
  {
  }

  /** Setting bits adds events. */
  lemma HighAdds(word: bv32, x: bv32)
    ensures Decode(SetHigh(word, x)) == Decode(word) + Decode(x)
  {
    hide HasEvent, SetHigh;
    forall e: Event ensures HasEvent(SetHigh(word, x), e) <==> HasEvent(word, e) || HasEvent(x, e) {
      HasUnion(word, x, e);
    }
  }

  /** Clearing bits takes events away. */
  lemma LowDrops(word: bv32, x: bv32)
    ensures Decode(SetLow(word, x)) == Decode(word) - Decode(x)
  {
    hide HasEvent, SetLow;
    forall e: Event ensures HasEvent(SetLow(word, x), e) <==> HasEvent(word, e) && !HasEvent(x, e) {
      HasDifference(word, x, e);
    }
  }

  lemma DecodeHas(word: bv32, e: Event)
    ensures e in Decode(word) <==> HasEvent(word, e)
  {
  }

  lemma DecodeNothing()
    ensures Decode(0) == {}
  {
    assert forall e: Event :: Bit(e) != 0;
  }

  /** The bit of an event decodes to that event. */
  lemma DecodeBit(x: Event)
    ensures Decode(Bit(x)) == {x}
  {
    hide HasEvent, Bit;
    forall e: Event ensures HasEvent(Bit(x), e) <==> x == e {
      HasBit(x, e);
    }
  }

  lemma DecodeBoth(x: Event, y: Event)
    ensures Decode(Both(x, y)) == {x, y}
  {
    hide Decode, Bit, SetHigh;
    HighAdds(Bit(x), Bit(y));
    DecodeBit(x);
    DecodeBit(y);
  }

  /** The word has no bits but those of events. */
  predicate OnlyEvents(word: bv32) {
    word & !EVT_ALL == 0
  }

  lemma NothingOnlyEvents()
    ensures OnlyEvents(0)
  {
  }

  lemma HighKeepsOnlyEvents(word: bv32, e: Event)
    requires OnlyEvents(word)
    ensures OnlyEvents(SetHigh(word, Bit(e)))
  {
    match e
    case EvtRead =>
    case EvtWrite =>
    case EvtConnect =>
    case EvtConnFail =>
    case EvtAccept =>
    case EvtClose =>
    case EvtPriority =>
    case EvtError =>
    case EvtInvalid =>
    case EvtOobRead =>
    case EvtOobWrite =>
  }

  lemma UnionOnlyEvents(word: bv32, x: bv32)
    requires OnlyEvents(word) && OnlyEvents(x)
    ensures OnlyEvents(SetHigh(word, x))
  {
  }

  /** Such a word is zero exactly when it stands for no event. */
  lemma ZeroIsNothing(word: bv32)
    requires OnlyEvents(word)
    ensures word == 0 <==> Decode(word) == {}
  {
    if Decode(word) == {} {
      forall e: Event ensures !HasEvent(word, e) {
        DecodeHas(word, e);
      }
      assert !HasEvent(word, EvtRead) && !HasEvent(word, EvtWrite) && !HasEvent(word, EvtConnect);
      assert !HasEvent(word, EvtConnFail) && !HasEvent(word, EvtAccept) && !HasEvent(word, EvtClose);
      assert !HasEvent(word, EvtPriority) && !HasEvent(word, EvtError) && !HasEvent(word, EvtInvalid);
      assert !HasEvent(word, EvtOobRead) && !HasEvent(word, EvtOobWrite);
    } else {
      DecodeNothing();
    }
  }

  lemma LowClears(word: bv32, bits: bv32)
    requires bits != 0
    ensures !IsSet(SetLow(word, bits), bits)
  {
  }

  lemma NamedBit(e: Event)
    ensures HasEvent(0x1bd, e) <==> e !in {EvtWrite, EvtPriority, EvtOobRead, EvtOobWrite}
    ensures HasEvent(0x1bf, e) <==> e !in {EvtPriority, EvtOobRead, EvtOobWrite}
    ensures HasEvent(0x7ff, e)
  {
    match e
    case EvtRead =>
    case EvtWrite =>
    case EvtConnect =>
    case EvtConnFail =>
    case EvtAccept =>
    case EvtClose =>
    case EvtPriority =>
    case EvtError =>
    case EvtInvalid =>
    case EvtOobRead =>
    case EvtOobWrite =>
  }

  /** The words that the header gives names to, BAL_EVT_NORMAL, BAL_EVT_CLIENT and BAL_EVT_ALL, as sets of events. */
  lemma NamedMasks()
    ensures forall e: Event :: e in Decode(0x7ff)
    ensures Decode(0x1bf) == Decode(0x7ff) - {EvtPriority, EvtOobRead, EvtOobWrite}
    ensures Decode(0x1bd) == Decode(0x1bf) - {EvtWrite}
  {
    hide HasEvent;
    forall e: Event
      ensures HasEvent(0x1bd, e) <==> e !in {EvtWrite, EvtPriority, EvtOobRead, EvtOobWrite}
      ensures HasEvent(0x1bf, e) <==> e !in {EvtPriority, EvtOobRead, EvtOobWrite}
      ensures HasEvent(0x7ff, e)
    {
      NamedBit(e);
    }
  }

  /** The words that the header names after single events. */
  lemma NamedEvents()
    ensures Decode(0x1) == {EvtRead} && Decode(0x2) == {EvtWrite} && Decode(0x4) == {EvtConnect}
    ensures Decode(0x8) == {EvtConnFail} && Decode(0x10) == {EvtAccept} && Decode(0x20) == {EvtClose}
    ensures Decode(0x40) == {EvtPriority} && Decode(0x80) == {EvtError} && Decode(0x100) == {EvtInvalid}
    ensures Decode(0x200) == {EvtOobRead} && Decode(0x400) == {EvtOobWrite}
  {
    hide Decode;
    DecodeBit(EvtRead);
    DecodeBit(EvtWrite);
    DecodeBit(EvtConnect);
    DecodeBit(EvtConnFail);
    DecodeBit(EvtAccept);
    DecodeBit(EvtClose);
    DecodeBit(EvtPriority);
    DecodeBit(EvtError);
    DecodeBit(EvtInvalid);
    DecodeBit(EvtOobRead);
    DecodeBit(EvtOobWrite);
  }

  // ----- The translation of raw events for one socket -----

  /** What one dispatch makes of the raw events: the events handed to the callback, the socket's new mask and state
      bits, and whether the descriptor is to leave the list afterwards. */
  datatype Translation = Translation(out: set<Event>, mask: bv32, bits: bv32, drop: bool)

  /** Everything a translation depends on. `peerClosed` is the answer of the closed-connection probe, which
      only platforms without POLLRDHUP consult. */
  datatype Polled = Polled(raw: bv32, mask: bv32, bits: bv32, listening: bool, peerClosed: bool)
  {
    /** The raw event was reported and the socket wants it. */
    predicate Wanted(e: Event) {
      e in Decode(raw) && e in Decode(mask)
    }

    predicate Pending() {
      IsSet(bits, S_CONNECT)
    }

    predicate DecidedByRead() {
      Pending() && Wanted(EvtRead) && !listening
    }

    /** A pending connection is decided by the first readable or writable report that reaches it. */
    predicate Decided() {
      DecidedByRead() || (Pending() && Wanted(EvtWrite))
    }

    predicate Failed() {
      EvtClose in Decode(raw) || EvtError in Decode(raw)
    }

    /** Ordinary input: readable, and neither a listener nor a pending connection. */
    predicate Input() {
      Wanted(EvtRead) && !listening && !Pending()
    }

    /** Each event is decided on the entry values alone. */
    predicate Delivers(e: Event) {
      match e
      case EvtRead => Input() && !peerClosed
      case EvtWrite => Wanted(EvtWrite) && !Pending()
      case EvtConnect => Decided() && !Failed()
      case EvtConnFail => Decided() && Failed()
      case EvtAccept => Wanted(EvtRead) && listening
      case EvtClose => Wanted(EvtClose) || (Input() && peerClosed)
      case EvtError => Wanted(EvtError) && !Decided()
      case _ => Wanted(e)
    }
  }

  /** Closed form of the translation. */
  function Translate(i: Polled): Translation {
    Translation(
      set e: Event | i.Delivers(e),
      if i.Decided() then SetLow(i.mask, Bit(EvtWrite)) else i.mask,
      if i.Decided() then SetLow(i.bits, S_CONNECT) else i.bits,
      EvtClose in Decode(i.raw) || EvtInvalid in Decode(i.raw))
  }

  predicate CarriesOutcome(out: set<Event>) {
    EvtConnect in out || EvtConnFail in out
  }

  /** A connection outcome excludes its opposite and all ordinary I/O; a failure swallows the error event and
      a success is never reported together with a close or an error. */
  lemma OutcomeExcludes(i: Polled)
    ensures var out := Translate(i).out;
      && !(EvtConnect in out && EvtConnFail in out)
      && (CarriesOutcome(out) ==> EvtRead !in out && EvtWrite !in out)
      && (EvtConnFail in out ==> EvtError !in out)
      && (EvtConnect in out ==> EvtClose !in out && EvtError !in out)
  {
  }

  /** The pending bit and write interest are given up exactly when an outcome is reported. */
  lemma OutcomeDropsPending(i: Polled)
    ensures var t := Translate(i);
      && (CarriesOutcome(t.out) <==> i.Pending() && !IsSet(t.bits, S_CONNECT))
      && Decode(t.mask) == Decode(i.mask) - (if CarriesOutcome(t.out) then {EvtWrite} else {})
      && (!CarriesOutcome(t.out) ==> t.mask == i.mask && t.bits == i.bits)
  {
    hide Decode, IsSet, SetLow;
    LowClears(i.bits, S_CONNECT);
    LowDrops(i.mask, Bit(EvtWrite));
    DecodeBit(EvtWrite);
  }

  /** An on-request event is delivered only if it was reported and is in the mask at dispatch. */
  lemma DeliveredWasWanted(i: Polled, e: Event)
    requires e in ON_REQUEST && e in Translate(i).out
    ensures i.Wanted(e)
  {
  }

  // What a socket hears, case by case, in terms of the words alone. The cases cover all inputs.

  /** Neither listening nor connecting: what was reported and is in the mask, except that readable means closed if the
      peer has gone. The socket stays as it is. */
  lemma OrdinaryHears(i: Polled)
    requires !IsSet(i.bits, S_CONNECT) && !i.listening
    ensures var t, heard := Translate(i), Decode(i.raw) * Decode(i.mask) - {EvtConnect, EvtConnFail, EvtAccept};
      && t.out == (if EvtRead in heard && i.peerClosed then heard - {EvtRead} + {EvtClose} else heard)
      && t.mask == i.mask && t.bits == i.bits
  {
    hide Decode, IsSet;
    EventCases(i);
  }

  /** Listening and not connecting: readable means that somebody wants to connect. */
  lemma ListenerHears(i: Polled)
    requires !IsSet(i.bits, S_CONNECT) && i.listening
    ensures var t, heard := Translate(i), Decode(i.raw) * Decode(i.mask) - {EvtConnect, EvtConnFail, EvtAccept};
      && t.out == (if EvtRead in heard then heard - {EvtRead} + {EvtAccept} else heard)
      && t.mask == i.mask && t.bits == i.bits
  {
    hide Decode, IsSet;
    EventCases(i);
  }

  /** Connecting: readable or writable means that the connection is decided. It has failed if and only if the descriptor
      is reported closed or in error, and the error is then not heard. Until then everything else is heard as usual. */
  lemma ConnectingHears(i: Polled)
    requires IsSet(i.bits, S_CONNECT) && !i.listening
    ensures var raw, t := Decode(i.raw), Translate(i);
      var heard := raw * Decode(i.mask) - {EvtRead, EvtWrite, EvtConnect, EvtConnFail, EvtAccept};
      if raw * Decode(i.mask) * {EvtRead, EvtWrite} == {} then t == Translation(heard, i.mask, i.bits, t.drop)
      else if EvtClose in raw || EvtError in raw then t.out == heard - {EvtError} + {EvtConnFail}
      else t.out == heard + {EvtConnect}
  {
    hide Decode, IsSet, SetLow;
    EventCases(i);
    var decisive := Decode(i.raw) * Decode(i.mask) * {EvtRead, EvtWrite};
    if decisive == {} {
      assert EvtRead !in decisive && EvtWrite !in decisive;
    } else {
      var e :| e in decisive;
    }
  }

  /** Connecting and listening at once: readable is taken for an incoming connection, so only writable decides. */
  lemma ConnectingListenerHears(i: Polled)
    requires IsSet(i.bits, S_CONNECT) && i.listening
    ensures var raw, t := Decode(i.raw), Translate(i);
      var heard := raw * Decode(i.mask) - {EvtRead, EvtWrite, EvtConnect, EvtConnFail, EvtAccept}
                     + (if EvtRead in raw * Decode(i.mask) then {EvtAccept} else {});
      if EvtWrite !in raw * Decode(i.mask) then t == Translation(heard, i.mask, i.bits, t.drop)
      else if EvtClose in raw || EvtError in raw then t.out == heard - {EvtError} + {EvtConnFail}
      else t.out == heard + {EvtConnect}
  {
    hide Decode, IsSet, SetLow;
    EventCases(i);
  }

  /** Each event of a translation, decided one by one. */
  lemma EventCases(i: Polled)
    ensures forall e: Event :: e in Translate(i).out <==> i.Delivers(e)
  {
  }

  /** What is left of the socket and the list entry: the bits lose S_CONNECT with an outcome and nothing else, and the
      descriptor is dropped if and only if it was reported closed or invalid. */
  lemma TranslationLeaves(i: Polled)
    ensures var t := Translate(i);
      && (IsSet(t.bits, S_CONNECT) <==> IsSet(i.bits, S_CONNECT) && EvtConnect !in t.out && EvtConnFail !in t.out)
      && (IsSet(t.bits, S_LISTEN) <==> IsSet(i.bits, S_LISTEN)) && (IsSet(t.bits, S_CLOSE) <==> IsSet(i.bits, S_CLOSE))
      && (t.drop <==> HasEvent(i.raw, EvtClose) || HasEvent(i.raw, EvtInvalid))
  {
    hide IsSet, SetLow, Bit;
    StateBits();
    LowUnsets(i.bits, S_CONNECT, S_CONNECT);
    LowUnsets(i.bits, S_CONNECT, S_LISTEN);
    LowUnsets(i.bits, S_CONNECT, S_CLOSE);
  }

  /** The three state bits are single and distinct. */
  lemma StateBits()
    ensures S_CONNECT != 0 && S_CONNECT & (S_CONNECT - 1) == 0 && IsSet(S_CONNECT, S_CONNECT)
    ensures S_LISTEN != 0 && S_LISTEN & (S_LISTEN - 1) == 0 && IsSet(S_LISTEN, S_LISTEN)
    ensures S_CLOSE != 0 && S_CLOSE & (S_CLOSE - 1) == 0 && IsSet(S_CLOSE, S_CLOSE)
    ensures !IsSet(S_CONNECT, S_LISTEN) && !IsSet(S_CONNECT, S_CLOSE) && !IsSet(S_LISTEN, S_CONNECT)
    ensures !IsSet(S_LISTEN, S_CLOSE) && !IsSet(S_CLOSE, S_CONNECT) && !IsSet(S_CLOSE, S_LISTEN)
  {
  }

  /** Translation never adds to a mask. */
  lemma TranslateOnlyLowers(i: Polled)
    ensures Decode(Translate(i).mask) <= Decode(i.mask)
  {
    OutcomeDropsPending(i);
  }

  // ----- poll() flags -----

  // Distinct single bits; nothing below depends on which.
  const POLL_RDNORM: bv16 := 0x0040
  const POLL_WRNORM: bv16 := 0x0100
  const POLL_RDBAND: bv16 := 0x0080
  const POLL_WRBAND: bv16 := 0x0200
  const POLL_PRI: bv16 := 0x0002
  const POLL_HUP: bv16 := 0x0010
  const POLL_RDHUP: bv16 := 0x2000
  const POLL_ERR: bv16 := 0x0008
  const POLL_NVAL: bv16 := 0x0020

  predicate FlagSet(flags: bv16, flag: bv16) {
    flags & flag == flag
  }

  function WhenFlag(condition: bool, flag: bv16): bv16 {
    if condition then flag else 0
  }

  /** The bit of an event if the condition holds, otherwise nothing. */
  function When(condition: bool, e: Event): bv32 {
    if condition then Bit(e) else 0
  }

  /** What to ask of poll() for a mask. `rdHup` says whether the platform has POLLRDHUP. */
  function MaskToPollFlags(rdHup: bool, mask: bv32): bv16 {
    WhenFlag(HasEvent(mask, EvtRead), POLL_RDNORM)
    | WhenFlag(HasEvent(mask, EvtWrite), POLL_WRNORM)
    | WhenFlag(HasEvent(mask, EvtOobRead), POLL_RDBAND)
    | WhenFlag(HasEvent(mask, EvtOobWrite), POLL_WRBAND)
    | WhenFlag(HasEvent(mask, EvtPriority), POLL_PRI)
    | WhenFlag(rdHup && HasEvent(mask, EvtClose), POLL_RDHUP)
  }

  function PollFlagsToEvents(rdHup: bool, flags: bv16): bv32 {
    When(FlagSet(flags, POLL_RDNORM), EvtRead)
    | When(FlagSet(flags, POLL_WRNORM), EvtWrite)
    | When(FlagSet(flags, POLL_RDBAND), EvtOobRead)
    | When(FlagSet(flags, POLL_WRBAND), EvtOobWrite)
    | When(FlagSet(flags, POLL_PRI), EvtPriority)
    | When(FlagSet(flags, POLL_HUP) || (rdHup && FlagSet(flags, POLL_RDHUP)), EvtClose)
    | When(FlagSet(flags, POLL_ERR), EvtError)
    | When(FlagSet(flags, POLL_NVAL), EvtInvalid)
  }

  /** poll() reports nothing but what was requested, plus the three flags it always may report. */
  predicate Conforms(requested: bv16, reported: bv16) {
    reported & !(requested | POLL_ERR | POLL_HUP | POLL_NVAL) == 0
  }

  /** Events that poll() reports only on request. */
  const ON_REQUEST: set<Event> := {EvtRead, EvtWrite, EvtOobRead, EvtOobWrite, EvtPriority}

  /** The flag that stands for an on-request event, in both directions. */
  function FlagOf(e: Event): bv16
    requires e in ON_REQUEST
  {
    match e
    case EvtRead => POLL_RDNORM
    case EvtWrite => POLL_WRNORM
    case EvtOobRead => POLL_RDBAND
    case EvtOobWrite => POLL_WRBAND
    case _ => POLL_PRI
  }

  /** The flags that report an event; connection outcomes and incoming connections are never reported. */
  predicate Reports(rdHup: bool, flags: bv16, e: Event) {
    match e
    case EvtRead => FlagSet(flags, POLL_RDNORM)
    case EvtWrite => FlagSet(flags, POLL_WRNORM)
    case EvtOobRead => FlagSet(flags, POLL_RDBAND)
    case EvtOobWrite => FlagSet(flags, POLL_WRBAND)
    case EvtPriority => FlagSet(flags, POLL_PRI)
    case EvtClose => FlagSet(flags, POLL_HUP) || (rdHup && FlagSet(flags, POLL_RDHUP))
    case EvtError => FlagSet(flags, POLL_ERR)
    case EvtInvalid => FlagSet(flags, POLL_NVAL)
    case _ => false
  }

  /** An event is polled exactly when a flag that stands for it was reported. */
  lemma PolledIsReported(rdHup: bool, flags: bv16, e: Event)
    ensures HasEvent(PollFlagsToEvents(rdHup, flags), e) <==> Reports(rdHup, flags, e)
  {
    hide FlagSet;
    match e
    case EvtRead =>
    case EvtWrite =>
    case EvtConnect =>
    case EvtConnFail =>
    case EvtAccept =>
    case EvtClose =>
    case EvtPriority =>
    case EvtError =>
    case EvtInvalid =>
    case EvtOobRead =>
    case EvtOobWrite =>
  }

  /** The events in what poll() reported, one by one. */
  lemma EventsOfFlags(rdHup: bool, flags: bv16)
    ensures var events := Decode(PollFlagsToEvents(rdHup, flags));
      && (EvtRead in events <==> FlagSet(flags, POLL_RDNORM))
      && (EvtWrite in events <==> FlagSet(flags, POLL_WRNORM))
      && (EvtOobRead in events <==> FlagSet(flags, POLL_RDBAND))
      && (EvtOobWrite in events <==> FlagSet(flags, POLL_WRBAND))
      && (EvtPriority in events <==> FlagSet(flags, POLL_PRI))
      && (EvtClose in events <==> FlagSet(flags, POLL_HUP) || (rdHup && FlagSet(flags, POLL_RDHUP)))
      && (EvtError in events <==> FlagSet(flags, POLL_ERR))
      && (EvtInvalid in events <==> FlagSet(flags, POLL_NVAL))
      && EvtConnect !in events && EvtConnFail !in events && EvtAccept !in events
  {
    hide PollFlagsToEvents, FlagSet, HasEvent;
    forall e: Event ensures HasEvent(PollFlagsToEvents(rdHup, flags), e) <==> Reports(rdHup, flags, e) {
      PolledIsReported(rdHup, flags, e);
    }
  }

  /** What poll() reported and what an ordinary socket then hears, one event after the other. */
  lemma OrdinaryReport(rdHup: bool, flags: bv16, i: Polled)
    requires i.raw == PollFlagsToEvents(rdHup, flags) && !IsSet(i.bits, S_CONNECT) && !i.listening && !i.peerClosed
    ensures var out, mask := Translate(i).out, Decode(i.mask);
      && (EvtRead in out <==> FlagSet(flags, POLL_RDNORM) && EvtRead in mask)
      && (EvtWrite in out <==> FlagSet(flags, POLL_WRNORM) && EvtWrite in mask)
      && (EvtOobRead in out <==> FlagSet(flags, POLL_RDBAND) && EvtOobRead in mask)
      && (EvtOobWrite in out <==> FlagSet(flags, POLL_WRBAND) && EvtOobWrite in mask)
      && (EvtPriority in out <==> FlagSet(flags, POLL_PRI) && EvtPriority in mask)
      && (EvtClose in out <==> (FlagSet(flags, POLL_HUP) || (rdHup && FlagSet(flags, POLL_RDHUP))) && EvtClose in mask)
      && (EvtError in out <==> FlagSet(flags, POLL_ERR) && EvtError in mask)
      && (EvtInvalid in out <==> FlagSet(flags, POLL_NVAL) && EvtInvalid in mask)
      && EvtConnect !in out && EvtConnFail !in out && EvtAccept !in out
  {
    hide Decode, IsSet, FlagSet, PollFlagsToEvents, Translate;
    OrdinaryHears(i);
    EventsOfFlags(rdHup, flags);
  }

  /** What poll() reported and what a connecting socket then hears, once it is writable. */
  lemma ConnectingReport(rdHup: bool, flags: bv16, i: Polled)
    requires i.raw == PollFlagsToEvents(rdHup, flags) && IsSet(i.bits, S_CONNECT)
    requires FlagSet(flags, POLL_WRNORM) && EvtWrite in Decode(i.mask)
    ensures var hungUp, out := FlagSet(flags, POLL_HUP) || (rdHup && FlagSet(flags, POLL_RDHUP)), Translate(i).out;
      var failed := hungUp || FlagSet(flags, POLL_ERR);
      (EvtConnFail in out <==> failed) && (EvtConnect in out <==> !failed) && EvtRead !in out && EvtWrite !in out
  {
    hide Decode, IsSet, FlagSet, PollFlagsToEvents, Translate;
    EventsOfFlags(rdHup, flags);
    if i.listening {
      ConnectingListenerHears(i);
    } else {
      ConnectingHears(i);
      assert EvtWrite in Decode(i.raw) * Decode(i.mask) * {EvtRead, EvtWrite};
    }
  }

  lemma RequestedFlag(rdHup: bool, mask: bv32, e: Event)
    requires e in ON_REQUEST
    ensures FlagSet(MaskToPollFlags(rdHup, mask), FlagOf(e)) <==> HasEvent(mask, e)
  {
    hide HasEvent;
    match e
    case EvtRead =>
    case EvtWrite =>
    case EvtOobRead =>
    case EvtOobWrite =>
    case EvtPriority =>
  }

  lemma RequestedClose(rdHup: bool, mask: bv32)
    ensures FlagSet(MaskToPollFlags(rdHup, mask), POLL_RDHUP) <==> rdHup && HasEvent(mask, EvtClose)
  {
  }

  /** The flags to ask of poll() for a mask, one by one, and no others. */
  lemma FlagsOfMask(rdHup: bool, mask: bv32)
    ensures var flags, wanted := MaskToPollFlags(rdHup, mask), Decode(mask);
      && (FlagSet(flags, POLL_RDNORM) <==> EvtRead in wanted)
      && (FlagSet(flags, POLL_WRNORM) <==> EvtWrite in wanted)
      && (FlagSet(flags, POLL_RDBAND) <==> EvtOobRead in wanted)
      && (FlagSet(flags, POLL_WRBAND) <==> EvtOobWrite in wanted)
      && (FlagSet(flags, POLL_PRI) <==> EvtPriority in wanted)
      && (FlagSet(flags, POLL_RDHUP) <==> rdHup && EvtClose in wanted)
      && flags & !(POLL_RDNORM | POLL_WRNORM | POLL_RDBAND | POLL_WRBAND | POLL_PRI | POLL_RDHUP) == 0
  {
    hide HasEvent, FlagSet, MaskToPollFlags;
    RequestedFlag(rdHup, mask, EvtRead);
    RequestedFlag(rdHup, mask, EvtWrite);
    RequestedFlag(rdHup, mask, EvtOobRead);
    RequestedFlag(rdHup, mask, EvtOobWrite);
    RequestedFlag(rdHup, mask, EvtPriority);
    RequestedClose(rdHup, mask);
    NothingElseRequested(rdHup, mask);
  }

  lemma NothingElseRequested(rdHup: bool, mask: bv32)
    ensures MaskToPollFlags(rdHup, mask)
            & !(POLL_RDNORM | POLL_WRNORM | POLL_RDBAND | POLL_WRBAND | POLL_PRI | POLL_RDHUP) == 0
  {
    hide HasEvent;
  }

  lemma NeverRequested(rdHup: bool, mask: bv32)
    ensures var f := MaskToPollFlags(rdHup, mask);
      !FlagSet(f, POLL_HUP) && !FlagSet(f, POLL_ERR) && !FlagSet(f, POLL_NVAL)
  {
  }

  lemma RoundTripOf(rdHup: bool, mask: bv32, e: Event)
    ensures HasEvent(PollFlagsToEvents(rdHup, MaskToPollFlags(rdHup, mask)), e)
       <==> HasEvent(mask, e) && (e in ON_REQUEST || (rdHup && e == EvtClose))
  {
    hide HasEvent, FlagSet, PollFlagsToEvents, MaskToPollFlags;
    PolledIsReported(rdHup, MaskToPollFlags(rdHup, mask), e);
    NeverRequested(rdHup, mask);
    if e in ON_REQUEST {
      RequestedFlag(rdHup, mask, e);
    } else if e == EvtClose {
      RequestedClose(rdHup, mask);
    }
  }

  /** Mask to poll() flags and back is the identity on the pollable events and loses all others. */
  lemma MaskRoundTrip(rdHup: bool, mask: bv32)
    ensures Decode(PollFlagsToEvents(rdHup, MaskToPollFlags(rdHup, mask)))
         == Decode(mask) * ({EvtRead, EvtWrite, EvtOobRead, EvtOobWrite, EvtPriority}
                            + (if rdHup then {EvtClose} else {}))
  {
    hide HasEvent, PollFlagsToEvents, MaskToPollFlags;
    forall e: Event
      ensures HasEvent(PollFlagsToEvents(rdHup, MaskToPollFlags(rdHup, mask)), e)
         <==> HasEvent(mask, e) && (e in ON_REQUEST || (rdHup && e == EvtClose))
    {
      RoundTripOf(rdHup, mask, e);
    }
  }

  lemma ConformingFlag(flag: bv16, requested: bv16, reported: bv16)
    requires Conforms(requested, reported) && flag & (POLL_ERR | POLL_HUP | POLL_NVAL) == 0 && FlagSet(reported, flag)
    ensures FlagSet(requested, flag)
  {
  }

  /** A conforming report yields an on-request event only if the mask asked for it. */
  lemma ReportWasRequested(rdHup: bool, mask: bv32, reported: bv16, e: Event)
    requires Conforms(MaskToPollFlags(rdHup, mask), reported)
    requires e in ON_REQUEST && HasEvent(PollFlagsToEvents(rdHup, reported), e)
    ensures HasEvent(mask, e)
  {
    hide HasEvent, FlagSet, PollFlagsToEvents, MaskToPollFlags, Conforms;
    PolledIsReported(rdHup, reported, e);
    ConformingFlag(FlagOf(e), MaskToPollFlags(rdHup, mask), reported);
    RequestedFlag(rdHup, mask, e);
  }
}
