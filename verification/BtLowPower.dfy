/** The wake line of the Bluetooth controller: packets assert it, an idle timer deasserts it. */
module BtLowPower {
  type Packet = seq<int>

  /** What happens on the line, and the ticks of the timer. */
  datatype Action = Assert | Deassert | Sent(packet: Packet) | Tick

  /** What the holder of wakeup_mutex_ does next. */
  datatype Hold =
    | Free
    | Arming(ms: nat, waking: Packet)  // Send has read lpm_timeout_ms and arms the timer with it
    | Waking(waking: Packet)           // lpm_wake_deasserted = false and the assert
    | Sending(packet: Packet)          // hci_->Send
    | Stopping                         // OnTimeout has deasserted and turns the timer off

  /** The globals of vendor_interface.cc, the period of the watcher's timer (zero: off), how far the configuration
      is, the holder of the mutex and the history. storing: the timeout is stored and the timer not yet armed. */
  datatype Lpm = Lpm(
    deasserted: bool, timeoutMs: nat, recent: bool, period: nat, storing: bool, configured: bool, hold: Hold,
    history: seq<Action>)

  /** The steps of all threads. OnFirmwareConfigured takes no mutex: it stores the timeout and then arms the timer,
      between any two steps of the others. Proceeds is a step of the holder of the mutex. */
  datatype Event = Opens | Sends(packet: Packet) | Ticks | Proceeds | Stores(idleTimeoutMs: nat) | Arms

  /** A mutex is taken when it is free, a tick needs a running timer, and a configuration stores before it arms. */
  predicate Possible(s: Lpm, e: Event) {
    match e
    case Opens => s.hold == Free && !s.storing
    case Sends(_) => s.hold == Free
    case Ticks => s.hold == Free && s.period > 0
    case Proceeds => s.hold != Free
    case Stores(_) => !s.storing
    case Arms => s.storing
  }

  // ----- Specification -----

  function Log(s: Lpm, a: Action): Lpm {
    s.(history := s.history + [a])
  }

  /** One step. Opening creates a new watcher, whose timer is off. */
  function Step(s: Lpm, e: Event): Lpm {
    match e
    case Opens => s.(deasserted := true, period := 0, configured := false)
    case Sends(p) => s.(recent := true, hold := if s.deasserted then Arming(s.timeoutMs, p) else Sending(p))
    case Ticks =>
      if s.recent then Log(s, Tick).(recent := false)
      else Log(Log(s, Tick), Deassert).(deasserted := true, hold := Stopping)
    case Proceeds => Proceed(s)
    case Stores(ms) => s.(timeoutMs := ms, storing := true)
    case Arms => s.(period := s.timeoutMs, storing := false, configured := true)
  }

  function Proceed(s: Lpm): Lpm {
    match s.hold
    case Free => s
    case Arming(ms, p) => s.(period := ms, hold := Waking(p))
    case Waking(p) => Log(s, Assert).(deasserted := false, hold := Sending(p))
    case Sending(p) => Log(s, Sent(p)).(hold := Free)
    case Stopping => s.(period := 0, hold := Free)
  }

  /** The holder runs on until it releases the mutex. */
  function Complete(s: Lpm): Lpm
    decreases match s.hold case Free => 0 case Arming(_, _) => 3 case Waking(_) => 2 case _ => 1
  {
    if s.hold == Free then s else Complete(Proceed(s))
  }

  /** The state after the first Open: the globals start out false and zero. */
  const OPENED: Lpm := Lpm(true, 0, false, 0, false, false, Free, [])

  predicate Feasible(s: Lpm, es: seq<Event>)
    decreases |es|
  {
    es == [] || (Possible(s, es[0]) && Feasible(Step(s, es[0]), es[1..]))
  }

  function Run(s: Lpm, es: seq<Event>): Lpm
    decreases |es|
  {
    if es == [] then s else Run(Step(s, es[0]), es[1..])
  }

  // ----- The code -----

  class VendorInterface {
    var lpmWakeDeasserted: bool
    var lpmTimeoutMs: nat
    var recentActivity: bool
    var period: nat
    var configured: bool
    var history: seq<Action>

    /** Between calls: nobody holds the mutex and no configuration is under way. */
    function View(): Lpm
      reads this
    {
      Lpm(lpmWakeDeasserted, lpmTimeoutMs, recentActivity, period, false, configured, Free, history)
    }

    /** The part of Open that concerns the wake line. */
    method Open()
      modifies this
      ensures View() == Step(old(View()), Opens)
    {
      period := 0;
      configured := false;
      lpmWakeDeasserted := true;
    }

    /** Send, under wakeup_mutex_, when nothing comes in between. */
    method Send(packet: Packet)
      modifies this
      ensures View() == Complete(Step(old(View()), Sends(packet)))
    {
      CompleteSend(Step(View(), Sends(packet)));
      recentActivity := true;
      if lpmWakeDeasserted {
        period := lpmTimeoutMs;
        lpmWakeDeasserted := false;
        history := history + [Assert];
      }
      history := history + [Sent(packet)];
    }

    /** OnFirmwareConfigured; the argument is what BT_VND_OP_GET_LPM_IDLE_TIMEOUT answers. */
    method OnFirmwareConfigured(idleTimeoutMs: nat)
      modifies this
      ensures View() == Step(Step(old(View()), Stores(idleTimeoutMs)), Arms)
    {
      lpmTimeoutMs := idleTimeoutMs;
      period := lpmTimeoutMs;
      configured := true;
    }

    /** OnTimeout, under wakeup_mutex_; the tick is recorded first. */
    method OnTimeout()
      modifies this
      ensures View() == Complete(Step(old(View()), Ticks))
    {
      history := history + [Tick];
      if !recentActivity {
        lpmWakeDeasserted := true;
        history := history + [Deassert];
        period := 0;
      }
      recentActivity := false;
    }
  }

  /** The holder's steps, one after the other. */
  lemma CompleteSend(s: Lpm)
    ensures s.hold.Sending? ==> Complete(s) == Proceed(s)
    ensures s.hold.Arming? ==> Complete(s) == Proceed(Proceed(Proceed(s)))
  {
    if s.hold.Arming? {
      var armed, woken := Proceed(s), Proceed(Proceed(s));
      assert Complete(s) == Complete(armed) && Complete(armed) == Complete(woken) && Complete(woken) == Proceed(woken);
    }
  }

  // ----- Safety -----

  /** The last word on the line before a position is Assert. */
  predicate AssertedBefore(h: seq<Action>, k: nat)
    requires k <= |h|
  {
    exists a :: 0 <= a < k && h[a] == Assert && forall j | a < j < k :: h[j] != Deassert
  }

  /** Between the previous tick, or the beginning, and a position only the tick right before it, and no packet. */
  predicate QuietBefore(h: seq<Action>, k: nat)
    requires k <= |h|
  {
    k > 0 && h[k - 1] == Tick && NoPacketSinceTick(h, k - 1)
  }

  /** Going back from a position, a tick comes before any packet. */
  predicate NoPacketSinceTick(h: seq<Action>, k: nat)
    requires k <= |h|
  {
    k > 0 ==> !h[k - 1].Sent? && (h[k - 1] == Tick || NoPacketSinceTick(h, k - 1))
  }

  predicate WokenPackets(h: seq<Action>) {
    forall k: nat | k < |h| && h[k].Sent? :: AssertedBefore(h, k)
  }

  predicate IdleDeasserts(h: seq<Action>) {
    forall k: nat | k < |h| && h[k] == Deassert :: QuietBefore(h, k)
  }

  predicate Consistent(s: Lpm) {
    && (!s.deasserted ==> AssertedBefore(s.history, |s.history|))
    && (!s.recent ==> NoPacketSinceTick(s.history, |s.history|))
    && (s.hold.Sending? ==> !s.deasserted && s.recent)
    && (s.hold.Arming? || s.hold.Waking? ==> s.deasserted && s.recent)
    && (s.hold.Stopping? ==> s.deasserted && !s.recent)
    && WokenPackets(s.history) && IdleDeasserts(s.history)
  }

  /** A longer history says the same about its earlier positions. */
  lemma {:induction false} SamePast(h: seq<Action>, more: seq<Action>, k: nat)
    requires k <= |h|
    ensures AssertedBefore(h + more, k) <==> AssertedBefore(h, k)
    ensures NoPacketSinceTick(h + more, k) <==> NoPacketSinceTick(h, k)
    ensures QuietBefore(h + more, k) <==> QuietBefore(h, k)
  {
    if k > 0 { SamePast(h, more, k - 1); }
    if AssertedBefore(h, k) {
      var a :| 0 <= a < k && h[a] == Assert && forall j | a < j < k :: h[j] != Deassert;
      assert (h + more)[a] == Assert && forall j | a < j < k :: (h + more)[j] == h[j];
    }
    if AssertedBefore(h + more, k) {
      var a :| 0 <= a < k && (h + more)[a] == Assert && forall j | a < j < k :: (h + more)[j] != Deassert;
      assert h[a] == Assert && forall j | a < j < k :: (h + more)[j] == h[j];
    }
  }

  lemma Appended(h: seq<Action>, x: Action)
    requires WokenPackets(h) && IdleDeasserts(h)
    requires x.Sent? ==> AssertedBefore(h, |h|)
    requires x == Deassert ==> QuietBefore(h, |h|)
    ensures WokenPackets(h + [x]) && IdleDeasserts(h + [x])
    ensures x == Assert || (x != Deassert && AssertedBefore(h, |h|)) ==> AssertedBefore(h + [x], |h + [x]|)
    ensures x == Tick || (!x.Sent? && NoPacketSinceTick(h, |h|)) ==> NoPacketSinceTick(h + [x], |h + [x]|)
  {
    hide AssertedBefore, NoPacketSinceTick, QuietBefore;
    forall k: nat | k <= |h|
      ensures AssertedBefore(h + [x], k) <==> AssertedBefore(h, k)
      ensures QuietBefore(h + [x], k) <==> QuietBefore(h, k)
    {
      SamePast(h, [x], k);
    }
    OneMore(h, x);
  }

  lemma OneMore(h: seq<Action>, x: Action)
    ensures x == Assert || (x != Deassert && AssertedBefore(h, |h|)) ==> AssertedBefore(h + [x], |h + [x]|)
    ensures x == Tick || (!x.Sent? && NoPacketSinceTick(h, |h|)) ==> NoPacketSinceTick(h + [x], |h + [x]|)
  {
    SamePast(h, [x], |h|);
    if x == Assert {
      assert (h + [x])[|h|] == Assert;
    } else if x != Deassert && AssertedBefore(h, |h|) {
      var a :| 0 <= a < |h| && h[a] == Assert && forall j | a < j < |h| :: h[j] != Deassert;
      assert (h + [x])[a] == Assert && forall j | a < j < |h| :: (h + [x])[j] == h[j];
    }
  }

  lemma StepConsistent(s: Lpm, e: Event)
    requires Consistent(s) && Possible(s, e)
    ensures Consistent(Step(s, e))
  {
    hide AssertedBefore, NoPacketSinceTick, WokenPackets, IdleDeasserts;
    match e
    case Proceeds =>
      if s.hold.Waking? { Appended(s.history, Assert); }
      if s.hold.Sending? { Appended(s.history, Sent(s.hold.packet)); }
    case Ticks =>
      Appended(s.history, Tick);
      if !s.recent {
        SamePast(s.history, [Tick], |s.history|);
        Appended(s.history + [Tick], Deassert);
      }
    case _ =>
  }

  lemma {:induction false} ConsistentOnwards(s: Lpm, es: seq<Event>)
    requires Consistent(s) && Feasible(s, es)
    ensures Consistent(Run(s, es))
    decreases |es|
  {
    if es != [] {
      StepConsistent(s, es[0]);
      ConsistentOnwards(Step(s, es[0]), es[1..]);
    }
  }

  /** In every run each packet is sent with the line asserted, and the line is deasserted only at a tick with no
      packet since the tick before. */
  lemma WakeIsSafe(es: seq<Event>)
    requires Feasible(OPENED, es)
    ensures var h := Run(OPENED, es).history;
      && (forall k: nat | k < |h| && h[k].Sent? :: AssertedBefore(h, k))
      && (forall k: nat | k < |h| && h[k] == Deassert :: QuietBefore(h, k))
  {
    ConsistentOnwards(OPENED, es);
  }

  /** The packets on the line, the one a sender still holds, and the packets handed to Send. */
  function PacketsOf(h: seq<Action>): seq<Packet> {
    if h == [] then [] else
    PacketsOf(h[..|h| - 1]) + if h[|h| - 1].Sent? then [h[|h| - 1].packet] else []
  }

  function InHand(hold: Hold): seq<Packet> {
    match hold
    case Arming(_, p) => [p]
    case Waking(p) => [p]
    case Sending(p) => [p]
    case _ => []
  }

  function Given(es: seq<Event>): seq<Packet> {
    if es == [] then [] else (if es[0].Sends? then [es[0].packet] else []) + Given(es[1..])
  }

  lemma PacketsMore(h: seq<Action>, a: Action)
    ensures PacketsOf(h + [a]) == PacketsOf(h) + if a.Sent? then [a.packet] else []
  {
    assert (h + [a])[..|h|] == h;
  }

  lemma StepPackets(s: Lpm, e: Event)
    requires Possible(s, e)
    ensures var t := Step(s, e);
            PacketsOf(t.history) + InHand(t.hold)
            == PacketsOf(s.history) + InHand(s.hold) + if e.Sends? then [e.packet] else []
  {
    hide PacketsOf;
    match e
    case Proceeds =>
      if s.hold.Waking? { PacketsMore(s.history, Assert); }
      if s.hold.Sending? { PacketsMore(s.history, Sent(s.hold.packet)); }
    case Ticks =>
      PacketsMore(s.history, Tick);
      PacketsMore(s.history + [Tick], Deassert);
    case _ =>
  }

  /** Over every run each packet handed to Send goes out once and in order; only the last may still be in hand. */
  lemma {:induction false} PacketsGoOut(s: Lpm, es: seq<Event>)
    requires Feasible(s, es)
    ensures var t := Run(s, es);
            PacketsOf(t.history) + InHand(t.hold) == PacketsOf(s.history) + InHand(s.hold) + Given(es)
    decreases |es|
  {
    hide PacketsOf, InHand, Step;
    if es != [] {
      StepPackets(s, es[0]);
      PacketsGoOut(Step(s, es[0]), es[1..]);
      var sent := if es[0].Sends? then [es[0].packet] else [];
      assert PacketsOf(s.history) + InHand(s.hold) + sent + Given(es[1..])
          == PacketsOf(s.history) + InHand(s.hold) + (sent + Given(es[1..]));
    }
  }

  // ----- The line goes down again -----

  /** Once the firmware is configured, the timer of an asserted line runs, or will run when the holder of the mutex
      is done, with the configured period. */
  predicate Guarded(s: Lpm) {
    s.configured && !s.storing ==>
      match s.hold
      case Arming(ms, _) => ms == s.timeoutMs
      case Waking(_) => s.period == s.timeoutMs
      case _ => s.deasserted || s.period == s.timeoutMs
  }

  /** A configuration arms the timer while a Send still holds a timeout it read before. */
  predicate Overtakes(s: Lpm, e: Event) {
    e.Arms? && s.hold.Arming? && s.hold.ms != s.timeoutMs
  }

  /** Every step keeps the guard, except exactly an arming that overtakes a Send. */
  lemma StepGuarded(s: Lpm, e: Event)
    requires Guarded(s) && Consistent(s) && Possible(s, e)
    ensures Guarded(Step(s, e)) <==> !Overtakes(s, e)
  {
  }

  predicate NeverOvertakes(s: Lpm, es: seq<Event>)
    decreases |es|
  {
    es == [] || (!Overtakes(s, es[0]) && NeverOvertakes(Step(s, es[0]), es[1..]))
  }

  lemma {:induction false} RunGuarded(s: Lpm, es: seq<Event>)
    requires Guarded(s) && Consistent(s) && Feasible(s, es) && NeverOvertakes(s, es)
    ensures Guarded(Run(s, es)) && Consistent(Run(s, es))
    decreases |es|
  {
    if es != [] {
      StepGuarded(s, es[0]);
      StepConsistent(s, es[0]);
      RunGuarded(Step(s, es[0]), es[1..]);
    }
  }

  /** Ticks until the line goes down. */
  function Needed(s: Lpm): nat {
    if s.deasserted then 0 else if s.recent then 2 else 1
  }

  function TickCount(es: seq<Event>): nat {
    if es == [] then 0 else (if es[0].Ticks? then 1 else 0) + TickCount(es[1..])
  }

  /** Neither a packet nor a new session, and no change of the timeout to zero. */
  predicate Quiet(es: seq<Event>) {
    forall e | e in es :: !e.Sends? && !e.Opens? && (e.Stores? ==> e.idleTimeoutMs > 0)
  }

  /** After the last packet the second tick at the latest deasserts the line, and until then a tick is due: for every
      state reached without overtaking, configured with a positive timeout, and everything that can happen quietly. */
  lemma GoesDown(past: seq<Event>, es: seq<Event>)
    requires Feasible(OPENED, past) && NeverOvertakes(OPENED, past)
    requires var s := Run(OPENED, past); s.configured && !s.storing && s.timeoutMs > 0 && s.hold == Free
    requires Feasible(Run(OPENED, past), es) && Quiet(es)
    ensures var s, t := Run(OPENED, past), Run(Run(OPENED, past), es);
      && Needed(t) == (if TickCount(es) >= Needed(s) then 0 else Needed(s) - TickCount(es))
      && (!t.deasserted ==> t.period > 0)
      && (TickCount(es) >= 2 ==> t.deasserted)
  {
    RunGuarded(OPENED, past);
    GoesDownFrom(Run(OPENED, past), es);
  }

  /** Nobody sends, and the timer of an asserted line runs. */
  predicate Settling(s: Lpm) {
    s.timeoutMs > 0 && (s.hold == Free || (s.hold == Stopping && s.deasserted)) && (s.deasserted || s.period > 0)
  }

  lemma {:induction false} GoesDownFrom(s: Lpm, es: seq<Event>)
    requires Settling(s) && Feasible(s, es) && Quiet(es)
    ensures var t := Run(s, es);
      && Needed(t) == (if TickCount(es) >= Needed(s) then 0 else Needed(s) - TickCount(es))
      && Settling(t)
    decreases |es|
  {
    if es != [] {
      assert es[0] in es && forall e | e in es[1..] :: e in es;
      GoesDownFrom(Step(s, es[0]), es[1..]);
    }
  }

  /** An asserted line whose timer is off stays asserted, whatever is sent, until a new session or configuration. */
  lemma {:induction false} OffStaysUp(s: Lpm, es: seq<Event>)
    requires !s.deasserted && s.period == 0 && (s.hold == Free || s.hold.Sending?) && Feasible(s, es)
    requires forall e | e in es :: e.Sends? || e.Ticks? || e.Proceeds?
    ensures !Run(s, es).deasserted && TickCount(es) == 0
    decreases |es|
  {
    if es != [] {
      assert es[0] in es && forall e | e in es[1..] :: e in es;
      OffStaysUp(Step(s, es[0]), es[1..]);
    }
  }

  /** With a timeout of zero an asserted line stays asserted until a new session or configuration. */
  lemma ZeroTimeoutStaysUp(s: Lpm, es: seq<Event>)
    requires Guarded(s) && s.configured && !s.storing && s.timeoutMs == 0 && !s.deasserted && s.hold == Free
    requires Feasible(s, es) && forall e | e in es :: e.Sends? || e.Ticks? || e.Proceeds?
    ensures !Run(s, es).deasserted && TickCount(es) == 0
  {
    OffStaysUp(s, es);
  }

  /** So does a line whose first packet was overtaken: it read the timeout before the configuration stored another
      one and armed the timer after it. For every packet, every timeout and everything sent later. */
  lemma OvertakenStaysUp(p: Packet, ms: nat, es: seq<Event>)
    requires ms > 0
    requires var s := Complete(Step(Step(Step(OPENED, Sends(p)), Stores(ms)), Arms));
      Feasible(s, es) && forall e | e in es :: e.Sends? || e.Ticks? || e.Proceeds?
    ensures var begun := Step(Step(OPENED, Sends(p)), Stores(ms));
            var s := Complete(Step(begun, Arms));
      && Overtakes(begun, Arms) && s.configured && s.timeoutMs == ms > 0 && s.period == 0
      && !Run(s, es).deasserted && TickCount(es) == 0
  {
    var armed := Step(Step(Step(OPENED, Sends(p)), Stores(ms)), Arms);
    assert armed.hold == Arming(0, p);
    CompleteSend(armed);
    OffStaysUp(Complete(armed), es);
  }
}
