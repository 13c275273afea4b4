/** The vendor library's internal commands: transmit_cb registers a callback, HandleIncomingEvent runs it on
    the Command Complete event of its opcode and hands every other event to the stack. */
module BtCommands {
  import opened Wrappers
  import opened Words

  type Packet = seq<byte>

  /** HCI_COMMAND_COMPLETE_EVENT, Bluetooth Core Specification, Volume 2, Part E, 7.7.14. */
  const COMMAND_COMPLETE := 0x0E

  /** Event code and length; the packet count and the opcode follow. */
  const EVENT_HEADER := 2

  /** Callbacks are named by numbers. A vendor library may pass no callback. */
  datatype Command = Command(opcode: u16, callback: Option<nat>)

  /** The commands a callback sends while it looks at an event. */
  type Script = (nat, Packet) -> seq<Command>

  /** Where an event went. */
  datatype Route = ToCallback(callback: nat, packet: Packet) | ToStack(packet: Packet)

  /** The intercepting state, with what was sent and where events went. */
  datatype Interceptor = Interceptor(callback: Option<nat>, opcode: u16, sent: seq<Command>, routed: seq<Route>)

  /** What the matching code reads of an event. */
  predicate WellFormed(p: Packet) {
    |p| > 0 && (p[0] == COMMAND_COMPLETE ==> |p| >= EVENT_HEADER + 3)
  }

  predicate Completes(p: Packet, opcode: u16) {
    WellFormed(p) && p[0] == COMMAND_COMPLETE && FromTwo(p[EVENT_HEADER + 1], p[EVENT_HEADER + 2]) == opcode
  }

  /** A Command Complete event for an opcode completes exactly the commands with that opcode. */
  lemma CompletesItsOpcode(length: byte, packets: byte, opcode: u16, rest: Packet, other: u16)
    ensures Completes([0x0E, length, packets] + TwoBytes(opcode) + rest, other) <==> opcode == other
  {
    var p := [0x0E, length, packets] + TwoBytes(opcode) + rest;
    assert p[3] == TwoBytes(opcode)[0] && p[4] == TwoBytes(opcode)[1];
  }

  /** No other event completes a command. */
  lemma OtherEventsComplete(p: Packet, opcode: u16)
    requires |p| > 0 && p[0] != 0x0E
    ensures !Completes(p, opcode)
  {
  }

  // ----- Specification -----

  function Transmit(s: Interceptor, c: Command): Interceptor {
    s.(callback := c.callback, opcode := c.opcode, sent := s.sent + [c])
  }

  function TransmitAll(s: Interceptor, cs: seq<Command>): Interceptor {
    if cs == [] then s else Transmit(TransmitAll(s, cs[..|cs| - 1]), cs[|cs| - 1])
  }

  function Handle(s: Interceptor, p: Packet, script: Script): Interceptor {
    if s.callback.Some? && Completes(p, s.opcode) then
      TransmitAll(s.(callback := None, routed := s.routed + [ToCallback(s.callback.value, p)]),
                  script(s.callback.value, p))
    else s.(routed := s.routed + [ToStack(p)])
  }

  function HandleAll(s: Interceptor, es: seq<Packet>, script: Script): Interceptor
    decreases |es|
  {
    if es == [] then s else
    HandleAll(Handle(s, es[0], script), es[1..], script)
  }

  // ----- The code -----

  class VendorInterface {
    var cb: Option<nat>
    var opcode: u16
    var sent: seq<Command>
    var routed: seq<Route>

    function View(): Interceptor
      reads this
    {
      Interceptor(cb, opcode, sent, routed)
    }

    /** transmit_cb. */
    method TransmitCb(newOpcode: u16, callback: Option<nat>)
      modifies this
      ensures View() == Transmit(old(View()), Command(newOpcode, callback))
    {
      cb := callback;
      opcode := newOpcode;
      sent := sent + [Command(newOpcode, callback)];
    }

    /** internal_command_event_match. */
    method EventMatch(packet: Packet) returns (matches: bool)
      requires WellFormed(packet)
      ensures matches == Completes(packet, opcode)
    {
      var eventCode := packet[0];
      if eventCode != COMMAND_COMPLETE { return false; }
      var offset := EVENT_HEADER + 1;
      return FromTwo(packet[offset], packet[offset + 1]) == opcode;
    }

    /** HandleIncomingEvent: the callback is cleared before it runs, because it may send the next command. */
    method HandleIncomingEvent(packet: Packet, script: Script)
      requires WellFormed(packet)
      modifies this
      ensures View() == Handle(old(View()), packet, script)
    {
      var matches := false;
      if cb != None { matches := EventMatch(packet); }
      if cb != None && matches {
        var saved := cb.value;
        cb := None;
        routed := routed + [ToCallback(saved, packet)];
        ghost var cleared := View();
        var commands := script(saved, packet);
        for i := 0 to |commands|
          invariant View() == TransmitAll(cleared, commands[..i])
        {
          TransmitCb(commands[i].opcode, commands[i].callback);
          assert commands[..i + 1][..i] == commands[..i];
        }
        assert commands[..|commands|] == commands;
      } else {
        routed := routed + [ToStack(packet)];
      }
    }
  }

  // ----- Routing -----

  function Packets(routed: seq<Route>): seq<Packet> {
    seq(|routed|, i requires 0 <= i < |routed| => routed[i].packet)
  }

  function Forwarded(es: seq<Packet>): seq<Route> {
    seq(|es|, i requires 0 <= i < |es| => ToStack(es[i]))
  }

  lemma {:induction false} TransmitAllEffect(s: Interceptor, cs: seq<Command>)
    ensures TransmitAll(s, cs) == s.(
      callback := if cs == [] then s.callback else cs[|cs| - 1].callback,
      opcode := if cs == [] then s.opcode else cs[|cs| - 1].opcode,
      sent := s.sent + cs)
  {
    if cs != [] {
      TransmitAllEffect(s, cs[..|cs| - 1]);
      assert s.sent + cs == s.sent + cs[..|cs| - 1] + [cs[|cs| - 1]];
    }
  }

  /** Every event is routed exactly once and in order, to a callback or unchanged to the stack. */
  lemma {:induction false} EveryEventRouted(s: Interceptor, es: seq<Packet>, script: Script)
    ensures Packets(HandleAll(s, es, script).routed) == Packets(s.routed) + es
    decreases |es|
  {
    if es != [] {
      var t := Handle(s, es[0], script);
      if s.callback.Some? && Completes(es[0], s.opcode) {
        TransmitAllEffect(s.(callback := None, routed := s.routed + [ToCallback(s.callback.value, es[0])]),
                          script(s.callback.value, es[0]));
      }
      assert Packets(t.routed) == Packets(s.routed) + [es[0]];
      EveryEventRouted(t, es[1..], script);
      assert Packets(s.routed) + [es[0]] + es[1..] == Packets(s.routed) + es;
    } else {
      assert Packets(s.routed) + es == Packets(s.routed);
    }
  }

  predicate NoneCompletes(es: seq<Packet>, opcode: u16) {
    forall e | e in es :: !Completes(e, opcode)
  }

  /** While nothing completes the pending command, or none is pending, every event goes to the stack unchanged. */
  lemma {:induction false} AllForwarded(s: Interceptor, es: seq<Packet>, script: Script)
    requires s.callback.Some? ==> NoneCompletes(es, s.opcode)
    ensures HandleAll(s, es, script) == s.(routed := s.routed + Forwarded(es))
    decreases |es|
  {
    if es != [] {
      AllForwarded(Handle(s, es[0], script), es[1..], script);
      assert s.routed + [ToStack(es[0])] + Forwarded(es[1..]) == s.routed + Forwarded(es);
    } else {
      assert s.routed + Forwarded(es) == s.routed;
    }
  }

  lemma {:induction false} HandleAllSplits(s: Interceptor, a: seq<Packet>, b: seq<Packet>, script: Script)
    ensures HandleAll(s, a + b, script) == HandleAll(HandleAll(s, a, script), b, script)
    decreases |a|
  {
    if a == [] {
      assert a + b == b;
    } else {
      assert (a + b)[0] == a[0] && (a + b)[1..] == a[1..] + b;
      HandleAllSplits(Handle(s, a[0], script), a[1..], b, script);
    }
  }

  /** The pending callback runs on the first event that completes its command, and on no earlier one; what it
      sends last is pending afterwards. */
  lemma RunsOnFirstMatch(s: Interceptor, front: seq<Packet>, e: Packet, script: Script)
    requires s.callback.Some? && NoneCompletes(front, s.opcode) && Completes(e, s.opcode)
    ensures var t, cs := HandleAll(s, front + [e], script), script(s.callback.value, e);
      && t.routed == s.routed + Forwarded(front) + [ToCallback(s.callback.value, e)]
      && t.sent == s.sent + cs
      && t.callback == (if cs == [] then None else cs[|cs| - 1].callback)
      && (cs != [] ==> t.opcode == cs[|cs| - 1].opcode)
  {
    HandleAllSplits(s, front, [e], script);
    AllForwarded(s, front, script);
    var u := HandleAll(s, front, script);
    assert HandleAll(u, [e], script) == Handle(u, e, script);
    TransmitAllEffect(u.(callback := None, routed := u.routed + [ToCallback(s.callback.value, e)]),
                      script(s.callback.value, e));
  }

  // ----- Exactly once, in order -----

  /** The commands whose completion somebody waits for. */
  function Awaited(cs: seq<Command>): seq<Command> {
    if cs == [] then [] else
    Awaited(cs[..|cs| - 1]) + if cs[|cs| - 1].callback.Some? then [cs[|cs| - 1]] else []
  }

  function Ran(routed: seq<Route>): seq<Route> {
    if routed == [] then [] else
    Ran(routed[..|routed| - 1]) + if routed[|routed| - 1].ToCallback? then [routed[|routed| - 1]] else []
  }

  /** The i-th callback run is that of the i-th awaited command, on an event completing it; at most the last
      awaited command has not run, and it is the pending one. */
  ghost predicate Paired(awaited: seq<Command>, ran: seq<Route>, callback: Option<nat>, opcode: u16) {
    && |awaited| == |ran| + (if callback.Some? then 1 else 0)
    && (forall i | 0 <= i < |ran| ::
          ran[i].ToCallback? && awaited[i].callback == Some(ran[i].callback)
              && Completes(ran[i].packet, awaited[i].opcode))
    && (callback.Some? ==> awaited[|ran|] == Command(opcode, callback))
  }

  /** Callbacks have run once each, in the order of their commands, and none is lost. */
  ghost predicate InOrder(s: Interceptor) {
    Paired(Awaited(s.sent), Ran(s.routed), s.callback, s.opcode)
  }

  /** Only the last command a callback sends may be awaited. */
  predicate OneAtATime(cs: seq<Command>) {
    forall i | 0 <= i < |cs| - 1 :: cs[i].callback == None
  }

  lemma {:induction false} AwaitedAppend(a: seq<Command>, b: seq<Command>)
    ensures Awaited(a + b) == Awaited(a) + Awaited(b)
    decreases |b|
  {
    if b == [] {
      assert a + b == a;
    } else {
      assert (a + b)[..|a + b| - 1] == a + b[..|b| - 1];
      AwaitedAppend(a, b[..|b| - 1]);
    }
  }

  lemma {:induction false} AwaitedOne(cs: seq<Command>)
    ensures Awaited(cs) == (if cs != [] && cs[|cs| - 1].callback.Some? then [cs[|cs| - 1]] else [])
       <==> OneAtATime(cs)
    ensures |Awaited(cs)| == (if cs != [] && cs[|cs| - 1].callback.Some? then 1 else 0) <==> OneAtATime(cs)
  {
    if cs != [] {
      var front := cs[..|cs| - 1];
      AwaitedOne(front);
      if OneAtATime(cs) { assert OneAtATime(front) && (front != [] ==> front[|front| - 1] == cs[|cs| - 2]); }
      if Awaited(front) == [] {
        forall i | 0 <= i < |cs| - 1 ensures cs[i].callback == None { assert front[i] == cs[i]; NoneAwaited(front, i); }
      }
    }
  }

  lemma {:induction false} NoneAwaited(cs: seq<Command>, i: nat)
    requires Awaited(cs) == [] && i < |cs|
    ensures cs[i].callback == None
  {
    if i < |cs| - 1 { NoneAwaited(cs[..|cs| - 1], i); }
  }

  /** One event keeps the order exactly when the callback it runs, if any, awaits at most its last command. */
  lemma HandleInOrder(s: Interceptor, e: Packet, script: Script)
    requires InOrder(s)
    ensures InOrder(Handle(s, e, script))
       <==> (s.callback.Some? && Completes(e, s.opcode) ==> OneAtATime(script(s.callback.value, e)))
  {
    hide Ran, Awaited, OneAtATime, Completes;
    if s.callback.Some? && Completes(e, s.opcode) {
      var cs := script(s.callback.value, e);
      var route := ToCallback(s.callback.value, e);
      TransmitAllEffect(s.(callback := None, routed := s.routed + [route]), cs);
      RanAppend(s.routed, route);
      AwaitedAppend(s.sent, cs);
      AwaitedOne(cs);
      CompletionInOrder(s, e, cs, Awaited(s.sent), Awaited(cs), Ran(s.routed));
    } else {
      RanAppend(s.routed, ToStack(e));
    }
  }

  lemma RanAppend(routed: seq<Route>, r: Route)
    ensures Ran(routed + [r]) == if r.ToCallback? then Ran(routed) + [r] else Ran(routed)
  {
    assert (routed + [r])[..|routed|] == routed;
  }

  lemma CompletionInOrder(s: Interceptor, e: Packet, cs: seq<Command>, awaited: seq<Command>, more: seq<Command>,
                          ran: seq<Route>)
    requires s.callback.Some? && Completes(e, s.opcode) && Paired(awaited, ran, s.callback, s.opcode)
    requires var last := if cs != [] && cs[|cs| - 1].callback.Some? then [cs[|cs| - 1]] else [];
      (more == last <==> OneAtATime(cs)) && (|more| == |last| <==> OneAtATime(cs))
    ensures Paired(awaited + more, ran + [ToCallback(s.callback.value, e)],
                   if cs == [] then None else cs[|cs| - 1].callback, if cs == [] then s.opcode else cs[|cs| - 1].opcode)
       <==> OneAtATime(cs)
  {
    hide Completes, OneAtATime;
    var all, runs := awaited + more, ran + [ToCallback(s.callback.value, e)];
    assert forall i | 0 <= i < |awaited| :: all[i] == awaited[i];
    assert forall i | 0 <= i < |ran| :: runs[i] == ran[i];
  }

  /** For every event stream and every script that awaits one command at a time, callbacks run once each and in
      the order of their commands, and none is lost. */
  lemma {:induction false} CallbacksRunInOrder(s: Interceptor, es: seq<Packet>, script: Script)
    requires InOrder(s) && forall c, p :: OneAtATime(script(c, p))
    ensures InOrder(HandleAll(s, es, script))
    decreases |es|
  {
    if es != [] {
      HandleInOrder(s, es[0], script);
      CallbacksRunInOrder(Handle(s, es[0], script), es[1..], script);
    }
  }
}
