/** The USB mode switch: binder threads in switchRole and switchMode, and the uevent thread, as an interleaving of
    steps over two mutexes, a flag and a condition variable. */
module UsbModeSwitch {
  import opened Wrappers

  type Port = nat
  /** What is written to a port_type node; DUAL is the text "dual". */
  type Value = nat
  const DUAL: Value := 0

  datatype Who = Uevent | Binder(i: nat)

  /** Where a binder thread stands: the statement it executes next. */
  datatype Pc =
    | Idle
    | LockRole(port: Port, value: Value, mode: bool)  // pthread_mutex_lock(&mRoleSwitchLock)
    | OtherRole                                       // a power or data role: other nodes only
    | OpenNode(port: Port, value: Value)              // fopen
    | LockPartner(port: Port, value: Value)           // pthread_mutex_lock(&mPartnerLock)
    | ResetFlag(port: Port, value: Value)             // mPartnerUp = false
    | WriteNode(port: Port, value: Value)             // fputs and fclose
    | Waiting(port: Port)                             // inside pthread_cond_timedwait
    | Relock(port: Port, timedOut: bool)              // its end: the mutex is taken again
    | Woken(port: Port, timedOut: bool)               // the three-way test
    | UnlockPartner(port: Port, switched: bool)
    | ToDual(port: Port, switched: bool)              // switchToDrp
    | Notify(mode: bool, switched: bool)              // the callback, or none
    | UnlockRole

  /** Where the uevent thread stands. */
  datatype UPc =
    | NextMessage
    | PartnerAdded                // pthread_mutex_lock(&mPartnerLock)
    | SetFlag                     // mPartnerUp = true and the signal
    | UnlockFlag
    | TryRole(free: seq<Port>)    // pthread_mutex_trylock(&mRoleSwitchLock); free: the disconnected ports
    | ResetPorts(free: seq<Port>) // the loop, and the unlock behind it

  /** The history. Writes are those to port_type nodes. */
  datatype Entry =
    | Acquire(who: Who)
    | Release(who: Who)
    | WriteRole(who: Who, port: Port, value: Value)
    | WriteDual(who: Who, port: Port)
    | FlagReset(who: Who)
    | Asked(who: Who, port: Port, value: Value, mode: bool)
    | OpenFailed(who: Who)
    | WriteFailed(who: Who)
    | WaitEnded(who: Who, timedOut: bool)
    | Added
    | Notified(who: Who, switched: bool)

  /** What all threads share. drpFailed: some switchToDrp could not write. */
  datatype Usb = Usb(
    roleLock: Option<Who>, partnerLock: Option<Who>, partnerUp: bool, nodes: map<Port, Value>, drpFailed: bool,
    log: seq<Entry>)

  datatype State = State(threads: seq<Pc>, uevent: UPc, usb: Usb)

  /** What a step leaves open: whether the file operation works, whether a wait ends by timeout, what a thread is
      asked to do and what message comes. */
  datatype Choice = Choice(works: bool, timedOut: bool, port: Port, value: Value, mode: bool, added: bool,
                           free: seq<Port>)

  function Node(u: Usb, port: Port): Value {
    if port in u.nodes then u.nodes[port] else DUAL
  }

  function Log(u: Usb, e: Entry): Usb {
    u.(log := u.log + [e])
  }

  function SwitchToDrp(u: Usb, who: Who, port: Port, works: bool): Usb {
    if works then Log(u, WriteDual(who, port)).(nodes := u.nodes[port := DUAL]) else u.(drpFailed := true)
  }

  /** One statement of a binder thread. A thread that wants a taken mutex stays where it is; a wait may end at any
      time, with or without a signal. */
  function Statement(pc: Pc, u: Usb, me: Who, c: Choice): (Pc, Usb) {
    match pc
    case Idle => (LockRole(c.port, c.value, c.mode), Log(u, Asked(me, c.port, c.value, c.mode)))
    case LockRole(port, value, mode) =>
      if u.roleLock.Some? then (pc, u)
      else (if mode then OpenNode(port, value) else OtherRole, Log(u, Acquire(me)).(roleLock := Some(me)))
    case OtherRole => (Notify(false, c.works), u)
    case OpenNode(port, value) =>
      if c.works then (LockPartner(port, value), u) else (ToDual(port, false), Log(u, OpenFailed(me)))
    case LockPartner(port, value) =>
      if u.partnerLock.Some? then (pc, u) else (ResetFlag(port, value), u.(partnerLock := Some(me)))
    case ResetFlag(port, value) => (WriteNode(port, value), Log(u, FlagReset(me)).(partnerUp := false))
    case WriteNode(port, value) =>
      if c.works then (Waiting(port), Log(u, WriteRole(me, port, value)).(nodes := u.nodes[port := value],
          partnerLock := None))
      else (UnlockPartner(port, false), Log(u, WriteFailed(me)))
    case Waiting(port) => (Relock(port, c.timedOut), u)
    case Relock(port, timedOut) =>
      if u.partnerLock.Some? then (pc, u) else (Woken(port, timedOut), u.(partnerLock := Some(me)))
    case Woken(port, timedOut) =>
      var woken := Log(u, WaitEnded(me, timedOut));
      if timedOut then (UnlockPartner(port, false), woken)
      else if !u.partnerUp then (Waiting(port), woken.(partnerLock := None))
      else (UnlockPartner(port, true), woken)
    case UnlockPartner(port, switched) => (ToDual(port, switched), u.(partnerLock := None))
    case ToDual(port, switched) => (Notify(true, switched), SwitchToDrp(u, me, port, c.works))
    case Notify(mode, switched) => (UnlockRole, if mode then Log(u, Notified(me, switched)) else u)
    case UnlockRole => (Idle, Log(u, Release(me)).(roleLock := None))
  }

  /** One statement of the uevent thread. */
  function UeventStatement(pc: UPc, u: Usb, c: Choice): (UPc, Usb) {
    match pc
    case NextMessage => (if c.added then PartnerAdded else TryRole(c.free), u)
    case PartnerAdded => if u.partnerLock.Some? then (pc, u) else (SetFlag, u.(partnerLock := Some(Uevent)))
    case SetFlag => (UnlockFlag, Log(u, Added).(partnerUp := true))
    case UnlockFlag => (NextMessage, u.(partnerLock := None))
    case TryRole(free) =>
      if u.roleLock.Some? then (NextMessage, u)
      else (ResetPorts(free), Log(u, Acquire(Uevent)).(roleLock := Some(Uevent)))
    case ResetPorts(free) =>
      if free == [] then (NextMessage, Log(u, Release(Uevent)).(roleLock := None))
      else (ResetPorts(free[1..]), SwitchToDrp(u, Uevent, free[0], c.works))
  }

  predicate IsThread(n: nat, who: Who) {
    who.Binder? ==> who.i < n
  }

  function Step(s: State, who: Who, c: Choice): State
    requires IsThread(|s.threads|, who)
  {
    match who
    case Uevent => var r := UeventStatement(s.uevent, s.usb, c); s.(uevent := r.0, usb := r.1)
    case Binder(i) => var r := Statement(s.threads[i], s.usb, who, c); s.(threads := s.threads[i := r.0], usb := r.1)
  }

  type Schedule = seq<(Who, Choice)>

  predicate Schedules(n: nat, sched: Schedule) {
    forall k | 0 <= k < |sched| :: IsThread(n, sched[k].0)
  }

  /** Whatever the port_type nodes say at the start. */
  function Start(n: nat, nodes: map<Port, Value>): State {
    State(seq(n, i => Idle), NextMessage, Usb(None, None, false, nodes, false, []))
  }

  function Run(n: nat, nodes: map<Port, Value>, sched: Schedule): (s: State)
    requires Schedules(n, sched)
    ensures |s.threads| == n
    decreases |sched|
  {
    if sched == [] then Start(n, nodes) else
    var last := |sched| - 1;
    assert Schedules(n, sched[..last]);
    Step(Run(n, nodes, sched[..last]), sched[last].0, sched[last].1)
  }

  // ----- What a history says -----

  /** Who is between acquiring and releasing mRoleSwitchLock at the end of a history. */
  function Holder(log: seq<Entry>): Option<Who> {
    if log == [] then None else
    match log[|log| - 1]
    case Acquire(who) => Some(who)
    case Release(_) => None
    case _ => Holder(log[..|log| - 1])
  }

  datatype Stage = NotBegun | FlagCleared | RoleWritten | PartnerSeen

  /** How far a thread's latest mode switch has come: its own reset, then its own write, then a partner event. */
  function Progress(log: seq<Entry>, who: Who): Stage {
    if log == [] then NotBegun else
    var before, e := Progress(log[..|log| - 1], who), log[|log| - 1];
    if e == FlagReset(who) then FlagCleared
    else if e.WriteRole? && e.who == who && before == FlagCleared then RoleWritten
    else if e.Added? && before == RoleWritten then PartnerSeen
    else before
  }

  /** Every write to a port_type node is made by the thread that holds mRoleSwitchLock, and the lock is only
      acquired when nobody holds it. */
  predicate GuardedWrites(log: seq<Entry>) {
    forall k | 0 <= k < |log| ::
      var h := Holder(log[..k]);
      && (log[k].WriteRole? ==> h == Some(log[k].who))
      && (log[k].WriteDual? ==> h == Some(log[k].who))
      && (log[k].Acquire? ==> h == None)
      && (log[k].Release? ==> h == Some(log[k].who))
  }

  /** A mode switch reports success only after a partner event that came behind its own reset and write. */
  predicate HonestReturns(log: seq<Entry>) {
    forall k | 0 <= k < |log| && log[k].Notified? && log[k].switched ::
      Progress(log[..k], log[k].who) == PartnerSeen
  }

  /** What a thread's mode switch has come to since it was asked: a failed open, a failed write or a timeout is a
      failure, a wait that ends otherwise is a success when the partner has been seen, and else it is still open. */
  function Verdict(log: seq<Entry>, who: Who): Option<bool> {
    if log == [] then None else
    var before, e := log[..|log| - 1], log[|log| - 1];
    if e.Asked? && e.who == who then None
    else if e == OpenFailed(who) || e == WriteFailed(who) || e == WaitEnded(who, true) then Some(false)
    else if e == WaitEnded(who, false) then if Progress(before, who) == PartnerSeen then Some(true) else None
    else Verdict(before, who)
  }

  /** What a thread was asked last. */
  function Request(log: seq<Entry>, who: Who): (r: Option<Entry>)
    ensures r.Some? ==> r.value.Asked?
  {
    if log == [] then None
    else if log[|log| - 1].Asked? && log[|log| - 1].who == who then Some(log[|log| - 1])
    else Request(log[..|log| - 1], who)
  }

  /** The entry does what was asked: a mode switch writes the asked role and the dual text to the asked port and
      reports its verdict; no other request writes or reports here. */
  predicate AsAsked(log: seq<Entry>, e: Entry) {
    match e
    case WriteRole(who, port, value) => Request(log, who) == Some(Asked(who, port, value, true))
    case WriteDual(who, port) =>
      who.Binder? ==> Request(log, who).Some? && Request(log, who).value.port == port && Request(log, who).value.mode
    case Notified(who, switched) =>
      Request(log, who).Some? && Request(log, who).value.mode && Verdict(log, who) == Some(switched)
    case _ => true
  }

  predicate Truthful(log: seq<Entry>) {
    forall k | 0 <= k < |log| :: AsAsked(log[..k], log[k])
  }

  // ----- The invariant -----

  predicate HasRole(pc: Pc) {
    !pc.Idle? && !pc.LockRole?
  }

  predicate HasPartner(pc: Pc) {
    pc.ResetFlag? || pc.WriteNode? || pc.Woken? || pc.UnlockPartner?
  }

  /** The node a mode switch may have left in another state. */
  predicate Touches(pc: Pc, port: Port) {
    (pc.Waiting? || pc.Relock? || pc.Woken? || pc.UnlockPartner? || pc.ToDual?) && pc.port == port
  }

  /** A binder thread holds exactly the mutexes of its position, and its position vouches for its progress. */
  predicate BinderOk(pc: Pc, u: Usb, me: Who) {
    var p := Progress(u.log, me);
    && (HasRole(pc) <==> u.roleLock == Some(me))
    && (HasPartner(pc) <==> u.partnerLock == Some(me))
    && (pc.WriteNode? ==> p == FlagCleared && !u.partnerUp)
    && (pc.Waiting? || pc.Relock? || pc.Woken? ==> p == if u.partnerUp then PartnerSeen else RoleWritten)
    && ((pc.UnlockPartner? || pc.ToDual? || (pc.Notify? && pc.mode)) && pc.switched ==> p == PartnerSeen)
  }

  /** A binder thread works on what it was asked, and what it will report is the verdict so far. */
  predicate BinderAsked(pc: Pc, log: seq<Entry>, me: Who) {
    var asked, verdict := Request(log, me), Verdict(log, me);
    match pc
    case Idle => true
    case LockRole(port, value, mode) => asked == Some(Asked(me, port, value, mode)) && verdict == None
    case OtherRole => true
    case OpenNode(port, value) => asked == Some(Asked(me, port, value, true)) && verdict == None
    case LockPartner(port, value) => asked == Some(Asked(me, port, value, true)) && verdict == None
    case ResetFlag(port, value) => asked == Some(Asked(me, port, value, true)) && verdict == None
    case WriteNode(port, value) => asked == Some(Asked(me, port, value, true)) && verdict == None
    case Waiting(port) => OnPort(asked, port) && verdict == None
    case Relock(port, _) => OnPort(asked, port) && verdict == None
    case Woken(port, _) => OnPort(asked, port) && verdict == None
    case UnlockPartner(port, switched) => OnPort(asked, port) && verdict == Some(switched)
    case ToDual(port, switched) => OnPort(asked, port) && verdict == Some(switched)
    case Notify(mode, switched) =>
      mode ==> asked.Some? && asked.value.Asked? && asked.value.mode && verdict == Some(switched)
    case UnlockRole => true
  }

  predicate OnPort(asked: Option<Entry>, port: Port) {
    asked.Some? && asked.value.Asked? && asked.value.port == port && asked.value.mode
  }

  predicate UeventOk(pc: UPc, u: Usb) {
    && (pc.ResetPorts? <==> u.roleLock == Some(Uevent))
    && (pc.SetFlag? || pc.UnlockFlag? <==> u.partnerLock == Some(Uevent))
  }

  predicate Threads(s: State) {
    && UeventOk(s.uevent, s.usb)
    && (forall i | 0 <= i < |s.threads| :: BinderOk(s.threads[i], s.usb, Binder(i)))
    && forall i | 0 <= i < |s.threads| :: BinderAsked(s.threads[i], s.usb.log, Binder(i))
  }

  predicate History(u: Usb) {
    u.roleLock == Holder(u.log) && GuardedWrites(u.log) && HonestReturns(u.log) && Truthful(u.log)
  }

  predicate RoleWrittenTo(log: seq<Entry>, port: Port) {
    exists k :: 0 <= k < |log| && log[k].WriteRole? && log[k].port == port
  }

  /** Whenever no mode switch is at work on it, a port_type node that some switch has written says dual, unless
      writing that failed before. */
  ghost predicate Ports(s: State) {
    !s.usb.drpFailed ==> forall port | RoleWrittenTo(s.usb.log, port) && Node(s.usb, port) != DUAL ::
      exists i :: 0 <= i < |s.threads| && Touches(s.threads[i], port)
  }

  ghost predicate Safe(s: State) {
    Threads(s) && History(s.usb) && Ports(s)
  }

  lemma Appended(log: seq<Entry>, e: Entry)
    requires GuardedWrites(log) && HonestReturns(log) && Truthful(log) && AsAsked(log, e)
    requires e.WriteRole? || e.WriteDual? || e.Release? ==> Holder(log) == Some(e.who)
    requires e.Acquire? ==> Holder(log) == None
    requires e.Notified? && e.switched ==> Progress(log, e.who) == PartnerSeen
    ensures GuardedWrites(log + [e]) && HonestReturns(log + [e]) && Truthful(log + [e])
    ensures Holder(log + [e]) == match e
      case Acquire(who) => Some(who)
      case Release(_) => None
      case _ => Holder(log)
  {
    hide Progress, Request, Verdict, AsAsked;
    var more := log + [e];
    assert more[..|log|] == log;
    forall k | 0 <= k < |log| ensures more[..k] == log[..k] {}
  }

  lemma ProgressAppended(log: seq<Entry>, e: Entry, who: Who)
    ensures Progress(log + [e], who) ==
      if e == FlagReset(who) then FlagCleared
      else if e.WriteRole? && e.who == who && Progress(log, who) == FlagCleared then RoleWritten
      else if e.Added? && Progress(log, who) == RoleWritten then PartnerSeen
      else Progress(log, who)
  {
    assert (log + [e])[..|log|] == log;
  }

  lemma VerdictAppended(log: seq<Entry>, e: Entry, who: Who)
    ensures Verdict(log + [e], who) ==
      if e.Asked? && e.who == who then None
      else if e == OpenFailed(who) || e == WriteFailed(who) || e == WaitEnded(who, true) then Some(false)
      else if e == WaitEnded(who, false) then if Progress(log, who) == PartnerSeen then Some(true) else None
      else Verdict(log, who)
    ensures Request(log + [e], who) == if e.Asked? && e.who == who then Some(e) else Request(log, who)
  {
    assert (log + [e])[..|log|] == log;
  }

  lemma OwnAsked(pc: Pc, u: Usb, me: Who, c: Choice)
    requires BinderOk(pc, u, me) && BinderAsked(pc, u.log, me)
    ensures var r := Statement(pc, u, me, c); BinderAsked(r.0, r.1.log, me)
  {
    hide Progress, Verdict, Request;
    var v := Statement(pc, u, me, c).1;
    if v.log != u.log { VerdictAppended(u.log, v.log[|u.log|], me); }
  }

  lemma OtherAsked(pc: Pc, u: Usb, me: Who, c: Choice, other: Pc, who: Who)
    requires BinderAsked(other, u.log, who) && who != me
    ensures BinderAsked(other, Statement(pc, u, me, c).1.log, who)
  {
    hide Statement, Progress, Verdict, Request;
    OthersStatement(pc, u, me, c, who);
  }

  /** A statement of one thread says nothing about the requests and results of another. */
  lemma OthersStatement(pc: Pc, u: Usb, me: Who, c: Choice, who: Who)
    requires who != me
    ensures var log := Statement(pc, u, me, c).1.log;
            Verdict(log, who) == Verdict(u.log, who) && Request(log, who) == Request(u.log, who)
  {
    hide Progress, Verdict, Request;
    var v := Statement(pc, u, me, c).1;
    if v.log != u.log { VerdictAppended(u.log, v.log[|u.log|], who); }
  }

  lemma AskedKeptByUevent(pc: UPc, u: Usb, c: Choice, other: Pc, who: Who)
    requires BinderAsked(other, u.log, who) && who != Uevent
    ensures BinderAsked(other, UeventStatement(pc, u, c).1.log, who)
  {
    hide Progress, Verdict, Request;
    var v := UeventStatement(pc, u, c).1;
    if v.log != u.log { VerdictAppended(u.log, v.log[|u.log|], who); }
  }

  // Each statement keeps the condition of its own thread, of every other thread and of the uevent thread.

  lemma OwnKept(pc: Pc, u: Usb, me: Who, c: Choice)
    requires BinderOk(pc, u, me)
    ensures var r := Statement(pc, u, me, c); BinderOk(r.0, r.1, me)
  {
    hide Progress;
    var v := Statement(pc, u, me, c).1;
    if v.log != u.log { ProgressAppended(u.log, v.log[|u.log|], me); }
  }

  lemma OtherKept(pc: Pc, u: Usb, me: Who, c: Choice, other: Pc, who: Who)
    requires BinderOk(pc, u, me) && BinderOk(other, u, who) && who != me
    ensures BinderOk(other, Statement(pc, u, me, c).1, who)
  {
    hide Progress;
    var v := Statement(pc, u, me, c).1;
    if v.log != u.log { ProgressAppended(u.log, v.log[|u.log|], who); }
  }

  lemma UeventKept(pc: Pc, u: Usb, me: Who, c: Choice, other: UPc)
    requires BinderOk(pc, u, me) && UeventOk(other, u) && me != Uevent
    ensures UeventOk(other, Statement(pc, u, me, c).1)
  {
  }

  lemma OwnUeventKept(pc: UPc, u: Usb, c: Choice)
    requires UeventOk(pc, u)
    ensures var r := UeventStatement(pc, u, c); UeventOk(r.0, r.1)
  {
  }

  lemma BinderKept(pc: UPc, u: Usb, c: Choice, other: Pc, who: Who)
    requires UeventOk(pc, u) && BinderOk(other, u, who) && who != Uevent
    ensures BinderOk(other, UeventStatement(pc, u, c).1, who)
  {
    hide Progress;
    var v := UeventStatement(pc, u, c).1;
    if v.log != u.log { ProgressAppended(u.log, v.log[|u.log|], who); }
  }

  lemma HistoryKept(pc: Pc, u: Usb, me: Who, c: Choice)
    requires BinderOk(pc, u, me) && BinderAsked(pc, u.log, me) && History(u) && me != Uevent
    ensures History(Statement(pc, u, me, c).1)
  {
    hide Progress, Holder, GuardedWrites, HonestReturns, Truthful, Verdict, Request;
    var v := Statement(pc, u, me, c).1;
    if v.log != u.log { Appended(u.log, v.log[|u.log|]); }
  }

  lemma HistoryKeptByUevent(pc: UPc, u: Usb, c: Choice)
    requires UeventOk(pc, u) && History(u)
    ensures History(UeventStatement(pc, u, c).1)
  {
    hide Progress, Holder, GuardedWrites, HonestReturns, Truthful, Verdict, Request;
    var v := UeventStatement(pc, u, c).1;
    if v.log != u.log { Appended(u.log, v.log[|u.log|]); }
  }

  /** A node that a statement leaves in another state is one its thread is at work on. */
  lemma NodeKept(pc: Pc, u: Usb, me: Who, c: Choice, port: Port)
    ensures var r := Statement(pc, u, me, c);
      && (u.drpFailed ==> r.1.drpFailed)
      && (!r.1.drpFailed && Node(r.1, port) != DUAL && RoleWrittenTo(r.1.log, port) ==>
            Touches(r.0, port) || (Node(u, port) != DUAL && RoleWrittenTo(u.log, port) && !Touches(pc, port)))
  {
    var v := Statement(pc, u, me, c).1;
    if RoleWrittenTo(v.log, port) && v.log != u.log && !(pc.WriteNode? && pc.port == port) {
      RoleWrittenBefore(u.log, v.log[|u.log|], port);
    }
  }

  lemma RoleWrittenBefore(log: seq<Entry>, e: Entry, port: Port)
    requires RoleWrittenTo(log + [e], port) && !(e.WriteRole? && e.port == port)
    ensures RoleWrittenTo(log, port)
  {
    var k :| 0 <= k < |log + [e]| && (log + [e])[k].WriteRole? && (log + [e])[k].port == port;
    assert k < |log| && log[k] == (log + [e])[k];
  }

  lemma PortsKept(s: State, i: nat, c: Choice)
    requires Ports(s) && i < |s.threads|
    ensures Ports(Step(s, Binder(i), c))
  {
    hide Statement, Touches, Node;
    var t := Step(s, Binder(i), c);
    forall port | !t.usb.drpFailed && RoleWrittenTo(t.usb.log, port) && Node(t.usb, port) != DUAL
      ensures exists j :: 0 <= j < |t.threads| && Touches(t.threads[j], port)
    {
      NodeKept(s.threads[i], s.usb, Binder(i), c, port);
      if !Touches(t.threads[i], port) {
        var j :| 0 <= j < |s.threads| && Touches(s.threads[j], port);
        assert t.threads[j] == s.threads[j];
      }
    }
  }

  /** Every step of every thread keeps the invariant. */
  lemma StepSafe(s: State, who: Who, c: Choice)
    requires Safe(s) && IsThread(|s.threads|, who)
    ensures Safe(Step(s, who, c))
  {
    hide BinderOk, BinderAsked, UeventOk, Statement, UeventStatement, History;
    var t := Step(s, who, c);
    if who == Uevent {
      OwnUeventKept(s.uevent, s.usb, c);
      forall j | 0 <= j < |s.threads| ensures BinderOk(t.threads[j], t.usb, Binder(j)) {
        BinderKept(s.uevent, s.usb, c, s.threads[j], Binder(j));
      }
      forall j | 0 <= j < |s.threads| ensures BinderAsked(t.threads[j], t.usb.log, Binder(j)) {
        AskedKeptByUevent(s.uevent, s.usb, c, s.threads[j], Binder(j));
      }
      HistoryKeptByUevent(s.uevent, s.usb, c);
      NodesKeptByUevent(s, c);
    } else {
      var i := who.i;
      OwnKept(s.threads[i], s.usb, who, c);
      UeventKept(s.threads[i], s.usb, who, c, s.uevent);
      forall j | 0 <= j < |s.threads| ensures BinderOk(t.threads[j], t.usb, Binder(j)) {
        if j != i { OtherKept(s.threads[i], s.usb, who, c, s.threads[j], Binder(j)); }
      }
      OwnAsked(s.threads[i], s.usb, who, c);
      forall j | 0 <= j < |s.threads| ensures BinderAsked(t.threads[j], t.usb.log, Binder(j)) {
        if j != i { OtherAsked(s.threads[i], s.usb, who, c, s.threads[j], Binder(j)); }
      }
      HistoryKept(s.threads[i], s.usb, who, c);
      PortsKept(s, i, c);
    }
  }

  lemma NodesKeptByUevent(s: State, c: Choice)
    requires Ports(s)
    ensures Ports(Step(s, Uevent, c))
  {
    var t := Step(s, Uevent, c);
    forall port | !t.usb.drpFailed && RoleWrittenTo(t.usb.log, port) && Node(t.usb, port) != DUAL
      ensures RoleWrittenTo(s.usb.log, port) && Node(s.usb, port) != DUAL
    {
      if t.usb.log != s.usb.log { RoleWrittenBefore(s.usb.log, t.usb.log[|s.usb.log|], port); }
    }
    assert t.threads == s.threads;
  }

  lemma {:induction false} RunSafe(n: nat, nodes: map<Port, Value>, sched: Schedule)
    requires Schedules(n, sched)
    ensures Safe(Run(n, nodes, sched))
    decreases |sched|
  {
    if sched != [] {
      var last := |sched| - 1;
      assert Schedules(n, sched[..last]);
      RunSafe(n, nodes, sched[..last]);
      StepSafe(Run(n, nodes, sched[..last]), sched[last].0, sched[last].1);
    }
  }

  // ----- Main results -----

  /** In every interleaving, a mode switch that reports success has seen, in this order, its own reset of the flag,
      its own write of the role and a partner-added event. */
  lemma SuccessIsEarned(n: nat, nodes: map<Port, Value>, sched: Schedule, k: nat)
    returns (reset: nat, write: nat, added: nat)
    requires Schedules(n, sched)
    requires var log := Run(n, nodes, sched).usb.log; k < |log| && log[k].Notified? && log[k].switched
    ensures var log := Run(n, nodes, sched).usb.log;
      && reset < write < added < k
      && log[reset] == FlagReset(log[k].who) && log[write].WriteRole? && log[write].who == log[k].who && log[added]
          == Added
      && forall j | reset < j < k :: log[j] != FlagReset(log[k].who)
  {
    hide Run, Progress, GuardedWrites, Threads, Ports, Schedules;
    RunSafe(n, nodes, sched);
    var log := Run(n, nodes, sched).usb.log;
    reset, write, added := Milestones(log[..k], log[k].who);
  }

  /** In every interleaving a mode switch reports success exactly when, of all that happened to it since it was asked,
      the last thing to decide it was a wait that ended without a timeout after its own reset, its own write and a
      partner event. It reports failure exactly when that was a failed open, a failed write or a timeout. */
  lemma ReportIsVerdict(n: nat, nodes: map<Port, Value>, sched: Schedule, k: nat) returns (decided: nat)
    requires Schedules(n, sched)
    requires var log := Run(n, nodes, sched).usb.log; k < |log| && log[k].Notified?
    ensures var log := Run(n, nodes, sched).usb.log;
            var who := log[k].who;
      && decided < k && log[decided] in {OpenFailed(who), WriteFailed(who), WaitEnded(who, true), WaitEnded(who, false)}
      && (log[k].switched <==> log[decided] == WaitEnded(who, false))
      && (log[k].switched ==> Progress(log[..decided], who) == PartnerSeen)
      && forall j | decided < j < k :: !(log[j].Asked? && log[j].who == who)
  {
    hide Run, Progress, GuardedWrites, HonestReturns, Threads, Ports, Schedules, Verdict;
    RunSafe(n, nodes, sched);
    var log := Run(n, nodes, sched).usb.log;
    assert AsAsked(log[..k], log[k]);
    decided := Decision(log[..k], log[k].who);
    assert log[..k][..decided] == log[..decided];
  }

  /** The position behind a verdict. */
  lemma {:induction false} Decision(log: seq<Entry>, who: Who) returns (decided: nat)
    ensures Verdict(log, who).Some? ==>
      && decided < |log|
      && log[decided] in {OpenFailed(who), WriteFailed(who), WaitEnded(who, true), WaitEnded(who, false)}
      && (Verdict(log, who).value <==> log[decided] == WaitEnded(who, false))
      && (Verdict(log, who).value ==> Progress(log[..decided], who) == PartnerSeen)
      && forall j | decided < j < |log| :: !(log[j].Asked? && log[j].who == who)
  {
    hide Progress;
    decided := 0;
    if log != [] {
      var last := |log| - 1;
      var e := log[last];
      if e == OpenFailed(who) || e == WriteFailed(who) || e == WaitEnded(who, true) || e == WaitEnded(who, false) {
        decided := last;
      } else {
        decided := Decision(log[..last], who);
        if Verdict(log, who).Some? { assert log[..last][..decided] == log[..decided]; }
      }
    }
  }

  /** A mode switch writes the role it was asked to write to the port it was asked about, and no other request writes
      a port_type node. */
  lemma WritesAsAsked(n: nat, nodes: map<Port, Value>, sched: Schedule, k: nat)
    requires Schedules(n, sched)
    requires var log := Run(n, nodes, sched).usb.log; k < |log| && (log[k].WriteRole? || log[k].WriteDual?)
    ensures var log := Run(n, nodes, sched).usb.log;
            var e, asked := log[k], Request(log[..k], log[k].who);
      && (e.WriteRole? ==> asked == Some(Asked(e.who, e.port, e.value, true)))
      && (e.WriteDual? && e.who.Binder? ==> asked.Some? && asked.value.port == e.port && asked.value.mode)
  {
    hide Run, Progress, GuardedWrites, HonestReturns, Threads, Ports, Schedules, Verdict;
    RunSafe(n, nodes, sched);
    var log := Run(n, nodes, sched).usb.log;
    assert AsAsked(log[..k], log[k]);
  }

  /** The uevent thread alone, once it has the lock: it writes dual to every disconnected port and releases. */
  lemma {:induction false} ResetReaches(free: seq<Port>, u: Usb, c: Choice) returns (done: Usb)
    requires c.works && u.roleLock == Some(Uevent)
    ensures done.roleLock == None && |done.log| > 0 && done.log[|done.log| - 1] == Release(Uevent)
    ensures forall port :: Node(done, port) == if port in free then DUAL else Node(u, port)
    ensures done.drpFailed == u.drpFailed && done.partnerUp == u.partnerUp && done.partnerLock == u.partnerLock
    decreases |free|
  {
    var r := UeventStatement(ResetPorts(free), u, c);
    done := r.1;
    if free != [] {
      assert forall port :: Node(r.1, port) == if port == free[0] then DUAL else Node(u, port);
      done := ResetReaches(free[1..], r.1, c);
      assert forall port :: port in free <==> port == free[0] || port in free[1..];
    }
  }

  /** The positions behind a stage of progress. */
  lemma {:induction false} Milestones(log: seq<Entry>, who: Who) returns (reset: nat, write: nat, added: nat)
    ensures Progress(log, who) != NotBegun ==>
      reset < |log| && log[reset] == FlagReset(who) && forall j | reset < j < |log| :: log[j] != FlagReset(who)
    ensures Progress(log, who) in {RoleWritten, PartnerSeen} ==>
      reset < write < |log| && log[write].WriteRole? && log[write].who == who
    ensures Progress(log, who) == PartnerSeen ==> write < added < |log| && log[added] == Added
  {
    reset, write, added := 0, 0, 0;
    if log != [] {
      var last := |log| - 1;
      reset, write, added := Milestones(log[..last], who);
      var before := Progress(log[..last], who);
      if log[last] == FlagReset(who) { reset := last; }
      else if log[last].WriteRole? && log[last].who == who && before == FlagCleared { write := last; }
      else if log[last].Added? && before == RoleWritten { added := last; }
    }
  }

  /** In every interleaving, port_type is only written by the thread that holds mRoleSwitchLock, which is taken only
      when free and released only by its holder: the uevent thread's reset never falls into a switch. */
  lemma WritesAreGuarded(n: nat, nodes: map<Port, Value>, sched: Schedule, k: nat)
    requires Schedules(n, sched) && k < |Run(n, nodes, sched).usb.log|
    ensures var log := Run(n, nodes, sched).usb.log;
            var e, holder := log[k], Holder(log[..k]);
      && (e.WriteRole? || e.WriteDual? ==> holder == Some(e.who))
      && (e.Acquire? ==> holder == None)
      && (e.Release? ==> holder == Some(e.who))
  {
    RunSafe(n, nodes, sched);
  }

  /** While nobody holds mRoleSwitchLock, every port_type node that a mode switch ever wrote says dual again, unless
      writing that failed before. */
  lemma BackToDual(n: nat, nodes: map<Port, Value>, sched: Schedule, port: Port)
    requires Schedules(n, sched)
    requires var u := Run(n, nodes, sched).usb;
      u.roleLock == None && !u.drpFailed && RoleWrittenTo(u.log, port)
    ensures Node(Run(n, nodes, sched).usb, port) == DUAL
  {
    RunSafe(n, nodes, sched);
    var s := Run(n, nodes, sched);
    forall i | 0 <= i < |s.threads| ensures !Touches(s.threads[i], port) {
      assert BinderOk(s.threads[i], s.usb, Binder(i));
    }
  }
}
