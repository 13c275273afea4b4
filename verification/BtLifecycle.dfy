/** BluetoothHci::initialize, close and serviceDied as steps of any number of binder threads. */
module BtLifecycle {
  datatype HalState = READY | INITIALIZING | ONE_CLIENT | CLOSING

  type Client = nat

  /** Where a thread stands. Each constructor names the statement it executes next. */
  datatype Pc =
    | Idle
    | EnterInitialize(cb: Client)   // first lock region of initialize
    | CheckPrevious(cb: Client)     // VendorInterface::Initialize: is there an interface already?
    | Open(cb: Client)              // g_vendor_interface->Open
    | StoreClient(cb: Client)       // mCb = cb, under no lock
    | Publish(cb: Client)           // second lock region
    | EnterClose                    // first lock region of close
    | CheckInterface                // VendorInterface::Shutdown: the fatal null check
    | CloseInterface                // Close and delete
    | ClearInterface                // g_vendor_interface = nullptr
    | BackToReady                   // last lock region

  /** Calls into the vendor interface, in the order they are made. */
  datatype Call = Initialize(cb: Client) | Shutdown

  /** answers: what the vendor library answered to each Open, and for which client. */
  datatype State = State(
    threads: seq<Pc>, hal: HalState, interface: bool, cb: Client, calls: seq<Call>, answers: seq<(Client, bool)>,
    refused: bool,  // "No previous Shutdown()?" was reached
    fatal: bool)    // the fatal null check fired

  /** What a step leaves open: the operation an idle thread starts and whether opening succeeds. */
  datatype Choice = Choice(request: Request, succeeds: bool)
  datatype Request = RequestInitialize(cb: Client) | RequestClose

  function At(s: State, i: nat, pc: Pc): State
    requires i < |s.threads|
  {
    s.(threads := s.threads[i := pc])
  }

  /** One step of thread i. serviceDied is a close; an initialize that finds another state also closes. */
  function Step(s: State, i: nat, c: Choice): (t: State)
    requires i < |s.threads|
    ensures |t.threads| == |s.threads|
  {
    match s.threads[i]
    case Idle => At(s, i, if c.request.RequestClose? then EnterClose else EnterInitialize(c.request.cb))
    case EnterInitialize(cb) =>
      if s.hal == READY then At(s, i, CheckPrevious(cb)).(hal := INITIALIZING) else At(s, i, EnterClose)
    case CheckPrevious(cb) =>
      var called := s.(calls := s.calls + [Initialize(cb)]);
      if s.interface then At(called, i, CheckInterface).(refused := true)
      else At(called, i, Open(cb)).(interface := true)
    case Open(cb) =>
      At(s, i, if c.succeeds then StoreClient(cb) else CheckInterface).(answers := s.answers + [(cb, c.succeeds)])
    case StoreClient(cb) => At(s, i, Publish(cb)).(cb := cb)
    case Publish(cb) => At(s, i, Idle).(hal := ONE_CLIENT)
    case EnterClose =>
      if s.hal == ONE_CLIENT then At(s, i, CheckInterface).(hal := CLOSING) else At(s, i, Idle)
    case CheckInterface =>
      At(s, i, CloseInterface).(calls := s.calls + [Shutdown], fatal := s.fatal || !s.interface)
    case CloseInterface => At(s, i, ClearInterface)
    case ClearInterface => At(s, i, BackToReady).(interface := false)
    case BackToReady => At(s, i, Idle).(hal := READY)
  }

  function Start(n: nat): State {
    State(seq(n, i => Idle), READY, false, 0, [], [], false, false)
  }

  type Schedule = seq<(nat, Choice)>

  /** A schedule names existing threads; each entry lets one of them take a step. */
  predicate Schedules(n: nat, sched: Schedule) {
    forall k | 0 <= k < |sched| :: sched[k].0 < n
  }

  function Run(s: State, sched: Schedule): (r: State)
    requires Schedules(|s.threads|, sched)
    ensures |r.threads| == |s.threads|
    decreases |sched|
  {
    if sched == [] then s else
    var last := |sched| - 1;
    assert Schedules(|s.threads|, sched[..last]);
    Step(Run(s, sched[..last]), sched[last].0, sched[last].1)
  }

  // ----- The invariant -----

  /** The thread is between a lock region that claimed the HAL and the one that releases it. */
  predicate Owns(pc: Pc) {
    || pc.CheckPrevious? || pc.Open? || pc.StoreClient? || pc.Publish?
    || pc.CheckInterface? || pc.CloseInterface? || pc.ClearInterface? || pc.BackToReady?
  }

  /** What an owner at a position implies for the interface and for the calls made so far. */
  predicate OwnerConsistent(pc: Pc, s: State) {
    && (s.interface <==>
          || pc.Open? || pc.StoreClient? || pc.Publish?
          || pc.CheckInterface? || pc.CloseInterface? || pc.ClearInterface?)
    && (Opened(s.calls) <==> pc.Open? || pc.StoreClient? || pc.Publish? || pc.CheckInterface?)
    && (pc.Open? || pc.StoreClient? || pc.Publish? ==> LastClient(s.calls, pc.cb))
    && (if pc.StoreClient? then LastAnswer(s.answers, pc.cb, true) else s.cb == Winner(s.answers))
    && (pc.Publish? ==> LastAnswer(s.answers, pc.cb, true))
    && (!(pc.CheckPrevious? || pc.Open? || pc.StoreClient? || pc.Publish?) && s.hal == INITIALIZING
        ==> LastRefused(s.answers))
    && (pc.CheckPrevious? || pc.Open? || pc.StoreClient? || pc.Publish? ==> s.hal == INITIALIZING)
  }

  predicate LastAnswer(answers: seq<(Client, bool)>, cb: Client, ok: bool) {
    |answers| > 0 && answers[|answers| - 1] == (cb, ok)
  }

  predicate LastRefused(answers: seq<(Client, bool)>) {
    |answers| > 0 && !answers[|answers| - 1].1
  }

  /** The client of the last Open that succeeded, or the initial none. */
  function Winner(answers: seq<(Client, bool)>): Client {
    if answers == [] then 0
    else if answers[|answers| - 1].1 then answers[|answers| - 1].0
    else Winner(answers[..|answers| - 1])
  }

  lemma WinnerMore(answers: seq<(Client, bool)>, cb: Client, ok: bool)
    ensures Winner(answers + [(cb, ok)]) == if ok then cb else Winner(answers)
  {
    assert (answers + [(cb, ok)])[..|answers|] == answers;
  }

  predicate Opened(calls: seq<Call>) {
    |calls| % 2 == 1
  }

  predicate LastClient(calls: seq<Call>, cb: Client) {
    |calls| > 0 && calls[|calls| - 1] == Initialize(cb)
  }

  /** Initialize and Shutdown strictly alternate, beginning with Initialize. */
  predicate Alternates(calls: seq<Call>) {
    forall k | 0 <= k < |calls| :: calls[k].Initialize? <==> k % 2 == 0
  }

  predicate SoleOwner(s: State, i: nat) {
    i < |s.threads| && Owns(s.threads[i]) && forall j | 0 <= j < |s.threads| && j != i :: !Owns(s.threads[j])
  }

  predicate NoOwner(s: State) {
    forall i | 0 <= i < |s.threads| :: !Owns(s.threads[i])
  }

  ghost predicate Safe(s: State) {
    && Alternates(s.calls) && !s.refused && !s.fatal
    && match s.hal
       case READY => NoOwner(s) && !s.interface && !Opened(s.calls) && s.cb == Winner(s.answers)
       case ONE_CLIENT =>
         && NoOwner(s) && s.interface && Opened(s.calls) && LastClient(s.calls, s.cb)
         && LastAnswer(s.answers, s.cb, true)
       case _ => exists i: nat :: SoleOwner(s, i) && OwnerConsistent(s.threads[i], s)
  }

  /** Every step of every thread keeps the invariant. */
  lemma StepSafe(s: State, i: nat, c: Choice)
    requires Safe(s) && i < |s.threads|
    ensures Safe(Step(s, i, c))
  {
    if s.hal == READY || s.hal == ONE_CLIENT {
      FreeStep(s, i, c);
    } else {
      var o: nat :| SoleOwner(s, o) && OwnerConsistent(s.threads[o], s);
      if i == o { OwnerStep(s, i, c); } else { OtherStep(s, i, c, o); }
    }
  }

  lemma FreeStep(s: State, i: nat, c: Choice)
    requires Safe(s) && i < |s.threads| && (s.hal == READY || s.hal == ONE_CLIENT)
    ensures Safe(Step(s, i, c))
  {
    var t := Step(s, i, c);
    if t.hal != s.hal {
      assert SoleOwner(t, i) && OwnerConsistent(t.threads[i], t);
    }
  }

  lemma OtherStep(s: State, i: nat, c: Choice, o: nat)
    requires Safe(s) && i < |s.threads| && i != o && SoleOwner(s, o) && OwnerConsistent(s.threads[o], s)
    requires s.hal == INITIALIZING || s.hal == CLOSING
    ensures Safe(Step(s, i, c))
  {
    var t := Step(s, i, c);
    assert t == At(s, i, t.threads[i]) && !Owns(t.threads[i]);
    assert SoleOwner(t, o) && OwnerConsistent(t.threads[o], t);
  }

  lemma OwnerStep(s: State, i: nat, c: Choice)
    requires Safe(s) && SoleOwner(s, i) && OwnerConsistent(s.threads[i], s)
    requires s.hal == INITIALIZING || s.hal == CLOSING
    ensures Safe(Step(s, i, c))
  {
    var t := Step(s, i, c);
    if s.threads[i].Open? { WinnerMore(s.answers, s.threads[i].cb, c.succeeds); }
    assert Owns(t.threads[i]) ==> SoleOwner(t, i) && OwnerConsistent(t.threads[i], t);
  }

  /** Safety of every run: for any number of threads and any schedule. */
  lemma {:induction false} RunSafe(n: nat, sched: Schedule)
    requires Schedules(n, sched)
    ensures Safe(Run(Start(n), sched))
    decreases |sched|
  {
    if sched != [] {
      var last := |sched| - 1;
      assert Schedules(n, sched[..last]);
      RunSafe(n, sched[..last]);
      StepSafe(Run(Start(n), sched[..last]), sched[last].0, sched[last].1);
    }
  }

  // ----- What the invariant says -----

  /** No two threads are ever between claim and release; in READY there is no interface, in ONE_CLIENT there is
      one, opened for the client whose callbacks are stored; calls alternate; neither failure is reached. */
  lemma ReachableStates(n: nat, sched: Schedule, i: nat, j: nat)
    requires Schedules(n, sched) && i < n && j < n
    ensures var s := Run(Start(n), sched);
      && (Owns(s.threads[i]) && Owns(s.threads[j]) ==> i == j)
      && (Owns(s.threads[i]) ==> s.hal == INITIALIZING || s.hal == CLOSING)
      && (s.hal == READY ==> !s.interface)
      && (s.hal == ONE_CLIENT ==> s.interface && LastClient(s.calls, s.cb) && LastAnswer(s.answers, s.cb, true))
      && (s.hal == READY ==> s.cb == Winner(s.answers))
      && Alternates(s.calls) && !s.refused && !s.fatal
  {
    RunSafe(n, sched);
  }

  /** How many of its own steps an owner still needs to release the HAL. */
  function Remaining(pc: Pc): nat {
    match pc
    case CheckPrevious(_) => 6
    case Open(_) => 5
    case StoreClient(_) => 2
    case Publish(_) => 1
    case CheckInterface => 4
    case CloseInterface => 3
    case ClearInterface => 2
    case BackToReady => 1
    case _ => 0
  }

  /** The HAL is never stuck: in a transient state one thread owns it, nobody else can move the state, and each
      of the owner's own steps brings the release nearer. */
  lemma TransientStatesEnd(n: nat, sched: Schedule) returns (owner: nat)
    requires Schedules(n, sched)
    requires var hal := Run(Start(n), sched).hal; hal == INITIALIZING || hal == CLOSING
    ensures owner < n && Owns(Run(Start(n), sched).threads[owner])
    ensures var s := Run(Start(n), sched);
      forall i: nat, c | i < n && i != owner ::
        var t := Step(s, i, c); t.hal == s.hal && t.interface == s.interface && t.threads[owner] == s.threads[owner]
    ensures var s := Run(Start(n), sched);
      forall c :: var t := Step(s, owner, c);
        && Remaining(t.threads[owner]) < Remaining(s.threads[owner])
        && (Owns(t.threads[owner]) ==> t.hal == s.hal)
        && (!Owns(t.threads[owner]) ==> t.hal == READY || t.hal == ONE_CLIENT)
  {
    RunSafe(n, sched);
    var s := Run(Start(n), sched);
    var o: nat :| SoleOwner(s, o) && OwnerConsistent(s.threads[o], s);
    owner := o;
  }

  /** Once every call has returned, the HAL is closed without an interface or open with one. */
  lemma Quiescent(n: nat, sched: Schedule)
    requires Schedules(n, sched)
    requires forall i | 0 <= i < n :: Run(Start(n), sched).threads[i].Idle?
    ensures var s := Run(Start(n), sched);
      && (s.hal == READY || s.hal == ONE_CLIENT)
      && (s.interface <==> s.hal == ONE_CLIENT)
      && (Opened(s.calls) <==> s.hal == ONE_CLIENT)
  {
    RunSafe(n, sched);
  }

  // ----- Outcomes -----

  /** In every interleaving, the owner's last step leaves the HAL open for the client of an initialize whose Open
      succeeded, with its callbacks stored, and otherwise ready without an interface, the stored client being the one
      of the last Open that succeeded. */
  lemma ReleaseOutcome(n: nat, sched: Schedule, i: nat, c: Choice)
    requires Schedules(n, sched) && i < n
    requires var s := Run(Start(n), sched); Owns(s.threads[i]) && !Owns(Step(s, i, c).threads[i])
    ensures var s := Run(Start(n), sched);
            var t := Step(s, i, c);
            var won := s.hal == INITIALIZING && |s.answers| > 0 && s.answers[|s.answers| - 1].1;
      && (won ==> t.hal == ONE_CLIENT && t.interface && t.cb == s.answers[|s.answers| - 1].0)
      && (!won ==> t.hal == READY && !t.interface && t.cb == s.cb == Winner(s.answers))
  {
    RunSafe(n, sched);
  }

  /** A thread that runs alone until its call returns. */
  function Alone(s: State, i: nat, c: Choice): (t: State)
    requires i < |s.threads|
    ensures |t.threads| == |s.threads|
    decreases match s.threads[i]
              case Idle => 0
              case EnterInitialize(_) => 8
              case EnterClose => 7
              case pc => Remaining(pc)
  {
    if s.threads[i].Idle? then s else Alone(Step(s, i, c), i, c)
  }

  lemma AloneStep(s: State, i: nat, c: Choice)
    requires i < |s.threads|
    ensures Alone(s, i, c) == if s.threads[i].Idle? then s else Alone(Step(s, i, c), i, c)
  {
  }

  /** From a ready HAL an initialize ends with its own client exactly when Open succeeds; otherwise the HAL is ready
      again, without an interface and with the old client. */
  lemma InitializeOutcome(n: nat, sched: Schedule, i: nat, c: Choice)
    requires Schedules(n, sched) && i < n
    requires var s := Run(Start(n), sched); s.hal == READY && s.threads[i].EnterInitialize?
    ensures var s := Run(Start(n), sched);
            var t, cb := Alone(s, i, c), s.threads[i].cb;
      if c.succeeds then t.hal == ONE_CLIENT && t.interface && t.cb == cb
      else t.hal == READY && !t.interface && t.cb == s.cb
  {
    RunSafe(n, sched);
    var s := Run(Start(n), sched);
    hide Run, Alone, Winner;
    var s1 := Step(s, i, c);
    var s2 := Step(s1, i, c);
    var s3 := Step(s2, i, c);
    AloneStep(s, i, c);
    AloneStep(s1, i, c);
    AloneStep(s2, i, c);
    assert s3.threads[i] == if c.succeeds then StoreClient(s.threads[i].cb) else CheckInterface;
    if c.succeeds {
      var s4 := Step(s3, i, c);
      AloneStep(s3, i, c);
      AloneStep(s4, i, c);
      AloneStep(Step(s4, i, c), i, c);
    } else {
      ShutdownAlone(s3, i, c);
    }
  }

  lemma ShutdownAlone(s: State, i: nat, c: Choice)
    requires i < |s.threads| && s.threads[i] == CheckInterface
    ensures var t := Alone(s, i, c); t.hal == READY && !t.interface && t.cb == s.cb && t.threads[i] == Idle
  {
    hide Alone;
    var s1 := Step(s, i, c);
    var s2 := Step(s1, i, c);
    var s3 := Step(s2, i, c);
    AloneStep(s, i, c);
    AloneStep(s1, i, c);
    AloneStep(s2, i, c);
    AloneStep(s3, i, c);
    AloneStep(Step(s3, i, c), i, c);
  }

  /** A close, and an initialize that is turned away, shut an open HAL down, and change nothing about any other. */
  lemma CloseOutcome(n: nat, sched: Schedule, i: nat, c: Choice)
    requires Schedules(n, sched) && i < n
    requires var s := Run(Start(n), sched);
      s.threads[i].EnterClose? || (s.threads[i].EnterInitialize? && s.hal != READY)
    ensures var s := Run(Start(n), sched);
            var t := Alone(s, i, c);
      if s.hal == ONE_CLIENT then t.hal == READY && !t.interface && t.cb == s.cb
      else t == At(s, i, Idle)
  {
    RunSafe(n, sched);
    var s := Run(Start(n), sched);
    hide Run, Alone, Winner;
    AloneStep(s, i, c);
    var closing := if s.threads[i].EnterClose? then s else Step(s, i, c);
    var s1 := Step(closing, i, c);
    AloneStep(closing, i, c);
    if s.hal == ONE_CLIENT {
      ShutdownAlone(s1, i, c);
    } else {
      AloneStep(s1, i, c);
      assert s1.threads[i] == Idle && s1 == At(s, i, Idle);
    }
  }
}
