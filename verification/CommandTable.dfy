/** Outstanding Wi-Fi commands: a table that owns one reference per entry, used by the ranging requests. */
module CommandTable {
  import opened Wrappers
  import opened Tables

  /** A command object; the serial number tells apart commands with one request id. */
  datatype Command = Command(id: int, serial: nat)

  /** cmd_info. */
  datatype Entry = Entry(id: int, cmd: Command)

  function ById(id: int): Entry -> bool {
    (e: Entry) => e.id == id
  }

  function Find(table: seq<Entry>, id: int): Option<Command> {
    if table == [] then None else if table[0].id == id then Some(table[0].cmd) else Find(table[1..], id)
  }

  /** The table, the reference counts of the live commands, the references threads hold (an event dispatch, or a
      caller that has just removed an entry), the commands whose start() has not returned, and how many references
      the table has taken over and given up. dangling: a dead command was touched. */
  datatype State = State(
    table: seq<Entry>, refs: map<Command, nat>, next: nat, held: multiset<Command>, starting: set<Command>,
    acquired: nat, dropped: nat, dangling: bool)

  /** The steps threads take. A request is Begin, then start() runs while other threads go on, then Started or
      StartFails. A dispatch is Dispatch, for an event that completes the command Remove and Release of what it
      removed, and at last Release of its own reference. A cancellation is Remove and Release. */
  datatype Event =
    | Begin(id: int)
    | Started(cmd: Command)
    | StartFails(cmd: Command)
    | Dispatch(cmd: Command)
    | Remove(id: int)
    | Release(cmd: Command)

  const EMPTY: State := State([], map[], 0, multiset{}, {}, 0, 0, false)

  /** A thread finishes a start it has begun and releases a reference it holds. */
  predicate Possible(s: State, e: Event) {
    match e
    case Started(c) => c in s.starting
    case StartFails(c) => c in s.starting
    case Release(c) => c in s.held
    case _ => true
  }

  // ----- Specification -----

  /** releaseRef: the last reference deletes the command. */
  function Unref(s: State, c: Command): State {
    s.(refs := LessOne(s.refs, c), dangling := s.dangling || c !in s.refs)
  }

  function LessOne(refs: map<Command, nat>, c: Command): map<Command, nat> {
    if c !in refs then refs else if refs[c] <= 1 then refs - {c} else refs[c := refs[c] - 1]
  }

  /** wifi_unregister_cmd: the reference of the entry passes from the table to the caller. */
  function RemoveById(s: State, id: int): State {
    var found := Find(s.table, id);
    if found.None? then s
    else s.(table := RemoveFirst(s.table, ById(id)), dropped := s.dropped + 1, held := s.held + multiset{found.value})
  }

  /** A new command; with a full table its creator keeps the reference, to release it. */
  function Create(s: State, id: int, cap: nat): State {
    var c := Command(id, s.next);
    var created := s.(refs := s.refs[c := 1], next := s.next + 1);
    if |s.table| >= cap then created.(held := s.held + multiset{c})
    else created.(table := s.table + [Entry(id, c)], acquired := s.acquired + 1, starting := s.starting + {c})
  }

  /** The failure path of a request: whatever entry the id finds goes, and the request counts the reference of its
      own command as its own. */
  function Withdraw(s: State, c: Command): State {
    s.(table := RemoveFirst(s.table, ById(c.id)), dropped := s.dropped + 1, held := s.held + multiset{c},
       starting := s.starting - {c})
  }

  function Step(s: State, e: Event, cap: nat): State {
    match e
    case Begin(id) => Create(s, id, cap)
    case Started(c) => s.(starting := s.starting - {c})
    case StartFails(c) => Withdraw(s, c)
    case Dispatch(c) =>
      if c in s.refs then s.(refs := s.refs[c := s.refs[c] + 1], held := s.held + multiset{c})
      else s.(dangling := true)
    case Remove(id) => RemoveById(s, id)
    case Release(c) => Unref(s.(held := s.held - multiset{c}), c)
  }

  function Run(s: State, es: seq<Event>, cap: nat): State
    decreases |es|
  {
    if es == [] then s else Run(Step(s, es[0], cap), es[1..], cap)
  }

  // ----- The code -----

  class HalInfo {
    const cmd: array<Entry>
    var num_cmd: nat
    var refs: map<Command, nat>
    var next: nat
    var dangling: bool
    ghost var held: multiset<Command>
    ghost var starting: set<Command>
    ghost var acquired: nat
    ghost var dropped: nat

    predicate Valid()
      reads this
    {
      num_cmd <= cmd.Length
    }

    function Contents(): seq<Entry>
      reads this, cmd
      requires Valid()
    {
      cmd[..num_cmd]
    }

    ghost function View(): State
      reads this, cmd
      requires Valid()
    {
      State(Contents(), refs, next, held, starting, acquired, dropped, dangling)
    }

    constructor (size: nat)
      ensures Valid() && cmd.Length == size && View() == EMPTY
    {
      cmd := new Entry[size];
      num_cmd := 0;
      refs := map[];
      next := 0;
      dangling := false;
      held := multiset{};
      starting := {};
      acquired := 0;
      dropped := 0;
    }

    /** wifi_register_cmd takes over the caller's reference; it does not look for the id. */
    method RegisterCmd(id: int, c: Command) returns (ok: bool)
      requires Valid()
      modifies this`num_cmd, this`acquired, cmd
      ensures Valid() && ok == (old(num_cmd) < cmd.Length)
      ensures View() == if !ok then old(View())
                        else old(View()).(table := old(Contents()) + [Entry(id, c)], acquired := old(acquired) + 1)
    {
      ok := false;
      if num_cmd < cmd.Length {
        cmd[num_cmd] := Entry(id, c);
        num_cmd := num_cmd + 1;
        acquired := acquired + 1;
        ok := true;
      }
    }

    /** wifi_get_cmd. */
    method GetCmd(id: int) returns (found: Option<Command>)
      requires Valid()
      ensures found == Find(Contents(), id)
    {
      for i := 0 to num_cmd
        invariant Find(Contents(), id) == Find(Contents()[i..], id)
      {
        if cmd[i].id == id { return Some(cmd[i].cmd); }
        assert Contents()[i..][1..] == Contents()[i + 1..];
      }
      return None;
    }

    /** wifi_unregister_cmd: removes the first entry with the id and hands its reference to the caller. */
    method UnregisterCmd(id: int) returns (found: Option<Command>)
      requires Valid()
      modifies this`num_cmd, cmd
      ensures Valid() && found == Find(old(Contents()), id)
      ensures Contents() == RemoveFirst(old(Contents()), ById(id))
    {
      ghost var was := Contents();
      var i := 0;
      while i < num_cmd
        invariant 0 <= i <= num_cmd && Contents() == was
        invariant forall k | 0 <= k < i :: !ById(id)(was[k])
      {
        if cmd[i].id == id {
          found := Some(cmd[i].cmd);
          RemoveFirstAt(was, ById(id), i);
          FindAt(was, id, i);
          Shift(cmd, num_cmd, i);
          num_cmd := num_cmd - 1;
          return;
        }
        i := i + 1;
      }
      RemoveFirstAt(was, ById(id), |was|);
      FindAt(was, id, |was|);
      found := None;
    }

    /** WifiCommand::releaseRef, by a thread that holds the reference. */
    method ReleaseRef(c: Command)
      requires Valid()
      modifies this`refs, this`dangling, this`held
      ensures Valid() && View() == Unref(old(View()).(held := old(held) - multiset{c}), c)
    {
      held := held - multiset{c};
      if c !in refs {
        dangling := true;
      } else if refs[c] <= 1 {
        refs := refs - {c};
      } else {
        refs := refs[c := refs[c] - 1];
      }
    }

    /** The first part of wifi_rtt_range_request: create the command and register it. */
    method BeginRequest(id: int) returns (ok: bool, c: Command)
      requires Valid()
      modifies this, cmd
      ensures Valid() && ok == (old(num_cmd) < cmd.Length) && c == Command(id, old(next))
      ensures View() == Step(old(View()), Begin(id), cmd.Length)
    {
      c := Command(id, next);
      refs := refs[c := 1];
      next := next + 1;
      ok := RegisterCmd(id, c);
      if ok { starting := starting + {c}; } else { held := held + multiset{c}; }
    }

    /** The second part, with the result of start(): on failure the entry of the id is removed, whoever owns it, and
        the request's own command is released. */
    method FinishRequest(c: Command, starts: bool)
      requires Valid()
      modifies this, cmd
      ensures Valid()
      ensures View() == if starts then Step(old(View()), Started(c), cmd.Length)
                        else Step(Step(old(View()), StartFails(c), cmd.Length), Release(c), cmd.Length)
    {
      hide Unref, RemoveFirst, Find;
      starting := starting - {c};
      if !starts {
        var ignored := UnregisterCmd(c.id);
        dropped := dropped + 1;
        held := held + multiset{c};
        ReleaseRef(c);
      }
    }

    /** wifi_rtt_range_request as one thread runs it when nothing happens during start(). */
    method RangeRequest(id: int, starts: bool) returns (ok: bool)
      requires Valid()
      modifies this, cmd
      ensures Valid() && ok == (old(num_cmd) < cmd.Length && starts)
      ensures var c, s := Command(id, old(next)), Step(old(View()), Begin(id), cmd.Length);
        View() == if old(num_cmd) == cmd.Length then Step(s, Release(c), cmd.Length)
                  else if starts then Step(s, Started(c), cmd.Length)
                  else Step(Step(s, StartFails(c), cmd.Length), Release(c), cmd.Length)
    {
      hide Unref, Create, Withdraw;
      var c;
      ok, c := BeginRequest(id);
      if !ok {
        ReleaseRef(c);
        return false;
      }
      FinishRequest(c, starts);
      ok := starts;
    }

    /** The end of RttRequestCommand::handleEvent, and wifi_cancel_cmd. */
    method RemoveAndRelease(id: int) returns (found: bool)
      requires Valid()
      modifies this, cmd
      ensures Valid() && found == Find(old(Contents()), id).Some?
      ensures var s := Step(old(View()), Remove(id), cmd.Length);
              View() == if found then Step(s, Release(Find(old(Contents()), id).value), cmd.Length) else s
    {
      hide Find, RemoveById, Unref;
      var c := TakeOut(id);
      if c.Some? { ReleaseRef(c.value); }
      found := c.Some?;
    }

    /** wifi_unregister_cmd, whose caller now holds the reference. */
    method TakeOut(id: int) returns (c: Option<Command>)
      requires Valid()
      modifies this, cmd
      ensures Valid() && c == Find(old(Contents()), id) && View() == RemoveById(old(View()), id)
    {
      RemoveNothing(Contents(), id);
      hide Find, RemoveFirst;
      c := UnregisterCmd(id);
      if c.Some? {
        dropped := dropped + 1;
        held := held + multiset{c.value};
      }
    }

    /** The event loop takes its own reference before it calls the handler; it calls ReleaseRef afterwards. */
    method BeginDispatch(c: Command)
      requires Valid()
      modifies this`refs, this`dangling, this`held
      ensures Valid() && View() == Step(old(View()), Dispatch(c), cmd.Length)
    {
      if c in refs {
        refs := refs[c := refs[c] + 1];
        held := held + multiset{c};
      } else {
        dangling := true;
      }
    }
  }

  lemma {:induction false} FindAt(table: seq<Entry>, id: int, i: nat)
    requires i <= |table| && (forall k | 0 <= k < i :: table[k].id != id) && (i < |table| ==> table[i].id == id)
    ensures Find(table, id) == if i < |table| then Some(table[i].cmd) else None
    decreases i
  {
    if i > 0 { FindAt(table[1..], id, i - 1); }
  }

  lemma {:induction false} RemoveNothing(table: seq<Entry>, id: int)
    ensures Find(table, id).None? ==> RemoveFirst(table, ById(id)) == table
  {
    if table != [] { RemoveNothing(table[1..], id); }
  }

  // ----- Ownership -----

  function Count(table: seq<Entry>, c: Command): nat {
    if table == [] then 0 else (if table[0].cmd == c then 1 else 0) + Count(table[1..], c)
  }

  function RefCount(s: State, c: Command): nat {
    if c in s.refs then s.refs[c] else 0
  }

  /** Every reference is one the table owns for an entry or one a thread holds; nothing dead was touched; the
      references the table took over minus those it gave up are its entries. */
  ghost predicate Owned(s: State) {
    && !s.dangling && s.acquired - s.dropped == |s.table|
    && (forall c :: RefCount(s, c) == Count(s.table, c) + s.held[c])
    && (forall c | c in s.refs :: s.refs[c] > 0 && c.serial < s.next)
  }

  lemma {:induction false} CountAppend(table: seq<Entry>, e: Entry, c: Command)
    ensures Count(table + [e], c) == Count(table, c) + if e.cmd == c then 1 else 0
  {
    if table == [] {
      assert table + [e] == [e];
    } else {
      assert (table + [e])[1..] == table[1..] + [e];
      CountAppend(table[1..], e, c);
    }
  }

  lemma {:induction false} CountRemove(table: seq<Entry>, id: int, c: Command)
    ensures Find(table, id).Some? ==>
      && |RemoveFirst(table, ById(id))| == |table| - 1
      && Count(table, c) == Count(RemoveFirst(table, ById(id)), c) + if Find(table, id).value == c then 1 else 0
    ensures Find(table, id).None? ==> RemoveFirst(table, ById(id)) == table
  {
    if table != [] {
      CountRemove(table[1..], id, c);
      var rest := RemoveFirst(table[1..], ById(id));
      if table[0].id != id { assert ([table[0]] + rest)[1..] == rest; }
    }
  }

  lemma {:induction false} FindBehind(table: seq<Entry>, e: Entry)
    ensures Find(table + [e], e.id) == if Find(table, e.id).Some? then Find(table, e.id) else Some(e.cmd)
  {
    if table == [] {
      assert table + [e] == [e];
    } else {
      assert (table + [e])[1..] == table[1..] + [e];
      FindBehind(table[1..], e);
    }
  }

  lemma FoundIsCounted(table: seq<Entry>, id: int)
    ensures Find(table, id).Some? ==> Count(table, Find(table, id).value) > 0
  {
    if Find(table, id).Some? { CountRemove(table, id, Find(table, id).value); }
  }

  // Each kind of step keeps ownership, or says exactly when it does.

  lemma BeginOwned(s: State, id: int, cap: nat)
    requires Owned(s)
    ensures Owned(Step(s, Begin(id), cap))
  {
    var new_ := Command(id, s.next);
    assert RefCount(s, new_) == 0;
    forall c ensures Count(s.table + [Entry(id, new_)], c) == Count(s.table, c) + if new_ == c then 1 else 0 {
      CountAppend(s.table, Entry(id, new_), c);
    }
    hide Count;
  }

  /** A failed start keeps ownership exactly when the id still finds the request's own command. */
  lemma StartFailsOwned(s: State, c: Command, cap: nat)
    requires Owned(s)
    ensures Owned(Step(s, StartFails(c), cap)) <==> Find(s.table, c.id) == Some(c)
  {
    CountsRemoved(s.table, c.id);
    FoundIsCounted(s.table, c.id);
    hide Count, Find, RemoveFirst;
    var t := Step(s, StartFails(c), cap);
    assert RefCount(t, c) == RefCount(s, c) == Count(s.table, c) + s.held[c];
    if Find(s.table, c.id) != Some(c) {
      assert Count(t.table, c) == Count(s.table, c);
      assert RefCount(t, c) != Count(t.table, c) + t.held[c];
    }
  }

  /** One when the id finds this command. */
  function Hit(table: seq<Entry>, id: int, c: Command): nat {
    if Find(table, id) == Some(c) then 1 else 0
  }

  lemma CountsRemoved(table: seq<Entry>, id: int)
    ensures Find(table, id).None? ==> RemoveFirst(table, ById(id)) == table
    ensures Find(table, id).Some? ==> |RemoveFirst(table, ById(id))| == |table| - 1
    ensures forall c :: Count(table, c) == Count(RemoveFirst(table, ById(id)), c) + Hit(table, id, c)
  {
    forall c ensures Count(table, c) == Count(RemoveFirst(table, ById(id)), c) + Hit(table, id, c) {
      CountRemove(table, id, c);
    }
    CountRemove(table, id, Command(id, 0));
  }

  /** A dispatch keeps ownership exactly when the command its handler entry names is alive. */
  lemma DispatchOwned(s: State, c: Command, cap: nat)
    requires Owned(s)
    ensures Owned(Step(s, Dispatch(c), cap)) <==> c in s.refs
  {
    hide Count;
  }

  lemma RemoveOwned(s: State, id: int, cap: nat)
    requires Owned(s)
    ensures Owned(Step(s, Remove(id), cap))
  {
    CountsRemoved(s.table, id);
    hide Count, Find, RemoveFirst;
  }

  lemma ReleaseOwned(s: State, c: Command, cap: nat)
    requires Owned(s) && c in s.held
    ensures Owned(Step(s, Release(c), cap))
  {
    hide Count;
    assert RefCount(s, c) > 0;
  }

  /** What a step needs: a failed start still finds its own command, and a dispatch goes to a live one. */
  predicate Sound(s: State, e: Event) {
    match e
    case StartFails(c) => Find(s.table, c.id) == Some(c)
    case Dispatch(c) => c in s.refs
    case _ => true
  }

  /** One step keeps ownership exactly when it is sound. */
  lemma StepOwned(s: State, e: Event, cap: nat)
    requires Owned(s) && Possible(s, e)
    ensures Owned(Step(s, e, cap)) <==> Sound(s, e)
  {
    match e
    case Begin(id) => BeginOwned(s, id, cap);
    case Started(c) =>
    case StartFails(c) => StartFailsOwned(s, c, cap);
    case Dispatch(c) => DispatchOwned(s, c, cap);
    case Remove(id) => RemoveOwned(s, id, cap);
    case Release(c) => ReleaseOwned(s, c, cap);
  }

  predicate Feasible(s: State, es: seq<Event>, cap: nat)
    decreases |es|
  {
    es == [] || (Possible(s, es[0]) && Feasible(Step(s, es[0], cap), es[1..], cap))
  }

  predicate AllSound(s: State, es: seq<Event>, cap: nat)
    decreases |es|
  {
    es == [] || (Sound(s, es[0]) && AllSound(Step(s, es[0], cap), es[1..], cap))
  }

  /** Over every interleaving of requests, failed starts, dispatches and cancellations whose steps are sound, the
      table owns exactly one reference per entry and no dead command is touched. */
  lemma {:induction false} RunOwned(s: State, es: seq<Event>, cap: nat)
    requires Owned(s) && Feasible(s, es, cap) && AllSound(s, es, cap)
    ensures Owned(Run(s, es, cap))
    decreases |es|
  {
    if es != [] {
      StepOwned(s, es[0], cap);
      RunOwned(Step(s, es[0], cap), es[1..], cap);
    }
  }

  /** The step takes the entry of an id away. */
  predicate Takes(e: Event, id: int) {
    (e.Remove? && e.id == id) || (e.StartFails? && e.cmd.id == id)
  }

  /** A request under an id that is not outstanding still finds its own command when start() fails, whatever else
      happens, as long as nothing takes that id away in between. */
  lemma {:induction false} OwnEntryStays(s: State, es: seq<Event>, cap: nat, c: Command)
    requires Find(s.table, c.id) == Some(c) && forall e | e in es :: !Takes(e, c.id)
    ensures Find(Run(s, es, cap).table, c.id) == Some(c)
    decreases |es|
  {
    if es != [] {
      assert es[0] in es && forall e | e in es[1..] :: e in es;
      OwnEntryKept(s, es[0], cap, c);
      OwnEntryStays(Step(s, es[0], cap), es[1..], cap, c);
    }
  }

  lemma OwnEntryKept(s: State, e: Event, cap: nat, c: Command)
    requires Find(s.table, c.id) == Some(c) && !Takes(e, c.id)
    ensures Find(Step(s, e, cap).table, c.id) == Some(c)
  {
    match e
    case Begin(id) => FindAppend(s.table, Entry(id, Command(id, s.next)), c.id);
    case StartFails(d) => FindOther(s.table, d.id, c.id);
    case Remove(id) => FindOther(s.table, id, c.id);
    case _ =>
  }

  lemma {:induction false} FindAppend(table: seq<Entry>, e: Entry, id: int)
    ensures Find(table + [e], id)
      == if Find(table, id).Some? then Find(table, id) else if e.id == id then Some(e.cmd) else None
  {
    if table == [] {
      assert table + [e] == [e];
    } else {
      assert (table + [e])[1..] == table[1..] + [e];
      FindAppend(table[1..], e, id);
    }
  }

  lemma {:induction false} FindOther(table: seq<Entry>, gone: int, id: int)
    requires gone != id
    ensures Find(RemoveFirst(table, ById(gone)), id) == Find(table, id)
  {
    if table != [] {
      FindOther(table[1..], gone, id);
      var rest := RemoveFirst(table[1..], ById(gone));
      if table[0].id != gone { assert ([table[0]] + rest)[0] == table[0] && ([table[0]] + rest)[1..] == rest; }
    }
  }

  /** A command lives exactly as long as the table lists it or a thread holds it. */
  lemma LivesWhileUsed(es: seq<Event>, cap: nat, c: Command)
    requires Feasible(EMPTY, es, cap) && AllSound(EMPTY, es, cap)
    ensures var s := Run(EMPTY, es, cap);
      && (c in s.refs <==> Count(s.table, c) > 0 || c in s.held)
      && s.acquired - s.dropped == |s.table|
  {
    hide Run, Feasible, AllSound, Owned, Count;
    EmptyOwned();
    RunOwned(EMPTY, es, cap);
    OwnedLives(Run(EMPTY, es, cap), c);
  }

  lemma EmptyOwned()
    ensures Owned(EMPTY)
  {
  }

  lemma OwnedLives(s: State, c: Command)
    requires Owned(s)
    ensures (c in s.refs <==> Count(s.table, c) > 0 || c in s.held) && s.acquired - s.dropped == |s.table|
  {
    assert RefCount(s, c) == Count(s.table, c) + s.held[c];
  }

  // ----- A completion that overtakes a failing start -----

  /** For every request under a free id: while its start() runs, its command is the one of the shared event handler.
      If the completion of an older request, dispatched to that command, makes it remove and release itself, the end
      of the dispatch deletes it, and the start that then fails releases a dead command. */
  lemma CompletionOvertakesStart(s: State, id: int, cap: nat)
    requires Owned(s) && |s.table| < cap && Find(s.table, id).None?
    ensures var c, begun := Command(id, s.next), Step(s, Begin(id), cap);
            var dispatched := Step(begun, Dispatch(c), cap);
            var removed := Step(dispatched, Remove(id), cap);
            var ended := Step(Step(removed, Release(c), cap), Release(c), cap);
            var failed := Step(ended, StartFails(c), cap);
      && c in ended.starting && Owned(ended) && !Sound(ended, StartFails(c)) && Step(failed, Release(c), cap).dangling
  {
    var c, begun := Command(id, s.next), Step(s, Begin(id), cap);
    JustBegun(s, id, cap);
    DispatchOwned(begun, c, cap);
    RemoveOwned(Step(begun, Dispatch(c), cap), id, cap);
    var removed := Step(Step(begun, Dispatch(c), cap), Remove(id), cap);
    assert removed.refs[c] == 2 && removed.held[c] == 2 && removed.table == s.table && c in removed.starting;
    DeletedWhileStarting(removed, c, cap);
  }

  lemma DeletedWhileStarting(s: State, c: Command, cap: nat)
    requires Owned(s) && c in s.refs && s.refs[c] == 2 == s.held[c] && Find(s.table, c.id).None? && c in s.starting
    ensures var ended := Step(Step(s, Release(c), cap), Release(c), cap);
            var failed := Step(ended, StartFails(c), cap);
      && c in ended.starting && Owned(ended) && !Sound(ended, StartFails(c)) && Step(failed, Release(c), cap).dangling
  {
    ReleaseOwned(s, c, cap);
    ReleaseOwned(Step(s, Release(c), cap), c, cap);
    hide Owned, Find, RemoveFirst;
  }

  lemma JustBegun(s: State, id: int, cap: nat)
    requires Owned(s) && |s.table| < cap && Find(s.table, id).None?
    ensures var c, begun := Command(id, s.next), Step(s, Begin(id), cap);
      && Owned(begun) && Find(begun.table, id) == Some(c) && RemoveFirst(begun.table, ById(id)) == s.table
      && c in begun.refs && begun.refs[c] == 1 && begun.held[c] == 0 && c in begun.starting
  {
    var c := Command(id, s.next);
    FindAppend(s.table, Entry(id, c), id);
    RemoveBehind(s.table, Entry(id, c));
    BeginOwned(s, id, cap);
    assert RefCount(s, c) == 0;
  }

  /** The entry of a free id, added last, is the one its removal takes. */
  lemma {:induction false} RemoveBehind(table: seq<Entry>, e: Entry)
    requires Find(table, e.id).None?
    ensures RemoveFirst(table + [e], ById(e.id)) == table
  {
    if table == [] {
      assert table + [e] == [e];
    } else {
      assert (table + [e])[1..] == table[1..] + [e];
      RemoveBehind(table[1..], e);
    }
  }
}
