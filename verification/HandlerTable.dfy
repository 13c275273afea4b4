/** The event-handler table of the Wi-Fi HAL: a bounded array with update-or-append and deletion by shifting. */
module HandlerTable {
  import opened Wrappers
  import opened Tables

  /** NL80211_CMD_VENDOR. */
  const VENDOR := 103

  const MAX_IFACENAME_LEN := 8

  /** cb_info. The name is a C string; a plain handler's entry keeps whatever name its slot held. */
  datatype CbInfo = CbInfo(cmd: int, vendorId: nat, subcmd: int, func: nat, arg: nat, ifname: string)

  /** What strncmp with sizeof(ifname) - 1 and the truncating strncpy look at. */
  function Cut(name: string): string {
    if |name| <= MAX_IFACENAME_LEN then name else name[..MAX_IFACENAME_LEN]
  }

  predicate NameMatches(c: CbInfo, name: Option<string>) {
    name.Some? ==> Cut(c.ifname) == Cut(name.value)
  }

  /** The search of wifi_register_vendor_handler. */
  predicate Updates(c: CbInfo, id: nat, sub: int, name: Option<string>) {
    c.vendorId == id && c.subcmd == sub && NameMatches(c, name)
  }

  /** The search of wifi_unregister_vendor_handler. */
  predicate Removes(c: CbInfo, id: nat, sub: int, name: Option<string>) {
    c.cmd == VENDOR && Updates(c, id, sub, name)
  }

  function Updating(id: nat, sub: int, name: Option<string>): CbInfo -> bool {
    c => Updates(c, id, sub, name)
  }

  function Removing(id: nat, sub: int, name: Option<string>): CbInfo -> bool {
    c => Removes(c, id, sub, name)
  }

  function ForCmd(cmd: int): CbInfo -> bool {
    (c: CbInfo) => c.cmd == cmd
  }

  // ----- Specification on sequences -----

  type Handlers = seq<CbInfo>

  function UpdateFirst(s: Handlers, p: CbInfo -> bool, func: nat, arg: nat): Handlers {
    if s == [] then []
    else if p(s[0]) then [s[0].(func := func, arg := arg)] + s[1..]
    else [s[0]] + UpdateFirst(s[1..], p, func, arg)
  }

  datatype Op =
    | Register(cmd: int, func: nat, arg: nat, staleName: string)
    | RegisterVendor(id: nat, sub: int, func: nat, arg: nat, name: Option<string>)
    | Unregister(cmd: int)
    | UnregisterVendor(id: nat, sub: int, name: Option<string>)

  function NewVendor(id: nat, sub: int, func: nat, arg: nat, name: Option<string>): CbInfo {
    CbInfo(VENDOR, id, sub, func, arg, if name.None? then "" else Cut(name.value))
  }

  /** The table after an operation, for a capacity. */
  function Apply(s: Handlers, op: Op, cap: int): Handlers {
    match op
    case Register(cmd, func, arg, stale) =>
      if |s| < cap then s + [CbInfo(cmd, 0, 0, func, arg, stale)] else s
    case RegisterVendor(id, sub, func, arg, name) =>
      if Has(s, Updating(id, sub, name)) then UpdateFirst(s, Updating(id, sub, name), func, arg)
      else if |s| < cap then s + [NewVendor(id, sub, func, arg, name)]
      else s
    case Unregister(cmd) => if cmd == VENDOR then s else RemoveFirst(s, ForCmd(cmd))
    case UnregisterVendor(id, sub, name) => RemoveFirst(s, Removing(id, sub, name))
  }

  /** Whether the operation reports success. */
  predicate Succeeds(s: Handlers, op: Op, cap: int) {
    match op
    case Register(_, _, _, _) => |s| < cap
    case RegisterVendor(id, sub, _, _, name) => |s| < cap || Has(s, Updating(id, sub, name))
    case _ => true
  }

  lemma {:induction false} UpdateFirstAt(s: Handlers, p: CbInfo -> bool, func: nat, arg: nat, i: nat)
    requires i < |s| && (forall k | 0 <= k < i :: !p(s[k])) && p(s[i])
    ensures UpdateFirst(s, p, func, arg) == s[i := s[i].(func := func, arg := arg)]
    decreases i
  {
    if i > 0 {
      UpdateFirstAt(s[1..], p, func, arg, i - 1);
    }
  }

  // ----- The code -----

  class HalInfo {
    const event_cb: array<CbInfo>
    var num_event_cb: nat

    predicate Valid()
      reads this
    {
      num_event_cb <= event_cb.Length
    }

    /** The live prefix of the array. */
    function Contents(): Handlers
      reads this, event_cb
      requires Valid()
    {
      event_cb[..num_event_cb]
    }

    /** The array is allocated and not initialised. */
    constructor (garbage: seq<CbInfo>)
      ensures Valid() && Contents() == [] && event_cb.Length == |garbage|
    {
      event_cb := new CbInfo[|garbage|](i requires 0 <= i < |garbage| => garbage[i]);
      num_event_cb := 0;
    }

    method RemoveAt(i: nat)
      requires Valid() && i < num_event_cb
      modifies this`num_event_cb, event_cb
      ensures Valid() && Contents() == old(Contents()[..i] + Contents()[i + 1..])
    {
      Shift(event_cb, num_event_cb, i);
      num_event_cb := num_event_cb - 1;
    }

    /** wifi_register_handler. */
    method Register(cmd: int, func: nat, arg: nat) returns (ok: bool, ghost stale: string)
      requires Valid()
      modifies this`num_event_cb, event_cb
      ensures Valid() && ok == Succeeds(old(Contents()), Op.Register(cmd, func, arg, stale), event_cb.Length)
      ensures Contents() == Apply(old(Contents()), Op.Register(cmd, func, arg, stale), event_cb.Length)
    {
      ok, stale := false, "";
      if num_event_cb < event_cb.Length {
        stale := event_cb[num_event_cb].ifname;
        event_cb[num_event_cb] := event_cb[num_event_cb].(cmd := cmd, vendorId := 0, subcmd := 0);
        event_cb[num_event_cb] := event_cb[num_event_cb].(func := func, arg := arg);
        num_event_cb := num_event_cb + 1;
        ok := true;
      }
    }

    /** wifi_register_vendor_handler: update the first match or append. */
    method RegisterVendor(id: nat, sub: int, func: nat, arg: nat, name: Option<string>) returns (ok: bool)
      requires Valid()
      modifies this`num_event_cb, event_cb
      ensures Valid() && ok == Succeeds(old(Contents()), Op.RegisterVendor(id, sub, func, arg, name), event_cb.Length)
      ensures Contents() == Apply(old(Contents()), Op.RegisterVendor(id, sub, func, arg, name), event_cb.Length)
    {
      ghost var p := Updating(id, sub, name);
      ghost var was := Contents();
      var i := 0;
      while i < num_event_cb
        invariant 0 <= i <= num_event_cb && Contents() == was
        invariant forall k | 0 <= k < i :: !p(was[k])
      {
        var c := event_cb[i];
        if c.vendorId == id && c.subcmd == sub {
          if name.None? || Cut(c.ifname) == Cut(name.value) {
            event_cb[i] := event_cb[i].(func := func, arg := arg);
            assert p(was[i]);
            UpdateFirstAt(was, p, func, arg, i);
            return true;
          }
        }
        i := i + 1;
      }
      assert !Has(was, p);
      if num_event_cb < event_cb.Length {
        event_cb[num_event_cb] := NewVendor(id, sub, func, arg, name);
        num_event_cb := num_event_cb + 1;
        return true;
      }
      return false;
    }

    /** wifi_unregister_handler refuses vendor handlers. */
    method Unregister(cmd: int)
      requires Valid()
      modifies this`num_event_cb, event_cb
      ensures Valid() && Contents() == Apply(old(Contents()), Op.Unregister(cmd), event_cb.Length)
    {
      if cmd == VENDOR { return; }
      ghost var p := ForCmd(cmd);
      ghost var was := Contents();
      var i := 0;
      while i < num_event_cb
        invariant 0 <= i <= num_event_cb && Contents() == was
        invariant forall k | 0 <= k < i :: !p(was[k])
      {
        if event_cb[i].cmd == cmd {
          RemoveFirstAt(was, p, i);
          RemoveAt(i);
          return;
        }
        i := i + 1;
      }
      RemoveFirstAt(was, p, |was|);
    }

    /** wifi_unregister_vendor_handler. */
    method UnregisterVendor(id: nat, sub: int, name: Option<string>)
      requires Valid()
      modifies this`num_event_cb, event_cb
      ensures Valid() && Contents() == Apply(old(Contents()), Op.UnregisterVendor(id, sub, name), event_cb.Length)
    {
      ghost var p := Removing(id, sub, name);
      ghost var was := Contents();
      var i := 0;
      while i < num_event_cb
        invariant 0 <= i <= num_event_cb && Contents() == was
        invariant forall k | 0 <= k < i :: !p(was[k])
      {
        var c := event_cb[i];
        if c.cmd == VENDOR && c.vendorId == id && c.subcmd == sub && (name.None? || Cut(c.ifname) == Cut(name.value)) {
          assert p(was[i]);
          RemoveFirstAt(was, p, i);
          RemoveAt(i);
          return;
        }
        i := i + 1;
      }
      RemoveFirstAt(was, p, |was|);
    }

    /** WifiCommand::requestVendorEvent: created, sent and waited are the results of the three calls between
        registering and unregistering. The table is restored on every exit path exactly when no entry matched
        the key, or a full table without a match made the registration fail. */
    method RequestVendorEvent(id: nat, sub: int, func: nat, arg: nat, created: int, sent: int, waited: int)
      returns (res: Option<int>)
      requires Valid() && Keyed(Contents()) && id != 0
      modifies this`num_event_cb, event_cb
      ensures Valid() && (Contents() == old(Contents()) <==> !old(Has(Contents(), Updating(id, sub, None))))
      ensures res.None? <==> old(num_event_cb) == event_cb.Length && !old(Has(Contents(), Updating(id, sub, None)))
      ensures res.Some? ==> res.value == if created < 0 then created else if sent < 0 then sent else waited
    {
      ghost var was := Contents();
      var ok := RegisterVendor(id, sub, func, arg, None);
      if !ok { return None; }
      var r := created;
      if r >= 0 {
        r := sent;
        if r >= 0 { r := waited; }
      }
      UnregisterVendor(id, sub, None);
      BracketRestores(was, id, sub, func, arg, event_cb.Length);
      return Some(r);
    }

    /** WifiCommand::requestEvent. Asked for the vendor command it leaves its handler behind. */
    method RequestEvent(cmd: int, func: nat, arg: nat, created: int, sent: int, waited: int) returns (res: Option<int>)
      requires Valid()
      modifies this`num_event_cb, event_cb
      ensures Valid()
      ensures res.None? <==> old(num_event_cb) == event_cb.Length
      ensures res.None? ==> Contents() == old(Contents())
      ensures res.Some? && cmd == VENDOR ==> |Contents()| == |old(Contents())| + 1
      ensures res.Some? && cmd != VENDOR && !old(Has(Contents(), ForCmd(cmd))) ==> Contents() == old(Contents())
      ensures res.Some? && cmd != VENDOR && old(Has(Contents(), ForCmd(cmd))) ==>
        |Contents()| == |old(Contents())| && Contents()[..|Contents()| - 1] == old(RemoveFirst(Contents(), ForCmd(cmd)))
      ensures res.Some? ==> res.value == if created < 0 then created else if sent < 0 then sent else waited
    {
      ghost var was := Contents();
      var ok, stale := Register(cmd, func, arg);
      if !ok { return None; }
      var r := created;
      if r >= 0 {
        r := sent;
        if r >= 0 { r := waited; }
      }
      RemoveBehind(was, Contents()[|was|], ForCmd(cmd));
      Unregister(cmd);
      return Some(r);
    }
  }

  // ----- Uniqueness -----

  /** Entries with a vendor id are vendor entries, and no two of them share id, subcommand and name. */
  predicate Keyed(s: Handlers) {
    && (forall i | 0 <= i < |s| :: s[i].vendorId != 0 ==> s[i].cmd == VENDOR)
    && forall i, j | 0 <= i < j < |s| :: !SameKey(s[i], s[j])
  }

  predicate SameKey(a: CbInfo, b: CbInfo) {
    a.vendorId != 0 && a.vendorId == b.vendorId && a.subcmd == b.subcmd && Cut(a.ifname) == Cut(b.ifname)
  }

  /** Every operation keeps the table keyed. */
  lemma ApplyKeyed(s: Handlers, op: Op, cap: int)
    requires Keyed(s)
    ensures Keyed(Apply(s, op, cap))
  {
    match op
    case Register(_, _, _, _) =>
    case RegisterVendor(id, sub, func, arg, name) =>
      var p := Updating(id, sub, name);
      if Has(s, p) {
        UpdateKeyed(s, p, func, arg);
      } else {
        AppendKeyed(s, id, sub, func, arg, name);
      }
    case Unregister(cmd) => RemoveKeyed(s, ForCmd(cmd));
    case UnregisterVendor(id, sub, name) => RemoveKeyed(s, Removing(id, sub, name));
  }

  lemma UpdateKeyed(s: Handlers, p: CbInfo -> bool, func: nat, arg: nat)
    requires Keyed(s)
    ensures Keyed(UpdateFirst(s, p, func, arg))
  {
    var i := FirstOf(s, p);
    if i < |s| { UpdateFirstAt(s, p, func, arg, i); } else { NothingToUpdate(s, p, func, arg); }
  }

  lemma {:induction false} NothingToUpdate(s: Handlers, p: CbInfo -> bool, func: nat, arg: nat)
    requires forall k | 0 <= k < |s| :: !p(s[k])
    ensures UpdateFirst(s, p, func, arg) == s
  {
    if s != [] { NothingToUpdate(s[1..], p, func, arg); }
  }

  lemma AppendKeyed(s: Handlers, id: nat, sub: int, func: nat, arg: nat, name: Option<string>)
    requires Keyed(s) && !Has(s, Updating(id, sub, name))
    ensures Keyed(s + [NewVendor(id, sub, func, arg, name)])
  {
    forall k | 0 <= k < |s| ensures !SameKey(s[k], NewVendor(id, sub, func, arg, name)) {
      assert !Updating(id, sub, name)(s[k]);
    }
  }

  lemma RemoveKeyed(s: Handlers, p: CbInfo -> bool)
    requires Keyed(s)
    ensures Keyed(RemoveFirst(s, p))
  {
    hide SameKey;
    var i := FirstOf(s, p);
    RemoveFirstAt(s, p, i);
    var t := RemoveFirst(s, p);
    if i < |s| {
      assert forall k | 0 <= k < |t| :: t[k] == s[if k < i then k else k + 1];
    }
  }

  function ApplyAll(s: Handlers, ops: seq<Op>, cap: int): Handlers
    decreases |ops|
  {
    if ops == [] then s else ApplyAll(Apply(s, ops[0], cap), ops[1..], cap)
  }

  /** Over every run of the table's operations the entries stay keyed and within the capacity. */
  lemma {:induction false} RunKeyed(s: Handlers, ops: seq<Op>, cap: int)
    requires Keyed(s) && |s| <= cap
    ensures Keyed(ApplyAll(s, ops, cap)) && |ApplyAll(s, ops, cap)| <= cap
    decreases |ops|
  {
    if ops != [] {
      ApplyKeyed(s, ops[0], cap);
      ApplyBounded(s, ops[0], cap);
      RunKeyed(Apply(s, ops[0], cap), ops[1..], cap);
    }
  }

  lemma ApplyBounded(s: Handlers, op: Op, cap: int)
    requires |s| <= cap
    ensures |Apply(s, op, cap)| <= cap
  {
    match op
    case Register(_, _, _, _) =>
    case RegisterVendor(id, sub, func, arg, name) =>
      var i := FirstOf(s, Updating(id, sub, name));
      if i < |s| { UpdateFirstAt(s, Updating(id, sub, name), func, arg, i); }
    case Unregister(cmd) =>
      var i := FirstOf(s, ForCmd(cmd));
      RemoveFirstAt(s, ForCmd(cmd), i);
    case UnregisterVendor(id, sub, name) =>
      var i := FirstOf(s, Removing(id, sub, name));
      RemoveFirstAt(s, Removing(id, sub, name), i);
  }

  /** After a successful registration the first entry an event for the key finds carries the new handler, and every
      other entry is as before; a full table without the key is unchanged and reported. */
  lemma RegistrationTakes(s: Handlers, id: nat, sub: int, func: nat, arg: nat, name: Option<string>, cap: nat)
    returns (i: nat)
    requires |s| <= cap
    ensures var op := Op.RegisterVendor(id, sub, func, arg, name);
            var t, p := Apply(s, op, cap), Updating(id, sub, name);
      if Succeeds(s, op, cap) then
        && i < |t| && t[i].vendorId == id && t[i].subcmd == sub && t[i].func == func && t[i].arg == arg
        && (name.Some? ==> Cut(t[i].ifname) == Cut(name.value))
        && (forall k | 0 <= k < i :: !p(t[k]))
        && |t| == (if i < |s| then |s| else |s| + 1)
        && (forall k | 0 <= k < |s| && k != i :: t[k] == s[k])
        && (i == |s| ==> t[i].cmd == VENDOR && (name.None? ==> t[i].ifname == ""))
      else t == s && |s| == cap && !Has(s, p)
  {
    var p := Updating(id, sub, name);
    i := FirstOf(s, p);
    if i < |s| { UpdateFirstAt(s, p, func, arg, i); }
  }

  /** Removing a vendor key takes the first vendor entry with the key, if there is one, and nothing else; removing a
      command takes its first entry, and never a vendor one. */
  lemma RemovalIs(s: Handlers, id: nat, sub: int, name: Option<string>, cmd: int, cap: nat) returns (i: nat, j: nat)
    ensures var t := Apply(s, Op.UnregisterVendor(id, sub, name), cap);
      && i <= |s| && t == (if i < |s| then s[..i] + s[i + 1..] else s)
      && (forall k | 0 <= k < i :: !(s[k].cmd == VENDOR && Updating(id, sub, name)(s[k])))
      && (i < |s| ==> s[i].cmd == VENDOR && Updating(id, sub, name)(s[i]))
    ensures var t := Apply(s, Op.Unregister(cmd), cap);
      && j <= |s| && t == (if j < |s| then s[..j] + s[j + 1..] else s)
      && (j < |s| ==> s[j].cmd == cmd != VENDOR)
      && (cmd != VENDOR ==> forall k | 0 <= k < j :: s[k].cmd != cmd)
  {
    i := FirstOf(s, Removing(id, sub, name));
    RemoveFirstAt(s, Removing(id, sub, name), i);
    j := |s|;
    if cmd != VENDOR {
      j := FirstOf(s, ForCmd(cmd));
      RemoveFirstAt(s, ForCmd(cmd), j);
    }
  }

  /** Both names end before this place, or both have the same character there. */
  predicate AgreeAt(a: string, b: string, i: nat) {
    (i < |a| <==> i < |b|) && (i < |a| && i < |b| ==> a[i] == b[i])
  }

  /** Names match exactly when they agree at each of the first eight places. */
  lemma CutMeans(a: string, b: string)
    ensures Cut(a) == Cut(b) <==> forall i: nat | i < 8 :: AgreeAt(a, b, i)
  {
    if Cut(a) == Cut(b) {
      forall i: nat | i < 8 ensures AgreeAt(a, b, i) {
        assert i < |Cut(a)| <==> i < |a|;
        assert i < |a| ==> Cut(a)[i] == a[i] && Cut(b)[i] == b[i];
      }
    } else if forall i: nat | i < 8 :: AgreeAt(a, b, i) {
      assert |a| < 8 ==> AgreeAt(a, b, |a|);
      assert |b| < 8 ==> AgreeAt(a, b, |b|);
      assert |Cut(a)| == |Cut(b)|;
      forall i | 0 <= i < |Cut(a)| ensures Cut(a)[i] == Cut(b)[i] {
        assert AgreeAt(a, b, i);
      }
    }
  }

  /** After removing a key by its name no entry of a keyed table has it any more. */
  lemma RemovalTakes(s: Handlers, id: nat, sub: int, name: string, cap: nat)
    requires Keyed(s) && id != 0
    ensures !Has(Apply(s, Op.UnregisterVendor(id, sub, Some(name)), cap), Updating(id, sub, Some(name)))
  {
    var p, q := Removing(id, sub, Some(name)), Updating(id, sub, Some(name));
    var i := FirstOf(s, p);
    RemoveFirstAt(s, p, i);
    var t := RemoveFirst(s, p);
    forall k | 0 <= k < |t| ensures !q(t[k]) {
      if i < |s| {
        var j := if k < i then k else k + 1;
        assert t[k] == s[j] && (j < i ==> !SameKey(s[j], s[i])) && (j > i ==> !SameKey(s[i], s[j])) && p(s[i]);
      } else {
        assert !p(s[k]);
      }
    }
  }

  /** A plain registration appends an entry for its command and handler that no vendor key finds. */
  lemma PlainRegistration(s: Handlers, cmd: int, func: nat, arg: nat, stale: string, cap: nat)
    ensures var t := Apply(s, Op.Register(cmd, func, arg, stale), cap);
      if |s| < cap then
        && |t| == |s| + 1 && t[..|s|] == s && t[|s|].cmd == cmd && t[|s|].func == func && t[|s|].arg == arg
        && forall id: nat, sub, name | id != 0 :: !Updating(id, sub, name)(t[|s|])
      else t == s
  {
  }

  /** Registering and unregistering a vendor key restores the table exactly when the key was free. */
  lemma BracketRestores(s: Handlers, id: nat, sub: int, func: nat, arg: nat, cap: nat)
    requires Keyed(s) && id != 0 && |s| <= cap
    requires Succeeds(s, Op.RegisterVendor(id, sub, func, arg, None), cap)
    ensures var open := Apply(s, Op.RegisterVendor(id, sub, func, arg, None), cap);
            Apply(open, Op.UnregisterVendor(id, sub, None), cap) == s <==> !Has(s, Updating(id, sub, None))
  {
    var p := Updating(id, sub, None);
    var q := Removing(id, sub, None);
    var i := FirstOf(s, p);
    var t := Apply(s, Op.RegisterVendor(id, sub, func, arg, None), cap);
    if i < |s| { UpdateFirstAt(s, p, func, arg, i); }
    RemoveFirstAt(t, q, i);
  }

  // ----- Brackets while others use the table -----

  /** The entries outside a set of keys, in order. */
  function Without(s: Handlers, q: CbInfo -> bool): Handlers {
    if s == [] then [] else if q(s[0]) then Without(s[1..], q) else [s[0]] + Without(s[1..], q)
  }

  /** The operation is about another key than (id, sub). */
  predicate Foreign(op: Op, id: nat, sub: int) {
    match op
    case RegisterVendor(i, b, _, _, _) => i != id || b != sub
    case UnregisterVendor(i, b, _) => i != id || b != sub
    case _ => true
  }

  lemma {:induction false} WithoutRemoves(s: Handlers, p: CbInfo -> bool, q: CbInfo -> bool)
    requires forall c | c in s :: !(p(c) && q(c))
    ensures Without(RemoveFirst(s, p), q) == RemoveFirst(Without(s, q), p)
    ensures |RemoveFirst(s, p)| - |Without(RemoveFirst(s, p), q)| == |s| - |Without(s, q)|
  {
    if s != [] {
      assert forall c | c in s[1..] :: c in s;
      assert s[0] in s;
      WithoutRemoves(s[1..], p, q);
      if !p(s[0]) { assert ([s[0]] + RemoveFirst(s[1..], p))[1..] == RemoveFirst(s[1..], p); }
      if !q(s[0]) { assert ([s[0]] + Without(s[1..], q))[1..] == Without(s[1..], q); }
    }
  }

  lemma {:induction false} WithoutUpdates(s: Handlers, p: CbInfo -> bool, q: CbInfo -> bool, func: nat, arg: nat)
    requires forall c | c in s :: !(p(c) && q(c)) && (q(c.(func := func, arg := arg)) <==> q(c))
    ensures Without(UpdateFirst(s, p, func, arg), q) == UpdateFirst(Without(s, q), p, func, arg)
    ensures |UpdateFirst(s, p, func, arg)| == |s| && |Without(UpdateFirst(s, p, func, arg), q)| == |Without(s, q)|
  {
    if s != [] {
      assert forall c | c in s[1..] :: c in s;
      assert s[0] in s;
      WithoutUpdates(s[1..], p, q, func, arg);
      if !p(s[0]) { assert ([s[0]] + UpdateFirst(s[1..], p, func, arg))[1..] == UpdateFirst(s[1..], p, func, arg); }
      if !q(s[0]) { assert ([s[0]] + Without(s[1..], q))[1..] == Without(s[1..], q); }
    }
  }

  lemma {:induction false} WithoutAppends(s: Handlers, x: CbInfo, q: CbInfo -> bool)
    ensures Without(s + [x], q) == Without(s, q) + if q(x) then [] else [x]
  {
    if s == [] {
      assert s + [x] == [x];
    } else {
      assert (s + [x])[1..] == s[1..] + [x];
      WithoutAppends(s[1..], x, q);
    }
  }

  lemma {:induction false} WithoutHas(s: Handlers, p: CbInfo -> bool, q: CbInfo -> bool)
    requires forall c | c in s :: !(p(c) && q(c))
    ensures Has(Without(s, q), p) <==> Has(s, p)
  {
    if s != [] {
      assert forall c | c in s[1..] :: c in s;
      assert s[0] in s;
      WithoutHas(s[1..], p, q);
      HasCons(s[0], s[1..], p);
      if !q(s[0]) { HasCons(s[0], Without(s[1..], q), p); }
      assert [s[0]] + s[1..] == s;
    }
  }

  lemma HasCons(x: CbInfo, s: Handlers, p: CbInfo -> bool)
    ensures Has([x] + s, p) <==> p(x) || Has(s, p)
  {
    if p(x) { assert p(([x] + s)[0]); }
    if Has(s, p) {
      var i :| 0 <= i < |s| && p(s[i]);
      assert p(([x] + s)[i + 1]);
    }
  }

  lemma {:induction false} RemoveBehind(s: Handlers, x: CbInfo, p: CbInfo -> bool)
    requires p(x)
    ensures Has(s, p) ==> |RemoveFirst(s, p)| == |s| - 1
    ensures RemoveFirst(s + [x], p) == if Has(s, p) then RemoveFirst(s, p) + [x] else s
  {
    var i := FirstOf(s, p);
    RemoveFirstAt(s, p, i);
    RemoveFirstAt(s + [x], p, i);
    if i < |s| { assert (s + [x])[i + 1..] == s[i + 1..] + [x]; }
  }

  /** A foreign operation does to the other entries what it would do if the key's entries were not there and the
      table were smaller by their number. */
  lemma ForeignCommutes(s: Handlers, op: Op, cap: int, id: nat, sub: int)
    requires Keyed(s) && id != 0 && Foreign(op, id, sub)
    ensures var q := Updating(id, sub, None);
      && Without(Apply(s, op, cap), q) == Apply(Without(s, q), op, cap - (|s| - |Without(s, q)|))
      && |Apply(s, op, cap)| - |Without(Apply(s, op, cap), q)| == |s| - |Without(s, q)|
  {
    var q := Updating(id, sub, None);
    match op
    case Register(cmd, func, arg, stale) => WithoutAppends(s, CbInfo(cmd, 0, 0, func, arg, stale), q);
    case RegisterVendor(i, b, func, arg, name) =>
      WithoutUpdates(s, Updating(i, b, name), q, func, arg);
      WithoutHas(s, Updating(i, b, name), q);
      WithoutAppends(s, NewVendor(i, b, func, arg, name), q);
    case Unregister(cmd) => if cmd != VENDOR { WithoutRemoves(s, ForCmd(cmd), q); }
    case UnregisterVendor(i, b, name) => WithoutRemoves(s, Removing(i, b, name), q);
  }

  lemma {:induction false} ForeignRun(s: Handlers, ops: seq<Op>, cap: int, id: nat, sub: int)
    requires Keyed(s) && id != 0 && forall op | op in ops :: Foreign(op, id, sub)
    ensures var q := Updating(id, sub, None);
      && Keyed(ApplyAll(s, ops, cap))
      && Without(ApplyAll(s, ops, cap), q) == ApplyAll(Without(s, q), ops, cap - (|s| - |Without(s, q)|))
      && |ApplyAll(s, ops, cap)| - |Without(ApplyAll(s, ops, cap), q)| == |s| - |Without(s, q)|
    decreases |ops|
  {
    hide Keyed, Without, Apply, Foreign;
    if ops != [] {
      assert ops[0] in ops && forall op | op in ops[1..] :: op in ops;
      ForeignCommutes(s, ops[0], cap, id, sub);
      ApplyKeyed(s, ops[0], cap);
      ForeignRun(Apply(s, ops[0], cap), ops[1..], cap, id, sub);
    }
  }

  lemma {:induction false} RemoveOnly(s: Handlers, p: CbInfo -> bool, q: CbInfo -> bool)
    requires |s| - |Without(s, q)| == 1 && forall c | c in s :: p(c) <==> q(c)
    ensures RemoveFirst(s, p) == Without(s, q)
  {
    assert forall c | c in s[1..] :: c in s;
    assert s[0] in s;
    if q(s[0]) { WithoutAll(s[1..], q); } else { RemoveOnly(s[1..], p, q); }
  }

  lemma {:induction false} WithoutAll(s: Handlers, q: CbInfo -> bool)
    ensures |Without(s, q)| <= |s|
    ensures |Without(s, q)| == |s| ==> Without(s, q) == s
  {
    if s != [] { WithoutAll(s[1..], q); }
  }

  lemma {:induction false} WithoutNone(s: Handlers, q: CbInfo -> bool)
    requires !Has(s, q)
    ensures Without(s, q) == s
  {
    if s != [] {
      assert !q(s[0]) && forall i | 0 <= i < |s| - 1 :: s[1..][i] == s[i + 1];
      WithoutNone(s[1..], q);
    }
  }

  /** A bracket on a free key is invisible to everybody else: whatever the others do in between, they end up with
      the table they would have got without it, in a table one entry smaller. */
  lemma BracketAmongOthers(s: Handlers, id: nat, sub: int, func: nat, arg: nat, ops: seq<Op>, cap: int)
    requires Keyed(s) && id != 0 && |s| < cap && !Has(s, Updating(id, sub, None))
    requires forall op | op in ops :: Foreign(op, id, sub)
    ensures var open := Apply(s, Op.RegisterVendor(id, sub, func, arg, None), cap);
            Apply(ApplyAll(open, ops, cap), Op.UnregisterVendor(id, sub, None), cap) == ApplyAll(s, ops, cap - 1)
  {
    var q := Updating(id, sub, None);
    var open := Apply(s, Op.RegisterVendor(id, sub, func, arg, None), cap);
    hide Without, ApplyAll, Keyed;
    ApplyKeyed(s, Op.RegisterVendor(id, sub, func, arg, None), cap);
    WithoutAppends(s, NewVendor(id, sub, func, arg, None), q);
    WithoutNone(s, q);
    assert open == s + [NewVendor(id, sub, func, arg, None)] && Without(open, q) == s;
    CloseBracket(open, id, sub, ops, cap);
  }

  lemma CloseBracket(open: Handlers, id: nat, sub: int, ops: seq<Op>, cap: int)
    requires Keyed(open) && id != 0 && |open| - |Without(open, Updating(id, sub, None))| == 1
    requires forall op | op in ops :: Foreign(op, id, sub)
    ensures Apply(ApplyAll(open, ops, cap), Op.UnregisterVendor(id, sub, None), cap)
         == ApplyAll(Without(open, Updating(id, sub, None)), ops, cap - 1)
  {
    ForeignRun(open, ops, cap, id, sub);
    var u := ApplyAll(open, ops, cap);
    assert forall c | c in u :: Removes(c, id, sub, None) <==> Updates(c, id, sub, None);
    RemoveOnly(u, Removing(id, sub, None), Updating(id, sub, None));
  }
}
