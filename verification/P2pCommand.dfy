/** The P2P power commands: printed to text, dispatched by prefix, split in place and parsed again. */
module P2pCommand {
  import opened Wrappers
  import opened Words

  const NUL := '\0'

  // ----- Decimal numbers -----

  function Digits(n: nat): string {
    (if n >= 10 then Digits(n / 10) else "") + [('0' as int + n % 10) as char]
  }

  /** What %d prints. */
  function Print(n: int): string {
    if n < 0 then "-" + Digits(-n) else Digits(n)
  }

  predicate IsDigit(c: char) {
    '0' <= c <= '9'
  }

  function DigitValue(c: char): nat
    requires IsDigit(c)
  {
    c as int - '0' as int
  }

  function NatOf(digits: string): nat
    requires forall i | 0 <= i < |digits| :: IsDigit(digits[i])
  {
    if digits == "" then 0 else NatOf(digits[..|digits| - 1]) * 10 + DigitValue(digits[|digits| - 1])
  }

  /** The longest prefix of digits. */
  function Leading(s: string): (digits: string)
    ensures forall i | 0 <= i < |digits| :: IsDigit(digits[i])
  {
    if s != "" && IsDigit(s[0]) then [s[0]] + Leading(s[1..]) else ""
  }

  predicate IsSpace(c: char) {
    c == ' ' || '\t' <= c <= '\r'
  }

  /** atoi, without its undefined overflow: blanks, a sign, digits, and whatever follows is ignored. */
  function Atoi(s: string): int {
    if s == "" then 0
    else if IsSpace(s[0]) then Atoi(s[1..])
    else if s[0] == '-' then 0 - NatOf(Leading(s[1..]))
    else if s[0] == '+' then NatOf(Leading(s[1..]))
    else NatOf(Leading(s))
  }

  lemma {:induction false} DigitsAreDigits(n: nat)
    ensures |Digits(n)| > 0 && forall i | 0 <= i < |Digits(n)| :: IsDigit(Digits(n)[i])
  {
    if n >= 10 { DigitsAreDigits(n / 10); }
  }

  lemma {:induction false} NatOfDigits(n: nat)
    ensures forall i | 0 <= i < |Digits(n)| :: IsDigit(Digits(n)[i])
    ensures NatOf(Digits(n)) == n
  {
    DigitsAreDigits(n);
    var d := Digits(n);
    assert DigitValue(d[|d| - 1]) == n % 10;
    if n >= 10 {
      NatOfDigits(n / 10);
      assert d[..|d| - 1] == Digits(n / 10);
    } else {
      assert d[..|d| - 1] == "";
    }
  }

  lemma {:induction false} LeadingAll(s: string)
    requires forall i | 0 <= i < |s| :: IsDigit(s[i])
    ensures Leading(s) == s
  {
    if s != "" { LeadingAll(s[1..]); }
  }

  lemma AtoiDigits(n: nat)
    ensures Atoi(Digits(n)) == n && NatOf(Leading(Digits(n))) == n
  {
    DigitsAreDigits(n);
    NatOfDigits(n);
    LeadingAll(Digits(n));
    hide Digits, NatOf, Leading;
    assert !IsSpace(Digits(n)[0]) && Digits(n)[0] != '-' && Digits(n)[0] != '+';
  }

  /** Parsing what was printed gives the number back, for every integer. */
  lemma AtoiPrint(n: int)
    ensures Atoi(Print(n)) == n
  {
    hide Digits, NatOf, Leading;
    if n < 0 {
      AtoiDigits(-n);
      SignedAtoi(Digits(-n));
    } else {
      AtoiDigits(n);
    }
  }

  lemma SignedAtoi(s: string)
    ensures Atoi("-" + s) == 0 - NatOf(Leading(s))
  {
    assert ("-" + s)[1..] == s;
  }

  lemma {:induction false} DigitsLength(n: nat, k: nat, bound: nat)
    requires n < bound && bound == Power10(k) && k > 0
    ensures |Digits(n)| <= k
  {
    if n >= 10 {
      assert k > 1;
      DigitsLength(n / 10, k - 1, Power10(k - 1));
    }
  }

  function Power10(k: nat): nat {
    if k == 0 then 1 else 10 * Power10(k - 1)
  }

  lemma PrintLength(n: s32)
    ensures 0 < |Print(n)| <= 11
    ensures 0 <= n < 256 ==> |Print(n)| <= 3
  {
    var m: nat := if n < 0 then 0 - n else n;
    DigitsAreDigits(m);
    assert Power10(10) == 10000000000;
    DigitsLength(m, 10, Power10(10));
    if 0 <= n < 256 { DigitsLength(n, 3, Power10(3)); }
  }

  // ----- Splitting -----

  predicate Separator(c: char) {
    c == ' ' || c == '\n'
  }

  predicate Word(w: string) {
    forall i | 0 <= i < |w| :: !Separator(w[i])
  }

  /** The first separator at or behind a position, or the end. */
  function End(s: string, p: nat): (e: nat)
    requires p <= |s|
    ensures p <= e <= |s| && (e < |s| ==> Separator(s[e]))
    ensures forall i | p <= i < e :: !Separator(s[i])
    decreases |s| - p
  {
    if p == |s| || Separator(s[p]) then p else End(s, p + 1)
  }

  /** Splitting at every separator; empty tokens count. */
  function Split(s: string): (ts: seq<string>)
    ensures |ts| > 0
  {
    var e := End(s, 0);
    if e == |s| then [s] else [s[..e]] + Split(s[e + 1..])
  }

  /** Splitting, with one trailing empty token dropped unless it is the only one. */
  function Tokens(s: string): seq<string> {
    DropTrailing(Split(s))
  }

  function DropTrailing(ts: seq<string>): seq<string> {
    if |ts| > 1 && ts[|ts| - 1] == "" then ts[..|ts| - 1] else ts
  }

  /** The C string at a position of a buffer. */
  function CString(buf: seq<char>, at: nat): string
    decreases |buf| - at
  {
    if at >= |buf| || buf[at] == NUL then "" else [buf[at]] + CString(buf, at + 1)
  }

  function CStrings(buf: seq<char>, starts: seq<nat>): seq<string> {
    if starts == [] then [] else [CString(buf, starts[0])] + CStrings(buf, starts[1..])
  }

  /** Where the tokens start. */
  function Starts(s: string, p: nat): seq<nat>
    requires p <= |s|
    decreases |s| - p
  {
    var e := End(s, p);
    [p] + if e + 1 >= |s| then [] else Starts(s, e + 1)
  }

  /** The text with its separators overwritten. */
  function Nulled(s: string): (r: string)
    ensures |r| == |s|
  {
    seq(|s|, i requires 0 <= i < |s| => if Separator(s[i]) then NUL else s[i])
  }

  /** A C string of the given length at the start of a buffer. */
  predicate TextOf(buf: seq<char>, len: nat) {
    len < |buf| && buf[len] == NUL && forall i | 0 <= i < len :: buf[i] != NUL
  }

  /** The inner loop of tokenize_space. */
  method ScanToken(cmd: array<char>, len: nat, start: nat, ghost s: string) returns (pos: nat)
    requires |s| == len < cmd.Length && start <= len && cmd[len] == NUL
    requires forall i | start <= i < len :: cmd[i] == s[i] != NUL
    ensures pos == End(s, start)
  {
    pos := start;
    while cmd[pos] != '\n' && cmd[pos] != ' ' && cmd[pos] != NUL
      invariant start <= pos <= len && End(s, pos) == End(s, start)
      decreases len - pos
    {
      pos := pos + 1;
      if pos >= len { break; }
    }
  }

  /** Overwritten up to a position, untouched from there on. */
  predicate Overwritten(now: seq<char>, was: seq<char>, s: string, pos: nat) {
    && |s| < |was| == |now| && pos <= |s|
    && (forall i | 0 <= i < pos :: now[i] == Nulled(s)[i])
    && (forall i | pos <= i < |was| :: now[i] == was[i])
  }

  lemma OverwrittenOn(now: seq<char>, was: seq<char>, s: string, pos: nat)
    requires Overwritten(now, was, s, pos) && was[..|s|] == s
    requires End(s, pos) < |s|
    ensures Overwritten(now[End(s, pos) := NUL], was, s, End(s, pos) + 1)
  {
    forall i | pos <= i < |s| ensures was[i] == s[i] { assert was[..|s|][i] == s[i]; }
  }

  lemma OverwrittenAll(now: seq<char>, was: seq<char>, s: string, pos: nat)
    requires Overwritten(now, was, s, pos) && was[..|s|] == s && End(s, pos) == |s|
    ensures now == Nulled(s) + was[|s|..]
  {
    forall i | pos <= i < |s| ensures was[i] == s[i] { assert was[..|s|][i] == s[i]; }
  }

  lemma StartsNext(s: string, pos: nat, starts: seq<nat>)
    requires pos <= |s|
    ensures var e := End(s, pos);
      && |Starts(s, pos)| > 0
      && starts + Starts(s, pos) == starts + [pos] + (if e + 1 >= |s| then [] else Starts(s, e + 1))
  {
    StartsUnfolds(s, pos);
    hide Starts, End;
  }

  lemma StartsUnfolds(s: string, p: nat)
    requires p <= |s|
    ensures var e := End(s, p); Starts(s, p) == [p] + (if e + 1 >= |s| then [] else Starts(s, e + 1))
  {
  }

  /** tokenize_space: overwrites every separator and records where the tokens start. */
  method TokenizeSpace(cmd: array<char>, argv: array<nat>, len: nat) returns (argc: nat)
    requires TextOf(cmd[..], len) && |Starts(cmd[..len], 0)| <= argv.Length
    modifies cmd, argv
    ensures cmd[..] == Nulled(old(cmd[..len])) + old(cmd[len..])
    ensures argc <= argv.Length && argv[..argc] == Starts(old(cmd[..len]), 0)
  {
    hide Starts, End, Nulled;
    ghost var s, was := cmd[..len], cmd[..];
    var pos := 0;
    argc := 0;
    while true
      invariant 0 <= pos <= len && argc <= argv.Length && argc + |Starts(s, pos)| <= argv.Length
      invariant argv[..argc] + Starts(s, pos) == Starts(s, 0)
      invariant Overwritten(cmd[..], was, s, pos)
      decreases len - pos
    {
      ghost var starts, start := argv[..argc], pos;
      StartsNext(s, pos, starts);
      argv[argc] := pos;
      argc := argc + 1;
      assert argv[..argc] == starts + [pos];
      pos := ScanToken(cmd, len, pos, s);
      if cmd[pos] == NUL {
        OverwrittenAll(cmd[..], was, s, start);
        return;
      }
      OverwrittenOn(cmd[..], was, s, start);
      ghost var before := cmd[..];
      cmd[pos] := NUL;
      assert cmd[..] == before[pos := NUL];
      pos := pos + 1;
      if pos >= len { break; }
    }
    assert pos == len;
    EndAt(s);
    OverwrittenAll(cmd[..], was, s, len);
  }

  lemma EndAt(s: string)
    ensures End(s, |s|) == |s|
  {
  }

  lemma {:induction false} EndShift(s: string, p: nat, q: nat)
    requires p <= q <= |s|
    ensures End(s, q) == p + End(s[p..], q - p)
    decreases |s| - q
  {
    if q < |s| && !Separator(s[q]) { EndShift(s, p, q + 1); }
  }

  lemma {:induction false} CStringStops(buf: seq<char>, at: nat, e: nat)
    requires at <= e < |buf| && buf[e] == NUL && forall i | at <= i < e :: buf[i] != NUL
    ensures CString(buf, at) == buf[at..e]
    decreases e - at
  {
    if at < e { CStringStops(buf, at + 1, e); }
  }

  lemma DropTrailingCons(first: string, rest: seq<string>)
    requires |rest| > 0
    ensures DropTrailing([first] + rest) == if rest == [""] then [first] else [first] + DropTrailing(rest)
  {
    var all := [first] + rest;
    assert all[|all| - 1] == rest[|rest| - 1] && all[..|all| - 1] == [first] + rest[..|rest| - 1];
    if rest[|rest| - 1] == "" && |rest| == 1 { assert rest == [""]; }
  }

  lemma SplitEmpty(s: string)
    ensures Split(s) == [""] <==> s == ""
  {
  }

  lemma DropTrailingOne(s: string)
    ensures DropTrailing([s]) == [s]
  {
  }

  lemma SplitUnfolds(s: string)
    ensures var e := End(s, 0); Split(s) == if e == |s| then [s] else [s[..e]] + Split(s[e + 1..])
  {
    hide End;
  }

  /** Splitting off the first token. */
  lemma TokensSplit(s: string)
    ensures var e := End(s, 0);
      Tokens(s) == if e == |s| then [s] else if e + 1 == |s| then [s[..e]] else [s[..e]] + Tokens(s[e + 1..])
  {
    SplitUnfolds(s);
    hide Split, DropTrailing, End;
    var e := End(s, 0);
    if e < |s| {
      SplitEmpty(s[e + 1..]);
      DropTrailingCons(s[..e], Split(s[e + 1..]));
    } else {
      DropTrailingOne(s);
    }
  }

  /** The first recorded position holds the first token. */
  lemma StartHoldsToken(s: string, p: nat, rest: seq<char>)
    requires p <= |s| && |rest| > 0 && rest[0] == NUL && forall i | 0 <= i < |s| :: s[i] != NUL
    ensures CString(Nulled(s) + rest, p) == s[p..End(s, p)]
  {
    var e := End(s, p);
    CStringStops(Nulled(s) + rest, p, e);
    assert (Nulled(s) + rest)[p..e] == s[p..e];
  }

  /** The recorded positions hold exactly the tokens. */
  lemma {:induction false} StartsHoldTokens(s: string, p: nat, rest: seq<char>)
    requires (p < |s| || p == 0 == |s|) && |rest| > 0 && rest[0] == NUL
    requires forall i | 0 <= i < |s| :: s[i] != NUL
    ensures CStrings(Nulled(s) + rest, Starts(s, p)) == Tokens(s[p..])
    decreases |s| - p
  {
    hide CString, CStrings, Tokens, Nulled, Starts, End;
    StartsUnfolds(s, p);
    EndShift(s, p, p);
    StartHoldsToken(s, p, rest);
    TokensSplit(s[p..]);
    var buf, e := Nulled(s) + rest, End(s, p);
    assert s[p..][..e - p] == s[p..e];
    if e + 1 < |s| {
      assert s[p..][e - p + 1..] == s[e + 1..];
      StartsHoldTokens(s, e + 1, rest);
      CStringsCons(buf, p, Starts(s, e + 1));
    } else {
      CStringsCons(buf, p, []);
      assert e == |s| ==> s[p..e] == s[p..];
    }
  }

  lemma CStringsCons(buf: seq<char>, p: nat, starts: seq<nat>)
    ensures CStrings(buf, [p] + starts) == [CString(buf, p)] + CStrings(buf, starts)
    ensures CStrings(buf, []) == []
  {
    assert ([p] + starts)[1..] == starts;
  }

  lemma SplitWord(w: string)
    requires Word(w)
    ensures Split(w) == [w]
  {
  }

  /** A word and a space or a newline in front of a text are one more token. */
  lemma SplitFirst(w: string, separator: char, rest: string)
    requires Word(w) && (separator == ' ' || separator == '\n')
    ensures Split(w + [separator] + rest) == [w] + Split(rest)
  {
    var s := w + [separator] + rest;
    assert s[|w|] == separator && forall i | 0 <= i < |w| :: s[i] == w[i];
    assert End(s, 0) == |w|;
    assert s[..|w|] == w && s[|w| + 1..] == rest;
  }

  /** One separator at the end adds no token, and the empty text is one empty token. */
  lemma TrailingDropped(w: string, separator: char)
    requires Word(w) && (separator == ' ' || separator == '\n')
    ensures Tokens(w + [separator]) == [w] && Tokens("") == [""]
  {
    SplitFirst(w, separator, "");
    assert w + [separator] + "" == w + [separator];
  }

  lemma PrintWord(n: int)
    ensures Word(Print(n)) && |Print(n)| > 0 && forall i | 0 <= i < |Print(n)| :: Print(n)[i] != NUL
  {
    DigitsAreDigits(if n < 0 then -n else n);
  }

  /** The text of a command with three numbers. */
  function Text(name: string, a: int, b: int, c: int): string {
    name + " " + (Print(a) + " " + (Print(b) + " " + Print(c)))
  }

  lemma TextTokens(name: string, a: int, b: int, c: int)
    requires Word(name)
    ensures Tokens(Text(name, a, b, c)) == [name, Print(a), Print(b), Print(c)]
  {
    PrintWord(a);
    PrintWord(b);
    PrintWord(c);
    hide Print;
    FourTokens(name, Print(a), Print(b), Print(c));
  }

  lemma FourTokens(w: string, a: string, b: string, c: string)
    requires Word(w) && Word(a) && Word(b) && Word(c) && c != ""
    ensures Tokens(w + " " + (a + " " + (b + " " + c))) == [w, a, b, c]
  {
    hide Word, Split;
    SplitFirst(w, ' ', a + " " + (b + " " + c));
    SplitFirst(a, ' ', b + " " + c);
    SplitFirst(b, ' ', c);
    SplitWord(c);
  }

  // ----- Dispatch -----

  // The tests that come before the two P2P commands; six of them are compiled only in some configurations.

  /** Prefixes compared without regard to case. */
  const FOLDED_PREFIXES: seq<string> := [
    "POWERMODE ", "GET_STA_STATISTICS ", "COUNTRY", "getpower", "rxfilter-add", "rxfilter-remove", "rxfilter-stop",
    "rxfilter-start", "btcoexmode", "set-wapi-key", "wapi-msg-send"]

  /** Whole commands compared without regard to case. */
  const FOLDED_COMMANDS: seq<string> := ["start", "stop", "btcoexscan-start", "btcoexscan-stop"]

  const PREFIXES: seq<string> := [
    "MACADDR", "HAPD_GET_CHANNEL ", "p2p_set_opps ", "p2p_set_power_save ", "p2p_set_sleep ", "p2p_set_sleep"]

  function Lower(c: char): char {
    if 'A' <= c <= 'Z' then c + ('a' - 'A') else c
  }

  predicate StartsFolded(cmd: string, text: string) {
    |cmd| >= |text| && forall i | 0 <= i < |text| :: Lower(cmd[i]) == Lower(text[i])
  }

  predicate Earlier(cmd: string) {
    || (exists t | t in FOLDED_PREFIXES :: StartsFolded(cmd, t))
    || (exists t | t in FOLDED_COMMANDS :: |cmd| == |t| && StartsFolded(cmd, t))
    || (exists t | t in PREFIXES :: t <= cmd)
  }

  datatype Kind = SetNoaKind | SetPsKind | OtherKind

  const NOA := "P2P_SET_NOA"
  const PS := "P2P_SET_PS"

  function Dispatch(cmd: string): Kind {
    if Earlier(cmd) then OtherKind
    else if NOA <= cmd then SetNoaKind
    else if PS <= cmd then SetPsKind
    else OtherKind
  }

  lemma DispatchesP2p(cmd: string)
    requires NOA <= cmd || PS <= cmd
    ensures Dispatch(cmd) == if NOA <= cmd then SetNoaKind else SetPsKind
  {
    assert cmd[0] == 'P' && cmd[1] == '2';
    FailsEarlier(cmd);
  }

  lemma FailsEarlier(cmd: string)
    requires |cmd| > 1 && cmd[0] == 'P' && cmd[1] == '2'
    ensures !Earlier(cmd)
  {
    forall t | t in FOLDED_PREFIXES ensures !StartsFolded(cmd, t) { PrefixDiffers(cmd, t); }
    forall t | t in FOLDED_COMMANDS ensures !StartsFolded(cmd, t) { CommandDiffers(cmd, t); }
    forall t | t in PREFIXES ensures !(t <= cmd) { ExactDiffers(cmd, t); }
    hide StartsFolded;
  }

  lemma PrefixDiffers(cmd: string, t: string)
    requires t in FOLDED_PREFIXES && |cmd| > 1 && cmd[0] == 'P' && cmd[1] == '2'
    ensures !StartsFolded(cmd, t)
  {
    assert |t| > 1 && (Lower(t[0]) != 'p' || Lower(t[1]) != '2');
    assert Lower(cmd[0]) == 'p' && Lower(cmd[1]) == '2';
  }

  lemma CommandDiffers(cmd: string, t: string)
    requires t in FOLDED_COMMANDS && |cmd| > 1 && cmd[0] == 'P' && cmd[1] == '2'
    ensures !StartsFolded(cmd, t)
  {
    assert |t| > 0 && Lower(t[0]) != 'p';
  }

  /** The lower-case commands come closest: they differ in the first letter. */
  lemma ExactDiffers(cmd: string, t: string)
    requires t in PREFIXES && |cmd| > 1 && cmd[0] == 'P'
    ensures !(t <= cmd)
  {
    assert |t| > 0 && t[0] != 'P';
  }

  lemma PsIsNotNoa(cmd: string)
    requires PS <= cmd
    ensures !(NOA <= cmd)
  {
    assert cmd[8] == PS[8] == 'P' && NOA[8] == 'N';
  }

  // ----- The two commands -----

  /** What is sent to the kernel in test mode. */
  datatype Sent = NoaParams(idx: u32, count: u32, interval: u32, duration: u32) | PsParams(idx: u32, value: u32)

  const ARGV_SIZE := 64

  /** ctw |= BIT(7), seen as an unsigned word. */
  function WithBit7(n: u32): (r: u32)
    ensures r / 128 % 2 == 1 && r % 128 == n % 128 && r / 256 == n / 256
  {
    if n / 128 % 2 == 1 then n else n + 128
  }

  function NoaOf(ts: seq<string>): Option<Sent> {
    if |ts| != 4 then None else Some(NoaParams(4, Wrap32(Atoi(ts[1])), Wrap32(Atoi(ts[2])), Wrap32(Atoi(ts[3]))))
  }

  function PsOf(ts: seq<string>): Option<Sent> {
    if |ts| != 4 then None
    else Some(PsParams(107, if Atoi(ts[2]) != 0 then WithBit7(Wrap32(Atoi(ts[3]))) else Wrap32(Atoi(ts[3]))))
  }

  /** Tokenizes a command and reads the four tokens back out of the overwritten buffer. */
  method Arguments(cmd: array<char>, len: nat) returns (argc: nat, args: seq<string>)
    requires TextOf(cmd[..], len) && |Starts(cmd[..len], 0)| <= ARGV_SIZE
    modifies cmd
    ensures argc == |Tokens(old(cmd[..len]))|
    ensures argc == 4 ==> args == Tokens(old(cmd[..len]))
  {
    ghost var s, rest := cmd[..len], cmd[len..];
    assert forall i | 0 <= i < len :: s[i] == cmd[..][i] != NUL;
    var argv := new nat[ARGV_SIZE];
    argc := TokenizeSpace(cmd, argv, len);
    args := [];
    assert s[0..] == s;
    StartsHoldTokens(s, 0, rest);
    SameLength(cmd[..], Starts(s, 0));
    if argc == 4 {
      args := [CString(cmd[..], argv[0]), CString(cmd[..], argv[1]), CString(cmd[..], argv[2]),
               CString(cmd[..], argv[3])];
      FourStrings(cmd[..], argv[..argc]);
    }
  }

  lemma {:induction false} SameLength(buf: seq<char>, starts: seq<nat>)
    ensures |CStrings(buf, starts)| == |starts|
  {
    if starts != [] { SameLength(buf, starts[1..]); }
  }

  lemma FourStrings(buf: seq<char>, at: seq<nat>)
    requires |at| == 4
    ensures CStrings(buf, at) == [CString(buf, at[0]), CString(buf, at[1]), CString(buf, at[2]), CString(buf, at[3])]
  {
    hide CString;
    assert CStrings(buf, at) == [CString(buf, at[0])] + CStrings(buf, at[1..]);
    assert at[1..][1..] == at[2..] && at[2..][1..] == at[3..] && at[3..][1..] == [];
    assert CStrings(buf, at[1..]) == [CString(buf, at[1])] + CStrings(buf, at[2..]);
    assert CStrings(buf, at[2..]) == [CString(buf, at[2])] + CStrings(buf, at[3..]);
    assert CStrings(buf, at[3..]) == [CString(buf, at[3])];
  }

  /** p2p_ctrl_iface_set_noa. */
  method SetNoa(cmd: array<char>, len: nat) returns (sent: Option<Sent>)
    requires TextOf(cmd[..], len) && |Starts(cmd[..len], 0)| <= ARGV_SIZE
    modifies cmd
    ensures sent == NoaOf(Tokens(old(cmd[..len])))
  {
    var argc, argv := Arguments(cmd, len);
    if argc != 4 { return None; }
    var count := Wrap32(Atoi(argv[1]));
    var interval := Wrap32(Atoi(argv[2]));
    var duration := Wrap32(Atoi(argv[3]));
    return Some(NoaParams(4, count, interval, duration));
  }

  /** p2p_ctrl_iface_set_ps. */
  method SetPs(cmd: array<char>, len: nat) returns (sent: Option<Sent>)
    requires TextOf(cmd[..], len) && |Starts(cmd[..len], 0)| <= ARGV_SIZE
    modifies cmd
    ensures sent == PsOf(Tokens(old(cmd[..len])))
  {
    var argc, argv := Arguments(cmd, len);
    if argc != 4 { return None; }
    var enable := Atoi(argv[2]);
    var ctw := Wrap32(Atoi(argv[3]));
    if enable != 0 { ctw := WithBit7(ctw); }
    return Some(PsParams(107, ctw));
  }

  const CMD_SIZE := 4098

  function Truncated(text: string): string {
    if |text| < CMD_SIZE then text else text[..CMD_SIZE - 1]
  }

  /** The part of wpa_driver_nl80211_driver_cmd for the two commands; an access point has no supplicant. */
  method DriverCmd(text: string, station: bool) returns (sent: Option<Sent>)
    requires (forall i | 0 <= i < |text| :: text[i] != NUL) && |Starts(Truncated(text), 0)| <= ARGV_SIZE
    ensures sent == match Dispatch(Truncated(text))
      case SetNoaKind => if station then NoaOf(Tokens(Truncated(text))) else None
      case SetPsKind => if station then PsOf(Tokens(Truncated(text))) else None
      case OtherKind => None
  {
    hide Dispatch, NoaOf, PsOf, Tokens, Starts;
    var s := Truncated(text);
    var cmd := new char[CMD_SIZE](i requires 0 <= i => if i < |s| then s[i] else NUL);
    assert cmd[..|s|] == s;
    sent := None;
    var kind := Dispatch(s);
    if kind == SetNoaKind {
      if station { sent := SetNoa(cmd, |s|); }
    } else if kind == SetPsKind {
      if station { sent := SetPs(cmd, |s|); }
    }
  }

  /** wpa_driver_set_p2p_noa: count, start and duration arrive unchanged as unsigned words, for all arguments that
      fit the print buffer; forty characters always do. */
  method SetP2pNoa(count: byte, start: s32, duration: s32, bufSize: nat, station: bool) returns (sent: Option<Sent>)
    ensures sent == if |Text(NOA, count, start, duration)| < bufSize && station
                    then Some(NoaParams(4, count, Wrap32(start), Wrap32(duration))) else None
    ensures |Text(NOA, count, start, duration)| < 40
  {
    hide Text, Print, Atoi, Tokens, Starts, Dispatch;
    var text := Text(NOA, count, start, duration);
    NumbersFit(NOA, count, start, duration);
    if |text| >= bufSize { return None; }
    TextTokens(NOA, count, start, duration);
    AtoiPrint(count);
    AtoiPrint(start);
    AtoiPrint(duration);
    DispatchesP2p(text);
    sent := DriverCmd(text, station);
  }

  /** wpa_driver_set_p2p_ps: the context window arrives, with bit 7 set when opportunistic power save is on. */
  method SetP2pPs(legacyPs: s32, oppPs: s32, ctwindow: s32, bufSize: nat, station: bool) returns (sent: Option<Sent>)
    ensures sent == if |Text(PS, legacyPs, oppPs, ctwindow)| < bufSize && station
                    then Some(PsParams(107, if oppPs != 0 then WithBit7(Wrap32(ctwindow)) else Wrap32(ctwindow)))
                    else None
    ensures |Text(PS, legacyPs, oppPs, ctwindow)| < 47
  {
    hide Text, Print, Atoi, Tokens, Starts, Dispatch;
    var text := Text(PS, legacyPs, oppPs, ctwindow);
    NumbersFit(PS, legacyPs, oppPs, ctwindow);
    if |text| >= bufSize { return None; }
    TextTokens(PS, legacyPs, oppPs, ctwindow);
    AtoiPrint(legacyPs);
    AtoiPrint(oppPs);
    AtoiPrint(ctwindow);
    PsIsNotNoa(text);
    DispatchesP2p(text);
    sent := DriverCmd(text, station);
  }

  lemma NumbersFit(name: string, a: s32, b: s32, c: s32)
    requires Word(name) && forall i | 0 <= i < |name| :: name[i] != NUL
    ensures var text := Text(name, a, b, c);
      && name <= text && |text| <= |name| + 36
      && (0 <= a < 256 ==> |text| <= |name| + 28)
      && (forall i | 0 <= i < |text| :: text[i] != NUL)
      && |Starts(text, 0)| == 4
  {
    hide Print, Tokens, Starts, CStrings;
    PrintLength(a);
    PrintLength(b);
    PrintLength(c);
    PrintWord(a);
    PrintWord(b);
    PrintWord(c);
    TextTokens(name, a, b, c);
    var text := Text(name, a, b, c);
    assert text[0..] == text;
    StartsHoldTokens(text, 0, [NUL]);
    SameLength(Nulled(text) + [NUL], Starts(text, 0));
  }
}
