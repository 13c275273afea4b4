/** What the handler table and the command table share: searching and deletion by shifting. */
module Tables {
  predicate Has<T>(s: seq<T>, p: T -> bool) {
    exists i :: 0 <= i < |s| && p(s[i])
  }

  function RemoveFirst<T>(s: seq<T>, p: T -> bool): seq<T> {
    if s == [] then [] else if p(s[0]) then s[1..] else [s[0]] + RemoveFirst(s[1..], p)
  }

  lemma {:induction false} RemoveFirstAt<T>(s: seq<T>, p: T -> bool, i: nat)
    requires i <= |s| && (forall k | 0 <= k < i :: !p(s[k])) && (i < |s| ==> p(s[i]))
    ensures RemoveFirst(s, p) == if i < |s| then s[..i] + s[i + 1..] else s
    decreases i
  {
    if i > 0 {
      RemoveFirstAt(s[1..], p, i - 1);
      assert [s[0]] + s[1..] == s;
      if i < |s| { assert [s[0]] + (s[1..][..i - 1] + s[1..][i..]) == s[..i] + s[i + 1..]; }
    }
  }

  /** The position of the first match, or the length. */
  lemma FirstOf<T>(s: seq<T>, p: T -> bool) returns (i: nat)
    ensures i <= |s| && (forall k | 0 <= k < i :: !p(s[k])) && (i < |s| ==> p(s[i]))
    ensures i < |s| <==> Has(s, p)
  {
    i := 0;
    while i < |s| && !p(s[i])
      invariant i <= |s| && forall k | 0 <= k < i :: !p(s[k])
    {
      i := i + 1;
    }
  }

  /** memmove of the entries behind i, over the entry at i; n entries are live. */
  method Shift<T>(a: array<T>, n: nat, i: nat)
    requires i < n <= a.Length
    modifies a
    ensures a[..n - 1] == old(a[..i] + a[i + 1..n])
  {
    ghost var was := a[..n];
    var k := i;
    while k < n - 1
      invariant i <= k < n
      invariant a[..k] == was[..i] + was[i + 1..k + 1]
      invariant a[k + 1..n] == was[k + 1..]
    {
      a[k] := a[k + 1];
      k := k + 1;
    }
  }
}
