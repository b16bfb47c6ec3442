/** Multi-strings (REG_MULTI_SZ): NUL-terminated strings laid end to end
    and closed by an empty string, that is by a second NUL. Both the clone
    driver's ID answers and the installer's ID lists use this layout. */
module MultiSz {
  import opened Common

  /** The index of the first NUL at or after `p`, or `|buf|` when there is
      none; `NextNul(buf, p) - p` is `lstrlen` of the string at `p`. */
  function NextNul(buf: string, p: nat): (r: nat)
    requires p <= |buf|
    ensures p <= r <= |buf|
    ensures forall k :: p <= k < r ==> buf[k] != NUL
    ensures r < |buf| ==> buf[r] == NUL
    decreases |buf| - p
  {
    if p == |buf| || buf[p] == NUL then p else NextNul(buf, p + 1)
  }

  /** From `p`, the buffer holds NUL-terminated strings up to an empty one. */
  predicate Terminated(buf: string, p: nat)
    decreases |buf| - p
  {
    p < |buf| && (buf[p] == NUL || (NextNul(buf, p) < |buf| && Terminated(buf, NextNul(buf, p) + 1)))
  }

  /** The strings of a terminated multi-string, in order. */
  function Strings(buf: string, p: nat): seq<string>
    requires Terminated(buf, p)
    decreases |buf| - p
  {
    if buf[p] == NUL then []
    else [buf[p..NextNul(buf, p)]] + Strings(buf, NextNul(buf, p) + 1)
  }

  /** Every string of a multi-string is non-empty and free of NULs. */
  lemma {:induction false} StringsWellFormed(buf: string, p: nat)
    requires Terminated(buf, p)
    ensures forall s :: s in Strings(buf, p) ==> |s| > 0 && NUL !in s
    decreases |buf| - p
  {
    if buf[p] != NUL {
      var q := NextNul(buf, p);
      StringsWellFormed(buf, q + 1);
      assert Strings(buf, p) == [buf[p..q]] + Strings(buf, q + 1);
      assert forall k :: 0 <= k < |buf[p..q]| ==> buf[p..q][k] == buf[p + k];
    }
  }

  /** The strings wrapped as the non-null entries of a pointer array. */
  function Pointers(strs: seq<string>): seq<Option<string>> {
    seq(|strs|, i requires 0 <= i < |strs| => Some(strs[i]))
  }

  /** One string off the front of a multi-string. */
  lemma Step(buf: string, p: nat)
    requires p < |buf| && buf[p] != NUL && NextNul(buf, p) < |buf|
    ensures Terminated(buf, p) <==> Terminated(buf, NextNul(buf, p) + 1)
    ensures Terminated(buf, p) ==>
              Strings(buf, p) == [buf[p..NextNul(buf, p)]] + Strings(buf, NextNul(buf, p) + 1)
  {
  }

  /** The counting pass: how many strings the multi-string holds. */
  method CountStrings(buf: string) returns (elements: nat)
    requires Terminated(buf, 0)
    ensures elements == |Strings(buf, 0)|
  {
    var scan: nat := 0;
    elements := 0;
    while buf[scan] != NUL
      invariant Terminated(buf, scan)
      invariant elements + |Strings(buf, scan)| == |Strings(buf, 0)|
      decreases |buf| - scan
    {
      Step(buf, scan);
      scan := NextNul(buf, scan) + 1;
      elements := elements + 1;
    }
  }

  /** The filling pass: record where each string starts. */
  method FillPointers(buf: string, arr0: seq<Option<string>>) returns (arr: seq<Option<string>>)
    requires Terminated(buf, 0)
    requires |arr0| == |Strings(buf, 0)| + 1
    ensures arr == Pointers(Strings(buf, 0)) + [arr0[|arr0| - 1]]
  {
    ghost var all := Strings(buf, 0);
    arr := arr0;
    var scan: nat := 0;
    var elements := 0;
    while buf[scan] != NUL
      invariant Terminated(buf, scan)
      invariant |arr| == |all| + 1 && arr[|all|] == arr0[|all|]
      invariant 0 <= elements <= |all| && all[elements..] == Strings(buf, scan)
      invariant forall j :: 0 <= j < elements ==> arr[j] == Some(all[j])
      decreases |buf| - scan
    {
      var next := NextNul(buf, scan);
      FillStep(buf, all, elements, scan);
      arr := arr[elements := Some(buf[scan..next])];
      scan := next + 1;
      elements := elements + 1;
    }
    assert |Strings(buf, scan)| == 0;
    PointersFilled(arr, all, arr0[|all|]);
  }

  /** One string of the filling pass: the next entry of `all` is the
      string at `scan`, and the rest are the strings after it. */
  lemma FillStep(buf: string, all: seq<string>, elements: nat, scan: nat)
    requires Terminated(buf, scan) && buf[scan] != NUL
    requires elements <= |all| && all[elements..] == Strings(buf, scan)
    ensures NextNul(buf, scan) < |buf| && Terminated(buf, NextNul(buf, scan) + 1)
    ensures elements < |all| && all[elements] == buf[scan..NextNul(buf, scan)]
    ensures all[elements + 1..] == Strings(buf, NextNul(buf, scan) + 1)
  {
    Step(buf, scan);
    ghost var rest := all[elements..];
    assert rest[0] == all[elements];
    assert all[elements + 1..] == rest[1..];
  }

  /** An array whose first entries point at `all` in order, followed by
      `last`. */
  lemma PointersFilled(arr: seq<Option<string>>, all: seq<string>, last: Option<string>)
    requires |arr| == |all| + 1 && arr[|all|] == last
    requires forall j :: 0 <= j < |all| ==> arr[j] == Some(all[j])
    ensures arr == Pointers(all) + [last]
  {
  }

  /** GetMultiSzIndexArray: count the strings, allocate, then record each
      string followed by a null entry. A failed allocation gives no array.
      (The slot before the returned entries, which keeps the buffer for
      release, is not modelled.) */
  method GetMultiSzIndexArray(buf: string, allocOk: bool) returns (r: Option<seq<Option<string>>>)
    requires Terminated(buf, 0)
    ensures r.Some? <==> allocOk
    ensures r.Some? ==> r.value == Pointers(Strings(buf, 0)) + [None]
  {
    var elements := CountStrings(buf);
    if !allocOk {
      return None;
    }
    var arr: seq<Option<string>> := seq(elements + 1, _ => None);
    if elements > 0 {
      arr := FillPointers(buf, arr);
    } else {
      assert Pointers(Strings(buf, 0)) == [];
    }
    return Some(arr);
  }

  /** The multi-string holding `strs`: each followed by a NUL, then a NUL. */
  function Join(strs: seq<string>): string {
    if strs == [] then [NUL] else strs[0] + [NUL] + Join(strs[1..])
  }

  /** Any characters padded with two NULs are a terminated multi-string,
      from the start or any later position up to the second pad. This is
      how the installer meets the requirement of `GetMultiSzIndexArray`: it
      pads the property or registry value it read with two NULs first. */
  lemma {:induction false} PaddedTerminated(b: string, p: nat)
    requires p <= |b| + 1
    ensures Terminated(b + [NUL, NUL], p)
    decreases |b| + 1 - p
  {
    var buf := b + [NUL, NUL];
    if buf[p] != NUL {
      var q := NextNul(buf, p);
      assert buf[|b|] == NUL;
      assert q <= |b|;
      PaddedTerminated(b, q + 1);
    }
  }

  /** The first NUL after `p` is the one at `q` when none lies between. */
  lemma {:induction false} NextNulAt(buf: string, p: nat, q: nat)
    requires p <= q < |buf| && buf[q] == NUL
    requires forall k :: p <= k < q ==> buf[k] != NUL
    ensures NextNul(buf, p) == q
    decreases q - p
  {
    if p < q {
      NextNulAt(buf, p + 1, q);
    }
  }

  lemma NulFreeSpan(buf: string, pre: string, s: string, tail: string)
    requires NUL !in s && buf == pre + s + [NUL] + tail
    ensures forall k | |pre| <= k < |pre| + |s| :: buf[k] != NUL
    ensures buf[|pre| + |s|] == NUL
    ensures buf[|pre|..|pre| + |s|] == s
  {
    forall k | |pre| <= k < |pre| + |s| ensures buf[k] != NUL {
      assert buf[k] == s[k - |pre|];
    }
  }

  /** In `pre + s + [NUL] + tail`, the string at `|pre|` is `s`. */
  lemma StringAt(buf: string, pre: string, s: string, tail: string)
    requires |s| > 0 && NUL !in s && buf == pre + s + [NUL] + tail
    ensures buf[|pre|] != NUL && NextNul(buf, |pre|) == |pre| + |s| && buf[|pre|..|pre| + |s|] == s
  {
    NulFreeSpan(buf, pre, s, tail);
    NextNulAt(buf, |pre|, |pre| + |s|);
  }

  lemma JoinCons(strs: seq<string>)
    requires strs != []
    ensures Join(strs) == strs[0] + [NUL] + Join(strs[1..])
  {
  }

  lemma TailWellFormed(strs: seq<string>)
    requires strs != [] && forall s :: s in strs ==> |s| > 0 && NUL !in s
    ensures |strs[0]| > 0 && NUL !in strs[0]
    ensures forall t :: t in strs[1..] ==> |t| > 0 && NUL !in t
  {
    assert strs[0] in strs;
    forall t | t in strs[1..] ensures |t| > 0 && NUL !in t {
      assert t in strs;
    }
  }

  lemma Regroup(buf: string, pre: string, s: string, tail: string)
    requires buf == pre + (s + [NUL] + tail)
    ensures buf == pre + s + [NUL] + tail
    ensures buf == (pre + s + [NUL]) + tail && |pre + s + [NUL]| == |pre| + |s| + 1
  {
  }

  lemma {:induction false} JoinParsesAt(buf: string, pre: string, strs: seq<string>)
    requires forall s :: s in strs ==> |s| > 0 && NUL !in s
    requires buf == pre + Join(strs)
    ensures Terminated(buf, |pre|)
    ensures Strings(buf, |pre|) == strs
    decreases |strs|
  {
    if strs == [] {
      assert buf[|pre|] == NUL;
    } else {
      var s, rest := strs[0], strs[1..];
      JoinCons(strs);
      TailWellFormed(strs);
      Regroup(buf, pre, s, Join(rest));
      StringAt(buf, pre, s, Join(rest));
      JoinParsesAt(buf, pre + s + [NUL], rest);
      Step(buf, |pre|);
      assert strs == [s] + rest;
    }
  }

  /** Joining non-empty, NUL-free strings and parsing the result gives the
      same strings back. */
  lemma JoinParses(strs: seq<string>)
    requires forall s :: s in strs ==> |s| > 0 && NUL !in s
    ensures Terminated(Join(strs), 0)
    ensures Strings(Join(strs), 0) == strs
  {
    assert Join(strs) == [] + Join(strs);
    JoinParsesAt(Join(strs), [], strs);
  }

  /** Parsing a multi-string and joining its strings rebuilds the buffer up
      to its closing NUL. */
  lemma {:induction false} ParseJoins(buf: string, p: nat)
    requires Terminated(buf, p)
    ensures exists e :: p < e <= |buf| && buf[p..e] == Join(Strings(buf, p))
    decreases |buf| - p
  {
    if buf[p] == NUL {
      assert buf[p..p + 1] == [NUL];
    } else {
      var q := NextNul(buf, p);
      ParseJoins(buf, q + 1);
      var e :| q + 1 < e <= |buf| && buf[q + 1..e] == Join(Strings(buf, q + 1));
      var strs := Strings(buf, p);
      assert strs[1..] == Strings(buf, q + 1);
      assert buf[p..e] == buf[p..q] + [NUL] + buf[q + 1..e];
    }
  }
}
