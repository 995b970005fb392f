/**
 Intrusive doubly linked lists: the links live in the nodes, nodes are named by position, NIL is the
 null pointer. The head's back link is never read, so it may hold anything.
 */
module FreeList {

  const NIL: int := -1

  function At(l: seq<nat>, i: int): int
  {
    if 0 <= i < |l| then l[i] else NIL
  }

  ghost predicate NoDup(l: seq<nat>)
  {
    forall i, j :: 0 <= i < j < |l| ==> l[i] != l[j]
  }

  /** The node at index i of l links to its neighbours. */
  ghost predicate LinkedAt(next: seq<int>, prev: seq<int>, l: seq<nat>, i: int)
    requires 0 <= i < |l|
  {
    && l[i] < |next| && l[i] < |prev|
    && next[l[i]] == At(l, i + 1)
    && (i > 0 ==> prev[l[i]] == l[i - 1])
  }

  /** `head` reaches exactly the nodes of l, in order, and every node but the first points back. */
  ghost predicate Chain(next: seq<int>, prev: seq<int>, head: int, l: seq<nat>)
  {
    && NoDup(l)
    && head == At(l, 0)
    && forall i :: 0 <= i < |l| ==> LinkedAt(next, prev, l, i)
  }

  /** A table of lists that share no node. */
  ghost predicate Chains(next: seq<int>, prev: seq<int>, heads: seq<int>, lists: seq<seq<nat>>)
  {
    && |heads| == |lists|
    && (forall o :: 0 <= o < |lists| ==> Chain(next, prev, heads[o], lists[o]))
    && (forall o, p, s :: 0 <= o < |lists| && 0 <= p < |lists| && s in lists[o] && s in lists[p] ==> o == p)
  }

  ghost predicate Listed(lists: seq<seq<nat>>, s: nat)
  {
    exists o :: 0 <= o < |lists| && s in lists[o]
  }

  lemma ChainFrame(next: seq<int>, prev: seq<int>, next': seq<int>, prev': seq<int>, head: int, l: seq<nat>)
    requires Chain(next, prev, head, l)
    requires |next'| == |next| && |prev'| == |prev|
    requires forall s :: s in l && s < |next| && s < |prev| ==> next'[s] == next[s] && prev'[s] == prev[s]
    ensures Chain(next', prev', head, l)
  {
    forall i | 0 <= i < |l|
      ensures LinkedAt(next', prev', l, i)
    {
      assert LinkedAt(next, prev, l, i);
      assert l[i] in l;
    }
  }

  /** Link writes to nodes on no list disturb no list. */
  lemma ChainsFrame(next: seq<int>, prev: seq<int>, next': seq<int>, prev': seq<int>, heads: seq<int>, lists: seq<seq<nat>>)
    requires Chains(next, prev, heads, lists)
    requires |next'| == |next| && |prev'| == |prev|
    requires forall s :: 0 <= s < |next| && s < |prev| && Listed(lists, s) ==> next'[s] == next[s] && prev'[s] == prev[s]
    ensures Chains(next', prev', heads, lists)
  {
    forall o | 0 <= o < |lists|
      ensures Chain(next', prev', heads[o], lists[o])
    {
      forall s | s in lists[o]
        ensures s < |next| && s < |prev| && next'[s] == next[s] && prev'[s] == prev[s]
      {
        var i :| 0 <= i < |lists[o]| && lists[o][i] == s;
        assert LinkedAt(next, prev, lists[o], i);
        assert Listed(lists, s);
      }
      ChainFrame(next, prev, next', prev', heads[o], lists[o]);
    }
  }

  // ---- push at the head ----

  function SetBack(links: seq<int>, at: int, to: int): seq<int>
    requires at == NIL || 0 <= at < |links|
  {
    if at == NIL then links else links[at := to]
  }

  lemma NextInRange(next: seq<int>, prev: seq<int>, head: int, l: seq<nat>, k: nat)
    requires Chain(next, prev, head, l) && k < |l|
    ensures l[k] < |next| && next[l[k]] == At(l, k + 1)
    ensures next[l[k]] == NIL || (0 <= next[l[k]] < |next| && next[l[k]] < |prev|)
    ensures head == l[k] ==> k == 0
  {
    assert LinkedAt(next, prev, l, k);
    if k + 1 < |l| {
      assert LinkedAt(next, prev, l, k + 1);
    }
  }

  lemma HeadInRange(next: seq<int>, prev: seq<int>, head: int, l: seq<nat>)
    requires Chain(next, prev, head, l)
    ensures head == NIL || (0 <= head < |next| && head < |prev|)
  {
    if |l| > 0 {
      assert LinkedAt(next, prev, l, 0);
    }
  }

  lemma ChainPush(next: seq<int>, prev: seq<int>, head: int, l: seq<nat>, x: nat)
    requires Chain(next, prev, head, l) && x !in l && x < |next| && x < |prev|
    requires head == NIL || 0 <= head < |prev|
    ensures Chain(next[x := head], SetBack(prev, head, x), x, [x] + l)
  {
    var n, p, k := next[x := head], SetBack(prev, head, x), [x] + l;
    forall i | 0 <= i < |k|
      ensures LinkedAt(n, p, k, i)
    {
      if i > 0 {
        assert LinkedAt(next, prev, l, i - 1);
        assert k[i] == l[i - 1];
      }
    }
  }

  // ---- removal ----

  function Without(l: seq<nat>, k: nat): seq<nat>
    requires k < |l|
  {
    l[..k] + l[k + 1..]
  }

  lemma WithoutMembers(l: seq<nat>, k: nat)
    requires k < |l| && NoDup(l)
    ensures NoDup(Without(l, k))
    ensures forall s :: s in Without(l, k) <==> s in l && s != l[k]
  {
    var m := Without(l, k);
    forall s | s in l && s != l[k]
      ensures s in m
    {
      var i :| 0 <= i < |l| && l[i] == s;
      assert m[if i < k then i else i - 1] == s;
    }
  }

  /** Popping the head leaves the next node's back link stale, which is allowed. */
  lemma ChainPop(next: seq<int>, prev: seq<int>, head: int, l: seq<nat>)
    requires Chain(next, prev, head, l) && |l| > 0
    ensures head == l[0] && l[0] < |next| && Chain(next, prev, next[l[0]], l[1..])
  {
    assert LinkedAt(next, prev, l, 0);
    forall i | 0 <= i < |l| - 1
      ensures LinkedAt(next, prev, l[1..], i)
    {
      assert LinkedAt(next, prev, l, i + 1);
    }
  }

  /** Unlinking an inner node by its own two links. */
  lemma ChainUnlink(next: seq<int>, prev: seq<int>, head: int, l: seq<nat>, k: nat)
    requires Chain(next, prev, head, l) && 0 < k < |l|
    ensures l[k] < |next| && l[k] < |prev|
    ensures prev[l[k]] == l[k - 1] && l[k - 1] < |next| && next[l[k - 1]] == l[k]
    ensures next[l[k]] == At(l, k + 1)
    ensures k + 1 < |l| ==> l[k + 1] < |prev| && prev[l[k + 1]] == l[k]
    ensures Chain(next[l[k - 1] := next[l[k]]], SetBack(prev, At(l, k + 1), l[k - 1]), head, Without(l, k))
  {
    assert LinkedAt(next, prev, l, k) && LinkedAt(next, prev, l, k - 1);
    if k + 1 < |l| {
      assert LinkedAt(next, prev, l, k + 1);
    }
    var n, p, m := next[l[k - 1] := next[l[k]]], SetBack(prev, At(l, k + 1), l[k - 1]), Without(l, k);
    WithoutMembers(l, k);
    forall i | 0 <= i < |m|
      ensures LinkedAt(n, p, m, i)
    {
      var j := if i < k then i else i + 1;
      assert LinkedAt(next, prev, l, j);
      assert m[i] == l[j];
    }
  }

  // ---- the same operations on a table of lists ----

  /** Replacing list o, with link writes that touch no other list. */
  lemma ChainsReplace(next: seq<int>, prev: seq<int>, next': seq<int>, prev': seq<int>,
                      heads: seq<int>, lists: seq<seq<nat>>, o: nat, h: int, l: seq<nat>)
    requires Chains(next, prev, heads, lists) && o < |lists|
    requires |next'| == |next| && |prev'| == |prev|
    requires Chain(next', prev', h, l)
    requires forall p, s :: 0 <= p < |lists| && p != o && s in lists[p] ==> s !in l
    requires forall p, s :: 0 <= p < |lists| && p != o && s in lists[p] && s < |next| && s < |prev|
                        ==> next'[s] == next[s] && prev'[s] == prev[s]
    ensures Chains(next', prev', heads[o := h], lists[o := l])
  {
    var heads', lists' := heads[o := h], lists[o := l];
    forall p | 0 <= p < |lists'|
      ensures Chain(next', prev', heads'[p], lists'[p])
    {
      if p != o {
        ChainFrame(next, prev, next', prev', heads[p], lists[p]);
      }
    }
  }

  lemma ChainsPush(next: seq<int>, prev: seq<int>, heads: seq<int>, lists: seq<seq<nat>>, o: nat, x: nat)
    requires Chains(next, prev, heads, lists) && o < |lists|
    requires x < |next| && x < |prev| && !Listed(lists, x)
    ensures heads[o] == NIL || 0 <= heads[o] < |prev|
    ensures Chains(next[x := heads[o]], SetBack(prev, heads[o], x), heads[o := x], lists[o := [x] + lists[o]])
  {
    assert Chain(next, prev, heads[o], lists[o]);
    HeadInRange(next, prev, heads[o], lists[o]);
    ChainPush(next, prev, heads[o], lists[o], x);
    assert forall p :: 0 <= p < |lists| ==> x !in lists[p];
    assert heads[o] != NIL ==> heads[o] in lists[o];
    ChainsReplace(next, prev, next[x := heads[o]], SetBack(prev, heads[o], x), heads, lists, o, x, [x] + lists[o]);
  }

  lemma ChainsPop(next: seq<int>, prev: seq<int>, heads: seq<int>, lists: seq<seq<nat>>, o: nat)
    requires Chains(next, prev, heads, lists) && o < |lists| && |lists[o]| > 0
    ensures heads[o] == lists[o][0] && lists[o][0] < |next|
    ensures Chains(next, prev, heads[o := next[lists[o][0]]], lists[o := lists[o][1..]])
  {
    assert Chain(next, prev, heads[o], lists[o]);
    ChainPop(next, prev, heads[o], lists[o]);
    ChainsReplace(next, prev, next, prev, heads, lists, o, next[lists[o][0]], lists[o][1..]);
  }

  lemma ChainsUnlink(next: seq<int>, prev: seq<int>, heads: seq<int>, lists: seq<seq<nat>>, o: nat, k: nat)
    requires Chains(next, prev, heads, lists) && o < |lists| && 0 < k < |lists[o]|
    ensures var l := lists[o];
            && l[k] < |next| && l[k] < |prev|
            && prev[l[k]] == l[k - 1] && l[k - 1] < |next| && next[l[k - 1]] == l[k]
            && next[l[k]] == At(l, k + 1)
            && (k + 1 < |l| ==> l[k + 1] < |prev| && prev[l[k + 1]] == l[k])
            && Chains(next[l[k - 1] := next[l[k]]], SetBack(prev, next[l[k]], l[k - 1]), heads, lists[o := Without(l, k)])
  {
    var l := lists[o];
    assert Chain(next, prev, heads[o], l);
    ChainUnlink(next, prev, heads[o], l, k);
    WithoutMembers(l, k);
    assert l[k - 1] in l && (k + 1 < |l| ==> l[k + 1] in l);
    ChainsReplace(next, prev, next[l[k - 1] := next[l[k]]], SetBack(prev, next[l[k]], l[k - 1]),
                  heads, lists, o, heads[o], Without(l, k));
    assert heads[o := heads[o]] == heads;
  }

  lemma PopNext(next: seq<int>, prev: seq<int>, heads: seq<int>, lists: seq<seq<nat>>, o: nat)
    requires Chains(next, prev, heads, lists) && o < |lists| && |lists[o]| > 0
    ensures lists[o][0] < |next| && next[lists[o][0]] == At(lists[o], 1)
    ensures next[lists[o][0]] == NIL || 0 <= next[lists[o][0]] < |next|
  {
    assert Chain(next, prev, heads[o], lists[o]);
    NextInRange(next, prev, heads[o], lists[o], 0);
  }

  lemma UnlistedWrite(next: seq<int>, prev: seq<int>, heads: seq<int>, lists: seq<seq<nat>>, x: nat, to: int)
    requires Chains(next, prev, heads, lists) && x < |next| && !Listed(lists, x)
    ensures Chains(next[x := to], prev, heads, lists)
  {
    ChainsFrame(next, prev, next[x := to], prev, heads, lists);
  }

  lemma UnlistedWriteBack(next: seq<int>, prev: seq<int>, heads: seq<int>, lists: seq<seq<nat>>, x: nat, to: int)
    requires Chains(next, prev, heads, lists) && x < |prev| && !Listed(lists, x)
    ensures Chains(next, prev[x := to], heads, lists)
  {
    ChainsFrame(next, prev, next, prev[x := to], heads, lists);
  }

  // ---- lists whose head points back to nothing ----

  ghost predicate HeadsBack(prev: seq<int>, heads: seq<int>)
  {
    forall o :: 0 <= o < |heads| && heads[o] != NIL ==> 0 <= heads[o] < |prev| && prev[heads[o]] == NIL
  }

  /** A table of lists, every head of which has a null back link. */
  ghost predicate Threaded(next: seq<int>, prev: seq<int>, heads: seq<int>, lists: seq<seq<nat>>)
  {
    Chains(next, prev, heads, lists) && HeadsBack(prev, heads)
  }

  lemma HeadListed(next: seq<int>, prev: seq<int>, heads: seq<int>, lists: seq<seq<nat>>, o: nat)
    requires Chains(next, prev, heads, lists) && o < |lists|
    ensures heads[o] == At(lists[o], 0)
    ensures heads[o] != NIL ==> heads[o] in lists[o] && Listed(lists, heads[o])
  {
    assert Chain(next, prev, heads[o], lists[o]);
  }

  /** The head's back link may be rewritten. */
  lemma ChainsHeadBack(next: seq<int>, prev: seq<int>, heads: seq<int>, lists: seq<seq<nat>>, o: nat, to: int)
    requires Chains(next, prev, heads, lists) && o < |lists| && heads[o] != NIL
    ensures 0 <= heads[o] < |prev| && Chains(next, prev[heads[o] := to], heads, lists)
  {
    var l := lists[o];
    assert Chain(next, prev, heads[o], l);
    HeadInRange(next, prev, heads[o], l);
    var prev' := prev[heads[o] := to];
    forall i | 0 <= i < |l|
      ensures LinkedAt(next, prev', l, i)
    {
      assert LinkedAt(next, prev, l, i);
    }
    ChainsReplace(next, prev, next, prev', heads, lists, o, heads[o], l);
    assert heads[o := heads[o]] == heads && lists[o := l] == lists;
  }

  lemma ThreadedPush(next: seq<int>, prev: seq<int>, heads: seq<int>, lists: seq<seq<nat>>, o: nat, x: nat)
    requires Threaded(next, prev, heads, lists) && o < |lists| && x < |next| && x < |prev| && !Listed(lists, x)
    ensures heads[o] == NIL || (0 <= heads[o] < |prev| && heads[o] != x)
    ensures Threaded(next[x := heads[o]], SetBack(prev[x := NIL], heads[o], x), heads[o := x], lists[o := [x] + lists[o]])
  {
    var h := heads[o];
    UnlistedWriteBack(next, prev, heads, lists, x, NIL);
    ChainsPush(next, prev[x := NIL], heads, lists, o, x);
    HeadListed(next, prev, heads, lists, o);
    var prev', heads' := SetBack(prev[x := NIL], h, x), heads[o := x];
    hide Chain;
    forall p | 0 <= p < |heads'| && heads'[p] != NIL
      ensures 0 <= heads'[p] < |prev'| && prev'[heads'[p]] == NIL
    {
      HeadListed(next, prev, heads, lists, p);
    }
  }

  lemma ThreadedPop(next: seq<int>, prev: seq<int>, heads: seq<int>, lists: seq<seq<nat>>, o: nat)
    requires Threaded(next, prev, heads, lists) && o < |lists| && lists[o] != []
    ensures heads[o] == lists[o][0] && lists[o][0] < |next| && lists[o][0] < |prev| && prev[lists[o][0]] == NIL
    ensures var nx := next[lists[o][0]];
            && nx == At(lists[o], 1) && (nx == NIL || 0 <= nx < |prev|)
            && Threaded(next, SetBack(prev, nx, NIL), heads[o := nx], lists[o := lists[o][1..]])
  {
    ChainsPop(next, prev, heads, lists, o);
    PopNext(next, prev, heads, lists, o);
    HeadListed(next, prev, heads, lists, o);
    var nx := next[lists[o][0]];
    var heads', lists' := heads[o := nx], lists[o := lists[o][1..]];
    if nx != NIL {
      ChainsHeadBack(next, prev, heads', lists', o, NIL);
    }
    hide Chain;
    var prev' := SetBack(prev, nx, NIL);
    forall p | 0 <= p < |heads'| && heads'[p] != NIL
      ensures 0 <= heads'[p] < |prev'| && prev'[heads'[p]] == NIL
    {
      assert p != o ==> heads'[p] == heads[p];
    }
  }

  lemma ThreadedUnlink(next: seq<int>, prev: seq<int>, heads: seq<int>, lists: seq<seq<nat>>, o: nat, k: nat)
    requires Threaded(next, prev, heads, lists) && o < |lists| && 0 < k < |lists[o]|
    ensures var l := lists[o];
            && l[k] < |next| && l[k] < |prev|
            && prev[l[k]] == l[k - 1] && l[k - 1] < |next|
            && next[l[k]] == At(l, k + 1) && (next[l[k]] == NIL || 0 <= next[l[k]] < |prev|)
            && Threaded(next[l[k - 1] := next[l[k]]], SetBack(prev, next[l[k]], l[k - 1]), heads, lists[o := Without(l, k)])
  {
    ChainsUnlink(next, prev, heads, lists, o, k);
    var l := lists[o];
    var nx := next[l[k]];
    assert nx != NIL ==> nx in l && nx != l[0] by {
      assert Chain(next, prev, heads[o], l);
    }
    var prev' := SetBack(prev, nx, l[k - 1]);
    forall p | 0 <= p < |heads| && heads[p] != NIL
      ensures 0 <= heads[p] < |prev'| && prev'[heads[p]] == NIL
    {
      HeadListed(next, prev, heads, lists, p);
    }
  }

  /** A table whose only list, `o`, holds the single node 0. */
  lemma ChainsSingle(next: seq<int>, prev: seq<int>, heads: seq<int>, lists: seq<seq<nat>>, o: nat)
    requires |heads| == |lists| && |next| > 0 && |prev| > 0 && next[0] == NIL && o < |heads|
    requires heads[o] == 0 && lists[o] == [0]
    requires forall p :: 0 <= p < |lists| && p != o ==> heads[p] == NIL && lists[p] == []
    ensures Chains(next, prev, heads, lists)
  {
    assert LinkedAt(next, prev, lists[o], 0);
  }

  lemma ChainsEmpty(next: seq<int>, prev: seq<int>, heads: seq<int>, lists: seq<seq<nat>>)
    requires |heads| == |lists|
    requires forall p :: 0 <= p < |lists| ==> heads[p] == NIL && lists[p] == []
    ensures Chains(next, prev, heads, lists)
  {
  }

  function Filled<T>(n: nat, v: T): (s: seq<T>)
    ensures |s| == n && forall i :: 0 <= i < n ==> s[i] == v
  {
    seq(n, _ => v)
  }

  method NewFilled(n: nat, v: int) returns (a: array<int>)
    ensures fresh(a) && a.Length == n && a[..] == Filled(n, v)
  {
    a := new int[n];
    var i := 0;
    while i < n
      invariant 0 <= i <= n
      invariant forall j :: 0 <= j < i ==> a[j] == v
    {
      a[i] := v;
      i := i + 1;
    }
  }
}
