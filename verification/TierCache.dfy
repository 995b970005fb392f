/** The per-tier free cache: freed blocks parked in slots, still allocated as far as their book knows. */
module TierCache {

  /** A parked block's address and the size recorded for it. */
  datatype Parked = Parked(addr: nat, size: nat)

  // ---- what the cache's edits mean ----

  /** The last entry of at least sz bytes, or -1. */
  function LastFit(s: seq<Parked>, sz: nat): (hit: int)
    ensures -1 <= hit < |s|
    ensures hit >= 0 ==> s[hit].size >= sz
    ensures forall i :: hit < i < |s| ==> s[i].size < sz
  {
    if s == [] then -1
    else if s[|s| - 1].size >= sz then |s| - 1
    else LastFit(s[..|s| - 1], sz)
  }

  /** The last entry of exactly sz bytes, or -1. */
  function LastExact(s: seq<Parked>, sz: nat): (hit: int)
    ensures -1 <= hit < |s|
    ensures hit >= 0 ==> s[hit].size == sz
    ensures forall i :: hit < i < |s| ==> s[i].size != sz
  {
    if s == [] then -1
    else if s[|s| - 1].size == sz then |s| - 1
    else LastExact(s[..|s| - 1], sz)
  }

  predicate Holds(s: seq<Parked>, addr: nat)
  {
    exists i :: 0 <= i < |s| && s[i].addr == addr
  }

  ghost function Addrs(s: seq<Parked>): (r: set<nat>)
    ensures forall a :: a in r <==> Holds(s, a)
  {
    set i | 0 <= i < |s| :: s[i].addr
  }

  ghost predicate Distinct(s: seq<Parked>)
  {
    forall i, j :: 0 <= i < |s| && 0 <= j < |s| && s[i].addr == s[j].addr ==> i == j
  }

  /** Entry i goes and the last entry takes its slot. */
  function SwapRemove(s: seq<Parked>, i: nat): seq<Parked>
    requires i < |s|
  {
    if i == |s| - 1 then s[..i] else s[..|s| - 1][i := s[|s| - 1]]
  }

  /** The entries whose address lies outside [lo, hi), in order. */
  function Outside(s: seq<Parked>, lo: nat, hi: nat): (r: seq<Parked>)
    ensures |r| <= |s|
  {
    if s == [] then []
    else
      var l := s[|s| - 1];
      var r := Outside(s[..|s| - 1], lo, hi);
      if lo <= l.addr < hi then r else r + [l]
  }

  lemma {:induction false} OutsideMembers(s: seq<Parked>, lo: nat, hi: nat)
    ensures forall e :: e in Outside(s, lo, hi) <==> e in s && !(lo <= e.addr < hi)
  {
    if s != [] {
      OutsideMembers(s[..|s| - 1], lo, hi);
      assert s == s[..|s| - 1] + [s[|s| - 1]];
    }
  }

  lemma OutsideStep(s: seq<Parked>, r: nat, lo: nat, hi: nat)
    requires r < |s|
    ensures var front := Outside(s[..r], lo, hi);
            Outside(s[..r + 1], lo, hi) == if lo <= s[r].addr < hi then front else front + [s[r]]
  {
    assert s[..r + 1][..r] == s[..r];
  }

  lemma SwapRemoveBag(s: seq<Parked>, i: nat)
    requires i < |s|
    ensures multiset(SwapRemove(s, i)) == multiset(s) - multiset{s[i]}
  {
    assert s == s[..|s| - 1] + [s[|s| - 1]];
    if i < |s| - 1 {
      var front := s[..|s| - 1];
      assert front == front[..i] + [s[i]] + front[i + 1..];
      assert SwapRemove(s, i) == front[..i] + [s[|s| - 1]] + front[i + 1..];
    }
  }

  /** Taking an entry out of a cache of distinct blocks takes exactly that block out. */
  lemma SwapRemoveAddrs(s: seq<Parked>, i: nat)
    requires Distinct(s) && i < |s|
    ensures Distinct(SwapRemove(s, i))
    ensures Addrs(SwapRemove(s, i)) == Addrs(s) - {s[i].addr}
    ensures forall e :: e in SwapRemove(s, i) ==> e in s
  {
    var t := SwapRemove(s, i);
    forall a | a in Addrs(s) && a != s[i].addr
      ensures a in Addrs(t)
    {
      var k :| 0 <= k < |s| && s[k].addr == a;
      assert t[if k == |s| - 1 then i else k].addr == a;
    }
  }

  lemma {:induction false} OutsideDistinct(s: seq<Parked>, lo: nat, hi: nat)
    requires Distinct(s)
    ensures Distinct(Outside(s, lo, hi))
  {
    if s != [] {
      var l := s[|s| - 1];
      OutsideDistinct(s[..|s| - 1], lo, hi);
      var r := Outside(s[..|s| - 1], lo, hi);
      OutsideMembers(s[..|s| - 1], lo, hi);
      forall i | 0 <= i < |r|
        ensures r[i].addr != l.addr
      {
        assert r[i] in s[..|s| - 1];
      }
    }
  }

  lemma OutsideNone(lo: nat, hi: nat)
    ensures Outside([], lo, hi) == []
  {
  }

  class Cache {
    const slots: nat
    var sizes: array<nat>
    var ptrs: array<nat>
    var count: nat

    ghost predicate Valid()
      reads this
    {
      sizes.Length == ptrs.Length == slots && count <= slots && sizes != ptrs
    }

    ghost function Contents(): (s: seq<Parked>)
      requires Valid()
      reads this, sizes, ptrs
      ensures |s| == count
    {
      seq(count, i requires 0 <= i < count reads this, sizes, ptrs requires Valid() => Parked(ptrs[i], sizes[i]))
    }

    constructor (slots: nat)
      ensures Valid() && fresh(sizes) && fresh(ptrs) && this.slots == slots && Contents() == []
    {
      this.slots := slots;
      sizes := new nat[slots](_ => 0);
      ptrs := new nat[slots](_ => 0);
      count := 0;
    }

    method Probe(sz: nat) returns (hit: int)
      requires Valid()
      ensures hit == LastExact(Contents(), sz)
    {
      var i := count;
      while i > 0
        invariant 0 <= i <= count
        invariant LastExact(Contents(), sz) == LastExact(Contents()[..i], sz)
      {
        assert Contents()[..i][..i - 1] == Contents()[..i - 1];
        if sizes[i - 1] == sz {
          return i - 1;
        }
        i := i - 1;
      }
      return -1;
    }

    method ProbeGe(sz: nat) returns (hit: int)
      requires Valid()
      ensures hit == LastFit(Contents(), sz)
    {
      var i := count;
      while i > 0
        invariant 0 <= i <= count
        invariant LastFit(Contents(), sz) == LastFit(Contents()[..i], sz)
      {
        assert Contents()[..i][..i - 1] == Contents()[..i - 1];
        if sizes[i - 1] >= sz {
          return i - 1;
        }
        i := i - 1;
      }
      return -1;
    }

    method Push(addr: nat, size: nat) returns (ok: bool)
      requires Valid()
      modifies this`count, sizes, ptrs
      ensures Valid() && ok == (old(count) < slots)
      ensures Contents() == if ok then old(Contents()) + [Parked(addr, size)] else old(Contents())
    {
      if count >= slots {
        return false;
      }
      ptrs[count] := addr;
      sizes[count] := size;
      count := count + 1;
      return true;
    }

    method Contains(addr: nat) returns (b: bool)
      requires Valid()
      ensures b <==> Holds(Contents(), addr)
    {
      for i := 0 to count
        invariant forall k :: 0 <= k < i ==> Contents()[k].addr != addr
      {
        assert Contents()[i].addr == ptrs[i];
        if ptrs[i] == addr {
          return true;
        }
      }
      return false;
    }

    method PopAt(idx: nat) returns (out: Parked)
      requires Valid() && idx < count
      modifies this`count, sizes, ptrs
      ensures Valid() && out == old(Contents())[idx]
      ensures Contents() == SwapRemove(old(Contents()), idx)
    {
      out := Parked(ptrs[idx], sizes[idx]);
      count := count - 1;
      if idx != count {
        ptrs[idx] := ptrs[count];
        sizes[idx] := sizes[count];
      }
    }

    /** Drops what is parked in [lo, hi), compacting the rest in place and in order. */
    method InvalidateRange(lo: nat, hi: nat)
      requires Valid()
      modifies this`count, sizes, ptrs
      ensures Valid() && Contents() == Outside(old(Contents()), lo, hi)
    {
      hide Outside;
      ghost var was := Contents();
      var w := 0;
      var r := 0;
      assert Contents()[..w] == Outside(was[..r], lo, hi) by {
        OutsideNone(lo, hi);
      }
      while r < count
        invariant w <= r <= count == |was|
        invariant Contents()[r..] == was[r..]
        invariant Contents()[..w] == Outside(was[..r], lo, hi)
      {
        OutsideStep(was, r, lo, hi);
        assert Contents()[r] == Contents()[r..][0] == was[r];
        if ptrs[r] < lo || ptrs[r] >= hi {
          ghost var front, back := Contents()[..w], Contents()[r + 1..];
          if w != r {
            ptrs[w] := ptrs[r];
            sizes[w] := sizes[r];
          }
          assert Contents()[..w + 1] == front + [was[r]];
          assert Contents()[r + 1..] == back;
          w := w + 1;
        }
        r := r + 1;
      }
      assert was[..r] == was;
      assert Contents()[..w] == Outside(was, lo, hi);
      count := w;
    }

    /** Empties the cache, handing every entry on. */
    method Drain() returns (out: seq<Parked>)
      requires Valid()
      modifies this`count
      ensures Valid() && out == old(Contents()) && Contents() == []
    {
      out := [];
      var i := 0;
      while i < count
        invariant 0 <= i <= count && out == Contents()[..i]
      {
        out := out + [Parked(ptrs[i], sizes[i])];
        i := i + 1;
      }
      count := 0;
    }
  }
}
