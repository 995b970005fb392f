/** The TLSF book's two bitmap levels over its 416 lists. */
module TlsfBitmaps {
  import opened Powers
  import opened Words
  import opened TlsfMapping

  const MAP_BITS: nat := 32

  /** Bit j of a row's word says whether list j of that row is nonempty. */
  ghost predicate RowOk(w: nat, lists: seq<seq<nat>>, fi: nat)
    requires |lists| == LISTS && fi < FL_COUNT
  {
    && Fits(w, MAP_BITS)
    && forall j :: 0 <= j < MAP_BITS ==> (BitAt(w, j) <==> j < SL_COUNT && lists[Idx(fi, j)] != [])
  }

  /** Bit f of the first level says whether row f's word is nonzero. */
  ghost predicate LevelOk(fl: nat, sl: seq<nat>)
  {
    && |sl| == FL_COUNT && Fits(fl, MAP_BITS)
    && forall f :: 0 <= f < MAP_BITS ==> (BitAt(fl, f) <==> f < FL_COUNT && sl[f] != 0)
  }

  ghost predicate BitsOk(fl: nat, sl: seq<nat>, lists: seq<seq<nat>>)
  {
    && |lists| == LISTS && LevelOk(fl, sl)
    && forall f :: 0 <= f < FL_COUNT ==> RowOk(sl[f], lists, f)
  }

  lemma RowEmpty(w: nat, lists: seq<seq<nat>>, fi: nat)
    requires |lists| == LISTS && fi < FL_COUNT && RowOk(w, lists, fi)
    ensures w == 0 <==> forall j :: 0 <= j < SL_COUNT ==> lists[Idx(fi, j)] == []
  {
    if w == 0 {
      forall j | 0 <= j < SL_COUNT
        ensures lists[Idx(fi, j)] == []
      {
        ZeroBit(j);
      }
    } else if forall j :: 0 <= j < SL_COUNT ==> lists[Idx(fi, j)] == [] {
      NoBits(w, MAP_BITS);
      assert false;
    }
  }

  lemma RowFrame(w: nat, lists: seq<seq<nat>>, fi: nat, f: nat, s: nat, l: seq<nat>)
    requires |lists| == LISTS && fi < FL_COUNT && f < FL_COUNT && s < SL_COUNT && fi != f
    requires RowOk(w, lists, fi)
    ensures RowOk(w, lists[Idx(f, s) := l], fi)
  {
    assert forall j :: 0 <= j < SL_COUNT ==> Idx(fi, j) != Idx(f, s);
  }

  lemma RowKeep(w: nat, lists: seq<seq<nat>>, f: nat, s: nat, l: seq<nat>)
    requires |lists| == LISTS && f < FL_COUNT && s < SL_COUNT && RowOk(w, lists, f)
    requires l == [] <==> lists[Idx(f, s)] == []
    ensures RowOk(w, lists[Idx(f, s) := l], f)
  {
    assert forall j :: 0 <= j < SL_COUNT && j != s ==> Idx(f, j) != Idx(f, s);
  }

  lemma RowFill(w: nat, lists: seq<seq<nat>>, f: nat, s: nat, l: seq<nat>)
    requires |lists| == LISTS && f < FL_COUNT && s < SL_COUNT && RowOk(w, lists, f) && l != []
    ensures RowOk(Set(w, s, MAP_BITS), lists[Idx(f, s) := l], f) && Set(w, s, MAP_BITS) != 0
  {
    assert forall j :: 0 <= j < SL_COUNT && j != s ==> Idx(f, j) != Idx(f, s);
    ZeroBit(s);
    assert BitAt(Set(w, s, MAP_BITS), s);
  }

  lemma RowDrain(w: nat, lists: seq<seq<nat>>, f: nat, s: nat)
    requires |lists| == LISTS && f < FL_COUNT && s < SL_COUNT && RowOk(w, lists, f)
    ensures RowOk(Clear(w, s, MAP_BITS), lists[Idx(f, s) := []], f)
  {
    assert forall j :: 0 <= j < SL_COUNT && j != s ==> Idx(f, j) != Idx(f, s);
  }

  lemma LevelFill(fl: nat, sl: seq<nat>, f: nat, w: nat)
    requires LevelOk(fl, sl) && f < FL_COUNT && w != 0
    ensures LevelOk(Set(fl, f, MAP_BITS), sl[f := w])
  {
  }

  lemma LevelDrain(fl: nat, sl: seq<nat>, f: nat, w: nat)
    requires LevelOk(fl, sl) && f < FL_COUNT && (w != 0 ==> sl[f] != 0)
    ensures LevelOk(if w == 0 then Clear(fl, f, MAP_BITS) else fl, sl[f := w])
  {
  }

  /** A list that was replaced without changing emptiness. */
  lemma BitsKeep(fl: nat, sl: seq<nat>, lists: seq<seq<nat>>, f: nat, s: nat, l: seq<nat>)
    requires BitsOk(fl, sl, lists) && f < FL_COUNT && s < SL_COUNT
    requires l == [] <==> lists[Idx(f, s)] == []
    ensures BitsOk(fl, sl, lists[Idx(f, s) := l])
  {
    assert |sl| == FL_COUNT;
    hide RowOk, LevelOk, Idx;
    assert Idx(f, s) < LISTS by {
      IdxRange(f, s);
    }
    forall g | 0 <= g < FL_COUNT
      ensures RowOk(sl[g], lists[Idx(f, s) := l], g)
    {
      if g == f {
        RowKeep(sl[g], lists, f, s, l);
      } else {
        RowFrame(sl[g], lists, g, f, s, l);
      }
    }
  }

  lemma IdxRange(f: nat, s: nat)
    requires f < FL_COUNT && s < SL_COUNT
    ensures Idx(f, s) < LISTS
  {
  }

  /** sl[f] |= 1 << s; fl |= 1 << f: right once list (f, s) has become nonempty. */
  lemma BitsFill(fl: nat, sl: seq<nat>, lists: seq<seq<nat>>, f: nat, s: nat, l: seq<nat>)
    requires BitsOk(fl, sl, lists) && f < FL_COUNT && s < SL_COUNT && l != []
    ensures Fits(sl[f], MAP_BITS) && Fits(fl, MAP_BITS) && Idx(f, s) < LISTS
    ensures BitsOk(Set(fl, f, MAP_BITS), sl[f := Set(sl[f], s, MAP_BITS)], lists[Idx(f, s) := l])
  {
    assert RowOk(sl[f], lists, f);
    RowFill(sl[f], lists, f, s, l);
    LevelFill(fl, sl, f, Set(sl[f], s, MAP_BITS));
    hide RowOk, LevelOk, Idx, Set;
    forall g | 0 <= g < FL_COUNT && g != f
      ensures RowOk(sl[g], lists[Idx(f, s) := l], g)
    {
      RowFrame(sl[g], lists, g, f, s, l);
    }
  }

  /** The bitmaps after list (f, s) ran empty. */
  lemma BitsDrain(fl: nat, sl: seq<nat>, lists: seq<seq<nat>>, f: nat, s: nat)
    requires BitsOk(fl, sl, lists) && f < FL_COUNT && s < SL_COUNT
    ensures Fits(sl[f], MAP_BITS) && Fits(fl, MAP_BITS) && Idx(f, s) < LISTS
    ensures var w := Clear(sl[f], s, MAP_BITS);
            BitsOk(if w == 0 then Clear(fl, f, MAP_BITS) else fl, sl[f := w], lists[Idx(f, s) := []])
  {
    assert RowOk(sl[f], lists, f);
    var w := Clear(sl[f], s, MAP_BITS);
    RowDrain(sl[f], lists, f, s);
    if w != 0 {
      AndFits(sl[f], Not(Pow2(s), MAP_BITS));
    }
    assert w != 0 ==> sl[f] != 0;
    LevelDrain(fl, sl, f, w);
    hide RowOk, LevelOk, Idx, Clear;
    forall g | 0 <= g < FL_COUNT && g != f
      ensures RowOk(sl[g], lists[Idx(f, s) := []], g)
    {
      RowFrame(sl[g], lists, g, f, s, []);
    }
  }

  // ---- scanning ----

  /** sl & (~0 << si) and its lowest bit. */
  lemma ScanRow(w: nat, lists: seq<seq<nat>>, fi: nat, si: nat)
    requires |lists| == LISTS && fi < FL_COUNT && si < SL_COUNT && RowOk(w, lists, fi)
    ensures Fits(w, MAP_BITS)
    ensures var bits := Above(w, si, MAP_BITS);
            if bits == 0 then
              forall j :: si <= j < SL_COUNT ==> lists[Idx(fi, j)] == []
            else
              && si <= Ctz(bits) < SL_COUNT && lists[Idx(fi, Ctz(bits))] != []
              && forall j :: si <= j < Ctz(bits) ==> lists[Idx(fi, j)] == []
  {
    var bits := Above(w, si, MAP_BITS);
    if bits == 0 {
      forall j | si <= j < SL_COUNT
        ensures lists[Idx(fi, j)] == []
      {
        ZeroBit(j);
        assert BitAt(bits, j) <==> BitAt(w, j);
      }
    } else {
      CtzBound(bits, MAP_BITS);
      assert BitAt(bits, Ctz(bits));
      forall j | si <= j < Ctz(bits)
        ensures lists[Idx(fi, j)] == []
      {
        assert !BitAt(bits, j);
      }
    }
  }

  /** Every list of the rows after `fi`, up to row g, is empty. */
  ghost predicate RowsEmpty(lists: seq<seq<nat>>, fi: nat, g: nat)
  {
    forall c :: Idx(fi + 1, 0) <= c < Idx(g, 0) && c < |lists| ==> lists[c] == []
  }

  lemma RowsFromWords(sl: seq<nat>, lists: seq<seq<nat>>, fi: nat, g: nat)
    requires |lists| == LISTS && |sl| == FL_COUNT && g <= FL_COUNT
    requires forall f :: 0 <= f < FL_COUNT ==> RowOk(sl[f], lists, f)
    requires forall f :: fi < f < g ==> sl[f] == 0
    ensures RowsEmpty(lists, fi, g)
  {
    hide RowOk;
    forall c | Idx(fi + 1, 0) <= c < Idx(g, 0) && c < |lists|
      ensures lists[c] == []
    {
      var f, j := c / SL_COUNT, c % SL_COUNT;
      assert c == Idx(f, j) && fi < f < g;
      RowEmpty(sl[f], lists, f);
    }
  }

  /** fl & (~0 << (fi + 1)) and its lowest bit. */
  lemma ScanLevel(fl: nat, sl: seq<nat>, lists: seq<seq<nat>>, fi: nat)
    requires BitsOk(fl, sl, lists) && fi < FL_COUNT
    ensures Fits(fl, MAP_BITS)
    ensures var bits := Above(fl, fi + 1, MAP_BITS);
            if bits == 0 then RowsEmpty(lists, fi, FL_COUNT)
            else fi < Ctz(bits) < FL_COUNT && sl[Ctz(bits)] != 0 && RowsEmpty(lists, fi, Ctz(bits))
  {
    hide RowOk;
    var bits := Above(fl, fi + 1, MAP_BITS);
    if bits == 0 {
      forall f | fi < f < FL_COUNT
        ensures sl[f] == 0
      {
        ZeroBit(f);
        assert BitAt(bits, f) <==> BitAt(fl, f);
      }
      RowsFromWords(sl, lists, fi, FL_COUNT);
    } else {
      CtzBound(bits, MAP_BITS);
      assert BitAt(bits, Ctz(bits));
      forall f | fi < f < Ctz(bits)
        ensures sl[f] == 0
      {
        assert !BitAt(bits, f);
      }
      RowsFromWords(sl, lists, fi, Ctz(bits));
    }
  }

  lemma LowestOfRow(w: nat, lists: seq<seq<nat>>, fi: nat)
    requires |lists| == LISTS && fi < FL_COUNT && RowOk(w, lists, fi) && w != 0
    ensures Ctz(w) < SL_COUNT && lists[Idx(fi, Ctz(w))] != []
    ensures forall j :: 0 <= j < Ctz(w) ==> lists[Idx(fi, j)] == []
  {
    CtzBound(w, MAP_BITS);
  }

  /** No list of class `from` up to (not including) `to` holds a block. */
  ghost predicate NoneBetween(lists: seq<seq<nat>>, from: nat, to: nat)
  {
    forall c :: from <= c < to && c < |lists| ==> lists[c] == []
  }

  lemma RowThenRows(lists: seq<seq<nat>>, fi: nat, si: nat, g: nat, j: nat)
    requires |lists| == LISTS && si < SL_COUNT && fi < g <= FL_COUNT && (g == FL_COUNT ==> j == 0) && j < SL_COUNT
    requires forall k :: si <= k < SL_COUNT ==> lists[Idx(fi, k)] == []
    requires RowsEmpty(lists, fi, g)
    requires forall k :: 0 <= k < j ==> lists[Idx(g, k)] == []
    ensures NoneBetween(lists, Idx(fi, si), Idx(g, j))
  {
    forall c | Idx(fi, si) <= c < Idx(g, j) && c < |lists|
      ensures lists[c] == []
    {
      var f, k := c / SL_COUNT, c % SL_COUNT;
      assert c == Idx(f, k);
      if f == fi {
        assert si <= k;
      } else if f == g {
        assert k < j;
      } else {
        assert Idx(fi + 1, 0) <= c < Idx(g, 0);
      }
    }
  }

  lemma RowNone(lists: seq<seq<nat>>, fi: nat, si: nat, j: nat)
    requires |lists| == LISTS && fi < FL_COUNT && si <= j < SL_COUNT
    requires forall k :: si <= k < j ==> lists[Idx(fi, k)] == []
    ensures NoneBetween(lists, Idx(fi, si), Idx(fi, j))
  {
    forall c | Idx(fi, si) <= c < Idx(fi, j)
      ensures lists[c] == []
    {
      assert c == Idx(fi, c - Idx(fi, 0));
    }
  }
}
