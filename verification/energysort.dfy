/** The planner's first step, `[...songs].sort((a, b) => a.energy - b.energy)`:
    a stable sort by ascending energy, modelled as insertion sort. */
module EnergySort {
  import opened Songs

  predicate SortedByEnergy(s: seq<Song>)
  {
    forall i, j :: 0 <= i < j < |s| ==> s[i].energy <= s[j].energy
  }

  /** The songs of `s` whose energy is `e`, in their order in `s`. */
  function WithEnergy(s: seq<Song>, e: real): seq<Song>
  {
    if |s| == 0 then []
    else (if s[0].energy == e then [s[0]] else []) + WithEnergy(s[1..], e)
  }

  /** Places `x` before the first song at least as energetic. */
  function Insert(x: Song, s: seq<Song>): (r: seq<Song>)
    ensures |r| == |s| + 1 && (r[0] == x || (|s| > 0 && r[0] == s[0]))
  {
    if |s| == 0 || x.energy <= s[0].energy then [x] + s
    else [s[0]] + Insert(x, s[1..])
  }

  /** Insertion adds exactly `x` to the songs. */
  lemma {:induction false} InsertPermutes(x: Song, s: seq<Song>)
    ensures multiset(Insert(x, s)) == multiset(s) + multiset{x}
    decreases |s|
  {
    if |s| > 0 && x.energy > s[0].energy {
      InsertPermutes(x, s[1..]);
      MultisetSplit(s);
    }
  }

  lemma MultisetSplit(s: seq<Song>)
    requires |s| > 0
    ensures multiset(s) == multiset{s[0]} + multiset(s[1..])
  {
    assert s == [s[0]] + s[1..];
  }

  /** The songs insertion passes over are all less energetic than `x`, so a
      sorted list stays sorted. */
  lemma {:induction false} InsertSorted(x: Song, s: seq<Song>)
    requires SortedByEnergy(s)
    ensures SortedByEnergy(Insert(x, s))
    decreases |s|
  {
    if |s| > 0 && x.energy > s[0].energy {
      var t := Insert(x, s[1..]);
      InsertSorted(x, s[1..]);
      assert forall j :: 0 <= j < |t| ==> s[0].energy <= t[j].energy by {
        InsertPermutes(x, s[1..]);
        forall j | 0 <= j < |t|
          ensures s[0].energy <= t[j].energy
        {
          if j > 0 {
            assert t[0].energy <= t[j].energy;
          }
        }
      }
    }
  }

  function SortByEnergy(s: seq<Song>): (r: seq<Song>)
    ensures SortedByEnergy(r)
    ensures multiset(r) == multiset(s) && |r| == |s|
  {
    if |s| == 0 then []
    else
      var t := SortByEnergy(s[1..]);
      var r := Insert(s[0], t);
      assert SortedByEnergy(r) by { InsertSorted(s[0], t); }
      assert multiset(r) == multiset(s) by {
        InsertPermutes(s[0], t);
        MultisetSplit(s);
      }
      r
  }

  lemma {:induction false} InsertWithEnergy(x: Song, s: seq<Song>, e: real)
    ensures WithEnergy(Insert(x, s), e)
              == (if x.energy == e then [x] else []) + WithEnergy(s, e)
    decreases |s|
  {
    if |s| == 0 || x.energy <= s[0].energy {
      WithEnergyCons(x, s, e);
    } else {
      InsertWithEnergy(x, s[1..], e);
      InsertWithEnergyStep(x, s, e);
    }
  }

  /** The step of `InsertWithEnergy` past a less energetic first song. */
  lemma InsertWithEnergyStep(x: Song, s: seq<Song>, e: real)
    requires |s| > 0 && x.energy > s[0].energy
    requires WithEnergy(Insert(x, s[1..]), e)
               == (if x.energy == e then [x] else []) + WithEnergy(s[1..], e)
    ensures WithEnergy(Insert(x, s), e)
              == (if x.energy == e then [x] else []) + WithEnergy(s, e)
  {
    var r := Insert(x, s);
    assert r[0] == s[0] && r[1..] == Insert(x, s[1..]);
    if x.energy == e {
      // s[0] is less energetic than x, so neither list keeps it.
      assert WithEnergy(r, e) == WithEnergy(Insert(x, s[1..]), e);
      assert WithEnergy(s, e) == WithEnergy(s[1..], e);
    } else {
      var p := if s[0].energy == e then [s[0]] else [];
      assert WithEnergy(r, e) == p + WithEnergy(Insert(x, s[1..]), e);
      assert WithEnergy(Insert(x, s[1..]), e) == WithEnergy(s[1..], e) by {
        assert [] + WithEnergy(s[1..], e) == WithEnergy(s[1..], e);
      }
      assert WithEnergy(s, e) == p + WithEnergy(s[1..], e);
      assert [] + WithEnergy(s, e) == WithEnergy(s, e);
    }
  }

  lemma WithEnergyCons(h: Song, t: seq<Song>, e: real)
    ensures WithEnergy([h] + t, e) == (if h.energy == e then [h] else []) + WithEnergy(t, e)
  {
    assert ([h] + t)[1..] == t;
  }

  /** Stability: among songs of equal energy the sort keeps the input order.
      With sortedness and the multiset equality this pins the result down
      uniquely. */
  lemma {:induction false} SortIsStable(s: seq<Song>, e: real)
    ensures WithEnergy(SortByEnergy(s), e) == WithEnergy(s, e)
  {
    if |s| > 0 {
      SortIsStable(s[1..], e);
      InsertWithEnergy(s[0], SortByEnergy(s[1..]), e);
    }
  }

  /** The first song of the sorted list has the least energy of the input. */
  lemma SortedFirstIsLeast(s: seq<Song>)
    requires |s| > 0
    ensures forall j :: 0 <= j < |s| ==> SortByEnergy(s)[0].energy <= s[j].energy
  {
    var r := SortByEnergy(s);
    forall j | 0 <= j < |s|
      ensures r[0].energy <= s[j].energy
    {
      assert s[j] in multiset(s);
      assert s[j] in multiset(r);
      var i :| 0 <= i < |r| && r[i] == s[j];
      if i > 0 {
        assert r[0].energy <= r[i].energy;
      }
    }
  }
}
