/** The greedy mix planner: songs are sorted by energy, the least energetic
    opens the mix, and each following song is the remaining candidate with
    the highest compatibility score (the first such on a tie). */
module Planner {
  import opened Wrappers
  import opened Camelot
  import opened Rules
  import opened Songs
  import opened EnergySort

  /** Tempo closeness: 5, 3, 1 or 0 points for a BPM difference of at most
      5, at most 10, at most 20, or more. */
  function BpmBonus(diff: int): (r: nat)
    ensures r == 0 || r == 1 || r == 3 || r == 5
  {
    var d := Abs(diff);
    if d <= 5 then 5 else if d <= 10 then 3 else if d <= 20 then 1 else 0
  }

  /** The bonus never grows as the tempos move apart. */
  lemma BpmBonusMonotone(d1: int, d2: int)
    requires Abs(d1) <= Abs(d2)
    ensures BpmBonus(d1) >= BpmBonus(d2)
  {
  }

  /** The harmonic part of the score: 10 for a perfect match, 8 for an
      energy boost and 6 for a mood change, added up. An energy drop earns
      nothing. */
  function KeyScore(from: Code, to: Code): nat
  {
    (if IsPerfect(from, to) then 10 else 0)
    + (if IsEnergyBoost(from, to) then 8 else 0)
    + (if IsMoodChange(from, to) then 6 else 0)
  }

  /** What the rules add up to on each kind of pair: relative keys collect
      both the perfect and the mood points, a clockwise neighbour both the
      perfect and the boost points, and the wrap from 12 to 1 only the boost
      points, while the wrap from 1 to 12 earns nothing. */
  lemma KeyScoreTable(from: Code, to: Code)
    ensures KeyScore(from, to) ==
      if from == to then 10
      else if from.n == to.n then 16
      else if from.m != to.m then 0
      else if to.n == from.n + 1 then 18
      else if to.n == from.n - 1 then 10
      else if from.n == 12 && to.n == 1 then 8
      else 0
  {
  }

  /** The score `findBestNextSong` gives a candidate after the current song. */
  function Score(current: Song, candidate: Song): (r: nat)
    ensures BpmBonus(current.bpm - candidate.bpm) <= r <= 23
  {
    KeyScore(current.camelotKey, candidate.camelotKey) + BpmBonus(current.bpm - candidate.bpm)
  }

  /** `k` is the position the scan settles on: a highest score, and no
      earlier candidate reaches it. */
  predicate IsBestIndex(current: Song, candidates: seq<Song>, k: int)
  {
    && 0 <= k < |candidates|
    && (forall j :: 0 <= j < |candidates| ==> Score(current, candidates[j]) <= Score(current, candidates[k]))
    && (forall j :: 0 <= j < k ==> Score(current, candidates[j]) < Score(current, candidates[k]))
  }

  /** At most one position is the best one. */
  lemma BestIndexUnique(current: Song, candidates: seq<Song>, k1: int, k2: int)
    requires IsBestIndex(current, candidates, k1) && IsBestIndex(current, candidates, k2)
    ensures k1 == k2
  {
    var s1, s2 := Score(current, candidates[k1]), Score(current, candidates[k2]);
    assert s1 <= s2 && s2 <= s1;
    assert k1 < k2 ==> s1 < s2;
    assert k2 < k1 ==> s2 < s1;
  }

  /** The choice as a function, scanning left to right and moving only on a
      strictly higher score. */
  function BestIndex(current: Song, candidates: seq<Song>): (k: nat)
    requires |candidates| > 0
    ensures IsBestIndex(current, candidates, k)
    decreases |candidates|
  {
    if |candidates| == 1 then 0
    else
      var front := candidates[..|candidates| - 1];
      var k := BestIndex(current, front);
      BestIndexExtend(current, candidates, k);
      if Score(current, candidates[|candidates| - 1]) > Score(current, candidates[k]) then
        |candidates| - 1
      else
        k
  }

  /** Scanning one more candidate: it takes over only with a strictly
      higher score. */
  lemma BestIndexExtend(current: Song, candidates: seq<Song>, k: int)
    requires |candidates| > 1
    requires IsBestIndex(current, candidates[..|candidates| - 1], k)
    ensures var last := |candidates| - 1;
            IsBestIndex(current, candidates,
                        if Score(current, candidates[last]) > Score(current, candidates[k]) then last else k)
  {
    var last := |candidates| - 1;
    var front := candidates[..last];
    var best := Score(current, candidates[k]);
    assert front[k] == candidates[k];
    forall j | 0 <= j < last
      ensures Score(current, candidates[j]) <= best
      ensures j < k ==> Score(current, candidates[j]) < best
    {
      assert front[j] == candidates[j];
    }
  }

  /** `findBestNextSong`: starts from position 0 with score 0 and keeps a
      candidate only when it scores strictly higher, so every candidate
      scoring 0 leaves position 0 chosen. */
  method FindBestNextSong(current: Song, candidates: seq<Song>) returns (index: nat, score: nat)
    requires |candidates| > 0
    ensures IsBestIndex(current, candidates, index)
    ensures index == BestIndex(current, candidates)
    ensures score == Score(current, candidates[index])
  {
    index, score := 0, 0;
    var i := 0;
    while i < |candidates|
      invariant 0 <= i <= |candidates|
      invariant index < |candidates|
      invariant i == 0 ==> index == 0 && score == 0
      invariant i > 0 ==> IsBestIndex(current, candidates[..i], index)
      invariant i > 0 ==> score == Score(current, candidates[index])
    {
      var s := Score(current, candidates[i]);
      if s > score {
        index, score := i, s;
      }
      i := i + 1;
    }
    assert candidates[..|candidates|] == candidates;
    BestIndexUnique(current, candidates, index, BestIndex(current, candidates));
  }

  /** `remaining.splice(k, 1)`: the rest keep their order, so a list in
      energy order stays in energy order. */
  function RemoveAt(s: seq<Song>, k: nat): (r: seq<Song>)
    requires k < |s|
    ensures |r| == |s| - 1
    ensures multiset(r) + multiset{s[k]} == multiset(s)
    ensures forall i :: 0 <= i < |r| ==> r[i] == (if i < k then s[i] else s[i + 1])
  {
    assert s == s[..k] + [s[k]] + s[k + 1..];
    s[..k] + s[k + 1..]
  }

  /** The songs left after a splice are still in energy order. */
  lemma RemoveAtSorted(s: seq<Song>, k: nat)
    requires k < |s| && SortedByEnergy(s)
    ensures SortedByEnergy(RemoveAt(s, k))
  {
    var r := RemoveAt(s, k);
    forall i, j | 0 <= i < j < |r|
      ensures r[i].energy <= r[j].energy
    {
      var i', j' := if i < k then i else i + 1, if j < k then j else j + 1;
      assert r[i] == s[i'] && r[j] == s[j'] && i' < j';
    }
  }

  /** One line of the mix: a song and the category of the transition into it. */
  datatype Entry = Entry(song: Song, transition: Category)

  function SongsOf(es: seq<Entry>): (r: seq<Song>)
    ensures |r| == |es| && forall i :: 0 <= i < |es| ==> r[i] == es[i].song
  {
    seq(|es|, i requires 0 <= i < |es| => es[i].song)
  }

  /** The song an entry follows: `previous` for the first entry. */
  function Before(previous: Song, es: seq<Entry>, i: int): Song
    requires 0 <= i < |es|
  {
    if i == 0 then previous else es[i - 1].song
  }

  /** Each entry's category is the transition type from the song before it. */
  predicate LabelsMatch(previous: Song, es: seq<Entry>)
  {
    forall i {:trigger Before(previous, es, i)} :: 0 <= i < |es| ==>
      es[i].transition == TransitionType(Before(previous, es, i).camelotKey, es[i].song.camelotKey)
  }

  lemma LabelsMatchCons(previous: Song, e: Entry, rest: seq<Entry>)
    requires e.transition == TransitionType(previous.camelotKey, e.song.camelotKey)
    requires LabelsMatch(e.song, rest)
    ensures LabelsMatch(previous, [e] + rest)
  {
    var es := [e] + rest;
    forall i | 0 <= i < |es|
      ensures es[i].transition == TransitionType(Before(previous, es, i).camelotKey, es[i].song.camelotKey)
    {
      if i > 0 {
        var j := i - 1;
        assert es[i] == rest[j];
        assert Before(previous, es, i) == Before(e.song, rest, j);
        assert rest[j].transition == TransitionType(Before(e.song, rest, j).camelotKey, rest[j].song.camelotKey);
      }
    }
  }

  lemma SongsOfCons(e: Entry, rest: seq<Entry>)
    ensures SongsOf([e] + rest) == [e.song] + SongsOf(rest)
  {
  }

  /** The loop of `generateMixSequence` from `current` onwards, as a
      function: pick the best remaining song, label it, splice it out and
      continue from it. */
  function GreedyMix(current: Song, remaining: seq<Song>): (r: seq<Entry>)
    ensures |r| == |remaining|
    ensures multiset(SongsOf(r)) == multiset(remaining)
    ensures LabelsMatch(current, r)
    ensures |r| > 0 ==> forall j :: 0 <= j < |remaining| ==>
              Score(current, remaining[j]) <= Score(current, r[0].song)
    decreases |remaining|
  {
    if |remaining| == 0 then []
    else
      var k := BestIndex(current, remaining);
      var next := remaining[k];
      var rest := GreedyMix(next, RemoveAt(remaining, k));
      var e := Entry(next, TransitionType(current.camelotKey, next.camelotKey));
      SongsOfCons(e, rest);
      LabelsMatchCons(current, e, rest);
      [e] + rest
  }

  /** One turn of the loop: the best candidate, labelled, comes first, and
      the greedy continuation from it over the rest follows. */
  lemma GreedyMixStep(current: Song, remaining: seq<Song>, k: nat)
    requires IsBestIndex(current, remaining, k)
    ensures GreedyMix(current, remaining)
              == [Entry(remaining[k], TransitionType(current.camelotKey, remaining[k].camelotKey))]
                 + GreedyMix(remaining[k], RemoveAt(remaining, k))
  {
    BestIndexUnique(current, remaining, k, BestIndex(current, remaining));
  }

  /** Sequence concatenation is associative. The fact is built in; it is
      stated apart only to keep the solver's work in the mix loop small. */
  lemma AppendAssoc(a: seq<Entry>, b: seq<Entry>, c: seq<Entry>)
    ensures a + (b + c) == (a + b) + c
  {
  }

  /** The whole mix: the least energetic song opens, the rest follow greedily. */
  function MixSequence(songs: seq<Song>): (r: seq<Entry>)
    requires |songs| > 0
    ensures |r| == |songs|
    ensures multiset(SongsOf(r)) == multiset(songs)
    ensures r[0].transition == OpeningTrack
    ensures forall j :: 0 <= j < |songs| ==> r[0].song.energy <= songs[j].energy
    ensures LabelsMatch(r[0].song, r[1..])
  {
    var sorted := SortByEnergy(songs);
    SortedFirstIsLeast(songs);
    var e := Entry(sorted[0], OpeningTrack);
    var rest := GreedyMix(sorted[0], sorted[1..]);
    SongsOfCons(e, rest);
    assert sorted == [sorted[0]] + sorted[1..];
    assert ([e] + rest)[1..] == rest;
    [e] + rest
  }

  /** Every entry after the first is labelled with the transition type from
      the entry before it, which is never the opening label and never a
      mood change. */
  lemma MixLabels(songs: seq<Song>)
    requires |songs| > 0
    ensures forall i :: 1 <= i < |songs| ==>
              MixSequence(songs)[i].transition
                == TransitionType(MixSequence(songs)[i - 1].song.camelotKey, MixSequence(songs)[i].song.camelotKey)
    ensures forall i :: 1 <= i < |songs| ==>
              MixSequence(songs)[i].transition != OpeningTrack && MixSequence(songs)[i].transition != MoodChange
  {
    var r := MixSequence(songs);
    var tail := r[1..];
    forall i | 1 <= i < |songs|
      ensures r[i].transition == TransitionType(r[i - 1].song.camelotKey, r[i].song.camelotKey)
      ensures r[i].transition != OpeningTrack && r[i].transition != MoodChange
    {
      assert tail[i - 1] == r[i];
      assert Before(r[0].song, tail, i - 1) == r[i - 1].song;
    }
  }

  /** `generateMixSequence`: the imperative loop computes `MixSequence`. */
  method GenerateMixSequence(songs: seq<Song>) returns (sequence: seq<Entry>)
    requires |songs| > 0
    ensures sequence == MixSequence(songs)
    ensures |sequence| == |songs| && multiset(SongsOf(sequence)) == multiset(songs)
    ensures sequence[0].transition == OpeningTrack
  {
    var sorted := SortByEnergy(songs);
    var current := sorted[0];
    sequence := [Entry(current, OpeningTrack)];
    var remaining := sorted[1..];
    assert sequence + GreedyMix(current, remaining) == MixSequence(songs);
    while |remaining| > 0
      invariant sequence + GreedyMix(current, remaining) == MixSequence(songs)
      decreases |remaining|
    {
      var index, score := FindBestNextSong(current, remaining);
      var next := remaining[index];
      var e := Entry(next, TransitionType(current.camelotKey, next.camelotKey));
      var left := RemoveAt(remaining, index);
      assert sequence + GreedyMix(current, remaining) == (sequence + [e]) + GreedyMix(next, left) by {
        GreedyMixStep(current, remaining, index);
        AppendAssoc(sequence, [e], GreedyMix(next, left));
      }
      sequence := sequence + [e];
      current := next;
      remaining := left;
    }
    assert GreedyMix(current, remaining) == [];
    assert sequence == sequence + GreedyMix(current, remaining);
  }

  /** Three songs in 8A, 8B and 9A at 120, 122 and 128 BPM, listed out of
      energy order. From 8A the relative key 8B scores 10 + 6 + 5 = 21 and
      the clockwise neighbour 9A scores 10 + 8 + 3 = 21 as well; the tie
      goes to 8B, the earlier of the two in energy order. 8B to 9A then
      matches no rule. */
  lemma ThreeSongScenario(a: Song, b: Song, c: Song)
    requires a.bpm == 120 && a.camelotKey == Code(8, A) && a.energy == 0.2
    requires b.bpm == 122 && b.camelotKey == Code(8, B) && b.energy == 0.5
    requires c.bpm == 128 && c.camelotKey == Code(9, A) && c.energy == 0.8
    ensures MixSequence([c, a, b])
              == [Entry(a, OpeningTrack)] + [Entry(b, PerfectMatch), Entry(c, ChallengingTransition)]
  {
    var mix := MixSequence([c, a, b]);
    var g := GreedyMix(a, [b, c]);
    assert mix == [Entry(a, OpeningTrack)] + g by { ScenarioOpening(a, b, c); }
    assert g == [Entry(b, PerfectMatch), Entry(c, ChallengingTransition)] by { ScenarioChoice(a, b, c); }
  }

  lemma ScenarioOpening(a: Song, b: Song, c: Song)
    requires a.energy == 0.2 && b.energy == 0.5 && c.energy == 0.8
    ensures MixSequence([c, a, b]) == [Entry(a, OpeningTrack)] + GreedyMix(a, [b, c])
  {
    var sorted := SortByEnergy([c, a, b]);
    assert sorted[0] == a && sorted[1..] == [b, c] by {
      ScenarioSort(a, b, c);
      assert [a, b, c][1..] == [b, c];
    }
    assert MixSequence([c, a, b]) == [Entry(sorted[0], OpeningTrack)] + GreedyMix(sorted[0], sorted[1..]) by {
      MixSequenceUnfold([c, a, b]);
    }
  }

  lemma MixSequenceUnfold(songs: seq<Song>)
    requires |songs| > 0
    ensures var sorted := SortByEnergy(songs);
            MixSequence(songs) == [Entry(sorted[0], OpeningTrack)] + GreedyMix(sorted[0], sorted[1..])
  {
  }

  lemma ScenarioSort(a: Song, b: Song, c: Song)
    requires a.energy == 0.2 && b.energy == 0.5 && c.energy == 0.8
    ensures SortByEnergy([c, a, b]) == [a, b, c]
  {
    assert [c, a, b][1..] == [a, b];
    assert [a, b][1..] == [b];
    assert SortByEnergy([b]) == [b];
    assert SortByEnergy([a, b]) == [a, b];
  }

  lemma ScenarioChoice(a: Song, b: Song, c: Song)
    requires a.bpm == 120 && a.camelotKey == Code(8, A)
    requires b.bpm == 122 && b.camelotKey == Code(8, B)
    requires c.bpm == 128 && c.camelotKey == Code(9, A)
    ensures GreedyMix(a, [b, c]) == [Entry(b, PerfectMatch), Entry(c, ChallengingTransition)]
  {
    assert Score(a, b) == 21 && Score(a, c) == 21;
    assert BestIndex(a, [b, c]) == 0;
    assert RemoveAt([b, c], 0) == [c];
    assert TransitionType(b.camelotKey, c.camelotKey) == ChallengingTransition;
  }

  /** `createOptimalMix`: fewer than two songs produce no mix. */
  method CreateOptimalMix(songs: seq<Song>) returns (mix: Option<seq<Entry>>)
    ensures mix.None? <==> |songs| < 2
    ensures mix.Some? ==> |mix.value| == |songs| && mix.value == MixSequence(songs)
  {
    if |songs| < 2 {
      return None;
    }
    var sequence := GenerateMixSequence(songs);
    return Some(sequence);
  }
}
