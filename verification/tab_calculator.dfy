/** The search itself (`MAX_FRETS`, `GUITAR_STRINGS`, class `Tab` and `TabCalculator.generate`
    of tab-generator.py): collect, string by string, the frets whose tone is in the chord, then
    rank the combinations. A `TabCalculator` holds nothing but the chord built from its name, so
    its operations are modelled as procedures over that chord. */
module TabCalculator {
  import opened Tones
  import opened Chords
  import opened Combinations
  import opened Ranking

  /** Frets are numbered `0 .. MAX_FRETS - 1`; fret 0 is the open string. */
  const MAX_FRETS: int := 14

  /** The open-string tones, in the order the strings are printed. */
  const GUITAR_STRINGS: seq<string> := ["E", "H", "G", "D", "A", "E"]

  /** One fret per string, in the order of `GUITAR_STRINGS`. */
  datatype Tab = Tab(frets: seq<int>)

  /** `Tone(GUITAR_STRINGS[s])`: every open string is a canonical tone, at position
      4, 11, 7, 2, 9 and 4 of the tone table. */
  function OpenTone(s: int): (t: Tone)
    requires 0 <= s < |GUITAR_STRINGS|
    ensures IsTone(t) && Number(t) == [4, 11, 7, 2, 9, 4][s]
  {
    SymbolNumber(2);
    SymbolNumber(4);
    SymbolNumber(7);
    SymbolNumber(9);
    SymbolNumber(11);
    Tone(GUITAR_STRINGS[s])
  }

  /** The frets `0 .. bound - 1` of a string tuned to `open` whose tone is in `chord`, ascending. */
  function ChordFrets(chord: Chord, open: Tone, bound: nat): seq<int>
    requires IsTone(open)
  {
    if bound == 0 then []
    else ChordFrets(chord, open, bound - 1) + (if Contains(chord, Add(open, bound - 1)) then [bound - 1] else [])
  }

  /** The frets collected for one string are strictly ascending and are exactly the frets
      below the bound that sound a chord tone. */
  lemma {:induction false} ChordFretsExact(chord: Chord, open: Tone, bound: nat)
    requires IsTone(open)
    ensures StrictlyAscending(ChordFrets(chord, open, bound))
    ensures forall f :: f in ChordFrets(chord, open, bound) <==> 0 <= f < bound && Contains(chord, Add(open, f))
  {
    if bound > 0 {
      var init := ChordFrets(chord, open, bound - 1);
      var last := if Contains(chord, Add(open, bound - 1)) then [bound - 1] else [];
      ChordFretsExact(chord, open, bound - 1);
      forall k | 0 <= k < |init| ensures init[k] < bound - 1 {
        assert init[k] in init;
      }
      assert ChordFrets(chord, open, bound) == init + last;
      forall f ensures f in init + last <==> f in init || f in last {
      }
    }
  }

  /** `possible_frets` after the enumeration loops: one list per string. */
  function Candidates(chord: Chord): seq<seq<int>>
  {
    seq(|GUITAR_STRINGS|, s requires 0 <= s < |GUITAR_STRINGS| => ChordFrets(chord, OpenTone(s), MAX_FRETS))
  }

  /** A playable voicing of the chord: one fret in range per string, each sounding a chord tone. */
  ghost predicate Voicing(chord: Chord, frets: seq<int>)
  {
    |frets| == |GUITAR_STRINGS| &&
    forall s :: 0 <= s < |GUITAR_STRINGS| ==>
      0 <= frets[s] < MAX_FRETS && Contains(chord, Add(OpenTone(s), frets[s]))
  }

  /** The combinations of the candidate lists are exactly the voicings of the chord. */
  lemma VoicingIffDrawn(chord: Chord, frets: seq<int>)
    ensures Voicing(chord, frets) <==> Drawn(frets, Candidates(chord))
  {
    forall s | 0 <= s < |GUITAR_STRINGS| {
      ChordFretsExact(chord, OpenTone(s), MAX_FRETS);
    }
  }

  /** The candidate lists of every string are strictly ascending. */
  lemma CandidatesAscending(chord: Chord)
    ensures forall s :: 0 <= s < |Candidates(chord)| ==> StrictlyAscending(Candidates(chord)[s])
  {
    forall s | 0 <= s < |GUITAR_STRINGS| {
      ChordFretsExact(chord, OpenTone(s), MAX_FRETS);
    }
  }

  /** No string of a major chord is left without candidates: the fret that sounds the root
      lies below twelve, hence below `MAX_FRETS`. */
  lemma CandidatesNonEmpty(chordName: string)
    requires IsTone(Tone(chordName))
    ensures forall s :: 0 <= s < |Candidates(NewChord(chordName))| ==> Candidates(NewChord(chordName))[s] != []
  {
    forall s | 0 <= s < |GUITAR_STRINGS| ensures Candidates(NewChord(chordName))[s] != [] {
      RootFret(chordName, OpenTone(s));
    }
  }

  /** On a string tuned to `open`, some fret below twelve sounds the root. */
  lemma RootFret(chordName: string, open: Tone)
    requires IsTone(Tone(chordName)) && IsTone(open)
    ensures exists f :: 0 <= f < 12 && f in ChordFrets(NewChord(chordName), open, MAX_FRETS) &&
                        Add(open, f) == Tone(chordName)
    ensures ChordFrets(NewChord(chordName), open, MAX_FRETS) != []
  {
    var chord := NewChord(chordName);
    var root := Tone(chordName);
    var f := (Number(root) - Number(open)) % 12;
    RootInChord(chordName);
    AddReaches(open, root);
    assert Add(open, f) == root;
    assert Contains(chord, Add(open, f));
    ChordFretsExact(chord, open, MAX_FRETS);
    assert 0 <= f < MAX_FRETS;
    assert f in ChordFrets(chord, open, MAX_FRETS);
  }

  lemma {:induction false} SizeProductPositive(lists: seq<seq<int>>)
    requires forall i :: 0 <= i < |lists| ==> lists[i] != []
    ensures SizeProduct(lists) >= 1
  {
    if lists != [] {
      SizeProductPositive(lists[1..]);
      assert lists[0] != [];
    }
  }

  /** Two strictly ascending lists with the same elements are the same list. */
  lemma {:induction false} AscendingUnique(a: seq<int>, b: seq<int>)
    requires StrictlyAscending(a) && StrictlyAscending(b)
    requires forall x :: x in a <==> x in b
    ensures a == b
  {
    assert a != [] ==> a[0] in a;
    assert b != [] ==> b[0] in b;
    if a != [] && b != [] {
      assert a[0] in b && b[0] in a;
      assert a[0] == b[0];
      forall x ensures x in a[1..] <==> x in b[1..] {
        assert x in a[1..] <==> x in a && x != a[0];
        assert x in b[1..] <==> x in b && x != b[0];
      }
      AscendingUnique(a[1..], b[1..]);
      assert a == [a[0]] + a[1..] && b == [b[0]] + b[1..];
    }
  }

  /** On a string tuned to `open`, the frets below `bound` that sound a tone of the major chord
      on `root` are the frets lying 0, 4 or 7 semitones above the root, in ascending order. */
  lemma ChordFretsByInterval(root: string, open: Tone, bound: nat, expected: seq<int>)
    requires IsTone(Tone(root)) && IsTone(open)
    requires StrictlyAscending(expected)
    requires forall f :: f in expected <==>
               0 <= f < bound && (Number(open) + f - Number(Tone(root))) % 12 in {0, 4, 7}
    ensures ChordFrets(NewChord(root), open, bound) == expected
  {
    var frets := ChordFrets(NewChord(root), open, bound);
    ChordFretsExact(NewChord(root), open, bound);
    forall f ensures f in frets <==> f in expected {
      if 0 <= f < bound {
        FretInterval(root, open, f);
      }
    }
    AscendingUnique(frets, expected);
  }

  lemma FretInterval(root: string, open: Tone, f: int)
    requires IsTone(Tone(root)) && IsTone(open)
    ensures Contains(NewChord(root), Add(open, f)) <==> (Number(open) + f - Number(Tone(root))) % 12 in {0, 4, 7}
  {
    var tone := Add(open, f);
    ContainsByInterval(root, tone);
    IntervalOfSum(Number(tone), Number(open) + f, Number(Tone(root)));
  }

  lemma IntervalOfSum(t: int, sum: int, r: int)
    requires t == sum % 12
    ensures (t - r) % 12 == (sum - r) % 12
  {
    ModUnique(t, 0, t);
    ShiftMod(-r, t, sum);
  }

  /** The candidate frets of C major (C, E, G) on the six strings E, H, G, D, A, E. */
  lemma CMajorCandidates()
    ensures IsTone(Tone("C")) && Candidates(NewChord("C")) ==
      [[0, 3, 8, 12], [1, 5, 8, 13], [0, 5, 9, 12], [2, 5, 10], [3, 7, 10], [0, 3, 8, 12]]
  {
    var expected := [[0, 3, 8, 12], [1, 5, 8, 13], [0, 5, 9, 12], [2, 5, 10], [3, 7, 10], [0, 3, 8, 12]];
    SymbolNumber(0);
    forall s | 0 <= s < |GUITAR_STRINGS| ensures Candidates(NewChord("C"))[s] == expected[s] {
      ChordFretsByInterval("C", OpenTone(s), MAX_FRETS, expected[s]);
    }
  }

  /** The first half of `generate`: for each string, scan the frets and append those whose
      tone is in the chord. */
  method EnumerateCandidates(chord: Chord) returns (possibleFrets: seq<seq<int>>)
    ensures possibleFrets == Candidates(chord)
    ensures |possibleFrets| == |GUITAR_STRINGS|
    ensures forall s :: 0 <= s < |possibleFrets| ==> StrictlyAscending(possibleFrets[s])
    ensures forall s, f :: 0 <= s < |possibleFrets| ==>
              (f in possibleFrets[s] <==> 0 <= f < MAX_FRETS && Contains(chord, Add(OpenTone(s), f)))
  {
    possibleFrets := seq(|GUITAR_STRINGS|, _ => []);
    for s := 0 to |GUITAR_STRINGS|
      invariant |possibleFrets| == |GUITAR_STRINGS|
      invariant forall j :: 0 <= j < s ==> possibleFrets[j] == ChordFrets(chord, OpenTone(j), MAX_FRETS)
      invariant forall j :: s <= j < |GUITAR_STRINGS| ==> possibleFrets[j] == []
    {
      var tone := OpenTone(s);
      for i := 0 to MAX_FRETS
        invariant |possibleFrets| == |GUITAR_STRINGS|
        invariant possibleFrets[s] == ChordFrets(chord, tone, i)
        invariant forall j :: 0 <= j < s ==> possibleFrets[j] == ChordFrets(chord, OpenTone(j), MAX_FRETS)
        invariant forall j :: s < j < |GUITAR_STRINGS| ==> possibleFrets[j] == []
      {
        if Contains(chord, Add(tone, i)) {
          possibleFrets := possibleFrets[s := possibleFrets[s] + [i]];
        }
      }
    }
    CandidatesAscending(chord);
    forall s | 0 <= s < |GUITAR_STRINGS| {
      ChordFretsExact(chord, OpenTone(s), MAX_FRETS);
    }
  }

  /** The tabs `_calculate_best_tab` returns for a major chord: `min(n, total)` voicings, at
      least one when `n >= 1`, in (cost, lexicographic) order; an excluded voicing is no cheaper
      than any returned one, and at equal cost it comes after it. */
  lemma BestVoicings(chordName: string, n: nat)
    requires IsTone(Tone(chordName))
    ensures var best := BestTabs(Candidates(NewChord(chordName)), n);
      && |best| == Min(n, SizeProduct(Candidates(NewChord(chordName))))
      && (n >= 1 ==> |best| >= 1)
      && (forall k :: 0 <= k < |best| ==> Voicing(NewChord(chordName), best[k]))
      && (forall i, j :: 0 <= i < j < |best| ==>
            Distance(best[i]) < Distance(best[j]) || (Distance(best[i]) == Distance(best[j]) && LexLess(best[i], best[j])))
      && (forall c :: Voicing(NewChord(chordName), c) && c !in best ==>
            forall k :: 0 <= k < |best| ==>
              Distance(best[k]) < Distance(c) || (Distance(best[k]) == Distance(c) && LexLess(best[k], c)))
  {
    var chord := NewChord(chordName);
    var lists := Candidates(chord);
    var best := BestTabs(lists, n);
    CandidatesAscending(chord);
    CandidatesNonEmpty(chordName);
    SizeProductPositive(lists);
    BestTabsLength(lists, n);
    BestTabsRanked(lists, n);
    forall k | 0 <= k < |best| ensures Voicing(chord, best[k]) {
      BestTabsDrawn(lists, n);
      VoicingIffDrawn(chord, best[k]);
    }
    forall c | Voicing(chord, c) && c !in best
      ensures forall k :: 0 <= k < |best| ==>
                Distance(best[k]) < Distance(c) || (Distance(best[k]) == Distance(c) && LexLess(best[k], c))
    {
      VoicingIffDrawn(chord, c);
      BestTabsOptimal(lists, n, c);
      BestTabsCutOff(lists, n, c);
    }
  }

  /** `TabCalculator(chordName).generate(n)`: the `n` cheapest voicings of the major chord on
      `chordName` (all of them if there are fewer), cheapest first, ties in lexicographic order. */
  method Generate(chordName: string, n: nat) returns (tabs: seq<Tab>)
    requires IsTone(Tone(chordName))
    ensures |tabs| == Min(n, SizeProduct(Candidates(NewChord(chordName))))
    ensures n >= 1 ==> |tabs| >= 1
    ensures |tabs| == |BestTabs(Candidates(NewChord(chordName)), n)| &&
            forall k :: 0 <= k < |tabs| ==> tabs[k].frets == BestTabs(Candidates(NewChord(chordName)), n)[k]
    ensures forall k :: 0 <= k < |tabs| ==> Voicing(NewChord(chordName), tabs[k].frets)
    ensures forall i, j :: 0 <= i < j < |tabs| ==>
              var a, b := tabs[i].frets, tabs[j].frets;
              Distance(a) < Distance(b) || (Distance(a) == Distance(b) && LexLess(a, b))
    ensures forall c :: Voicing(NewChord(chordName), c) && Tab(c) !in tabs ==>
              forall k :: 0 <= k < |tabs| ==>
                var a := tabs[k].frets;
                Distance(a) < Distance(c) || (Distance(a) == Distance(c) && LexLess(a, c))
  {
    var chord := NewChord(chordName);
    var possibleFrets := EnumerateCandidates(chord);
    var bestTabs := CalculateBestTab(possibleFrets, n);
    tabs := seq(|bestTabs|, k requires 0 <= k < |bestTabs| => Tab(bestTabs[k]));
    assert bestTabs == BestTabs(Candidates(chord), n);
    BestVoicings(chordName, n);
    forall k | 0 <= k < |tabs| ensures tabs[k].frets == bestTabs[k] {
    }
    forall c | Voicing(chord, c) && Tab(c) !in tabs
      ensures forall k :: 0 <= k < |tabs| ==>
                var a := tabs[k].frets;
                Distance(a) < Distance(c) || (Distance(a) == Distance(c) && LexLess(a, c))
    {
      forall k | 0 <= k < |bestTabs| ensures bestTabs[k] != c {
        assert tabs[k] == Tab(bestTabs[k]);
      }
      assert c !in bestTabs;
    }
  }
}
