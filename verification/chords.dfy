/** The major triad built on a root tone, and the membership test on it
    (class `Chord` of tab-generator.py). */
module Chords {
  import opened Tones

  /** `_first_tone` is the root; `_tones` the triple (root, root + 4, root + 7). */
  datatype Chord = Chord(firstTone: Tone, tones: seq<Tone>)

  /** `Chord.__init__`: the root must be one of the twelve canonical symbols,
      since building the triad adds to it. */
  function NewChord(chordName: string): (c: Chord)
    requires IsTone(Tone(chordName))
    ensures c.firstTone == Tone(chordName) && |c.tones| == 3
    ensures forall m :: 0 <= m < |c.tones| ==> IsTone(c.tones[m])
  {
    var first := Tone(chordName);
    Chord(first, [first, Add(first, 4), Add(first, 7)])
  }

  /** `any(tone == t for t in tones)`: a left-to-right scan with `Tone.__eq__`. */
  predicate AnyEqual(tone: Tone, tones: seq<Tone>)
  {
    tones != [] && (Equal(tone, tones[0]) || AnyEqual(tone, tones[1..]))
  }

  /** `Chord.__contains__`, the `in` operator on a chord. */
  predicate Contains(c: Chord, tone: Tone)
  {
    AnyEqual(tone, c.tones)
  }

  /** The scan finds the tone exactly when some member equals it. */
  lemma {:induction false} AnyEqualIff(tone: Tone, tones: seq<Tone>)
    ensures AnyEqual(tone, tones) <==> exists m :: 0 <= m < |tones| && Equal(tone, tones[m])
  {
    if tones != [] {
      AnyEqualIff(tone, tones[1..]);
      if Equal(tone, tones[0]) {
        assert 0 < |tones|;
      } else {
        assert (exists m :: 0 <= m < |tones| && Equal(tone, tones[m])) ==>
               (exists m :: 0 <= m < |tones[1..]| && Equal(tone, tones[1..][m])) by {
          if exists m :: 0 <= m < |tones| && Equal(tone, tones[m]) {
            var m :| 0 <= m < |tones| && Equal(tone, tones[m]);
            assert tones[1..][m - 1] == tones[m];
          }
        }
      }
    }
  }

  /** `tone in chord` holds exactly when `tone` equals one of the chord's three members. */
  lemma ContainsIff(c: Chord, tone: Tone)
    ensures Contains(c, tone) <==> exists m :: 0 <= m < |c.tones| && Equal(tone, c.tones[m])
  {
    AnyEqualIff(tone, c.tones);
  }

  /** A tone belongs to the major chord on `root` exactly when it lies 0, 4 or 7 semitones above the root. */
  lemma ContainsByInterval(root: string, tone: Tone)
    requires IsTone(Tone(root)) && IsTone(tone)
    ensures Contains(NewChord(root), tone) <==> (Number(tone) - Number(Tone(root))) % 12 in {0, 4, 7}
  {
    var c := NewChord(root);
    var r := Tone(root);
    var d := (Number(tone) - Number(r)) % 12;
    ContainsIff(c, tone);
    AddReaches(r, tone);
    assert Add(r, d) == tone;
    AddZero(r);
    assert c.tones == [Add(r, 0), Add(r, 4), Add(r, 7)];
    MemberAt(r, tone, d, 0);
    MemberAt(r, tone, d, 4);
    MemberAt(r, tone, d, 7);
  }

  lemma MemberAt(r: Tone, tone: Tone, d: int, m: int)
    requires IsTone(r) && 0 <= d < 12 && 0 <= m < 12 && Add(r, d) == tone
    ensures Equal(tone, Add(r, m)) <==> d == m
  {
    AddCongruent(r, d, m);
    ModUnique(d, 0, d);
    ModUnique(m, 0, m);
  }

  /** The root is always a member of its own chord. */
  lemma RootInChord(root: string)
    requires IsTone(Tone(root))
    ensures Contains(NewChord(root), Tone(root))
  {
    ContainsIff(NewChord(root), Tone(root));
    assert Equal(Tone(root), NewChord(root).tones[0]);
  }

  /** The three members of a major chord are three different tones. */
  lemma ChordHasThreeTones(root: string)
    requires IsTone(Tone(root))
    ensures forall i, j :: 0 <= i < j < |NewChord(root).tones| ==>
              !Equal(NewChord(root).tones[i], NewChord(root).tones[j])
  {
    var r := Tone(root);
    AddZero(r);
    assert NewChord(root).tones == [Add(r, 0), Add(r, 4), Add(r, 7)];
    MemberAt(r, Add(r, 0), 0, 4);
    MemberAt(r, Add(r, 0), 0, 7);
    MemberAt(r, Add(r, 4), 4, 7);
  }
}
