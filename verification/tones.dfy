/** Pitch classes: the twelve-symbol tone table and the arithmetic on tones
    (`TONES`, `TONE_TO_NUMBER` and class `Tone` of tab-generator.py). */
module Tones {

  /** The twelve canonical symbols in cyclic order; "H" is the tone a semitone below "C". */
  const TONES: seq<string> := ["C", "C#", "D", "D#", "E", "F", "F#", "G", "G#", "A", "A#", "H"]

  /** `{tone: i for i, tone in enumerate(symbols)}`: the symbols are inserted in order,
      so a later duplicate would overwrite an earlier one, as in a dict comprehension. */
  function NumberTable(symbols: seq<string>): map<string, int>
  {
    if symbols == [] then map[]
    else NumberTable(symbols[..|symbols| - 1])[symbols[|symbols| - 1] := |symbols| - 1]
  }

  /** Symbol to position in `TONES`. */
  const TONE_TO_NUMBER: map<string, int> := NumberTable(TONES)

  ghost predicate Distinct(symbols: seq<string>)
  {
    forall i, j :: 0 <= i < j < |symbols| ==> symbols[i] != symbols[j]
  }

  /** For a table without duplicates, `NumberTable` is the inverse of indexing:
      its keys are exactly the symbols, and each symbol maps to its own position. */
  lemma {:induction false} NumberTableInverse(symbols: seq<string>)
    requires Distinct(symbols)
    ensures forall s :: s in NumberTable(symbols) <==> s in symbols
    ensures forall i :: 0 <= i < |symbols| ==> NumberTable(symbols)[symbols[i]] == i
  {
    if symbols != [] {
      var init := symbols[..|symbols| - 1];
      NumberTableInverse(init);
      forall s ensures s in init <==> (exists i :: 0 <= i < |symbols| - 1 && symbols[i] == s) {
        if s in init {
          var i :| 0 <= i < |init| && init[i] == s;
          assert symbols[i] == s;
        }
      }
      assert symbols == init + [symbols[|symbols| - 1]];
    }
  }

  lemma TonesDistinct()
    ensures Distinct(TONES)
  {
  }

  /** A tone is the symbol it was built from; Python's `Tone.__init__` stores the raw string. */
  datatype Tone = Tone(symbol: string)

  /** The symbol has an entry in `TONE_TO_NUMBER`; for any other symbol `Tone.__add__` raises `KeyError`. */
  predicate IsTone(t: Tone)
  {
    t.symbol in TONE_TO_NUMBER
  }

  /** `TONE_TO_NUMBER[t.tone]`: the position of the tone in the cyclic table. */
  function Number(t: Tone): (i: int)
    requires IsTone(t)
    ensures 0 <= i < |TONES| && TONES[i] == t.symbol
  {
    TonesDistinct();
    NumberTableInverse(TONES);
    TONE_TO_NUMBER[t.symbol]
  }

  /** Every entry of the table is a tone, numbered by its position. */
  lemma SymbolNumber(i: int)
    requires 0 <= i < |TONES|
    ensures IsTone(Tone(TONES[i])) && Number(Tone(TONES[i])) == i
  {
    TonesDistinct();
    NumberTableInverse(TONES);
  }

  /** `Tone.__add__`: move `interval` semitones around the cycle. Python's `%` by a positive
      divisor is non-negative, like Dafny's, so negative intervals behave the same. */
  function Add(t: Tone, interval: int): (r: Tone)
    requires IsTone(t)
    ensures IsTone(r) && Number(r) == (Number(t) + interval) % |TONES|
  {
    var k := (Number(t) + interval) % |TONES|;
    SymbolNumber(k);
    Tone(TONES[k])
  }

  /** `Tone.__eq__`: equality of the stored symbols. */
  predicate Equal(a: Tone, b: Tone)
  {
    a.symbol == b.symbol
  }

  /** Between tones, symbol equality is equality of positions in the cycle. */
  lemma EqualIffSameNumber(a: Tone, b: Tone)
    requires IsTone(a) && IsTone(b)
    ensures Equal(a, b) <==> Number(a) == Number(b)
  {
  }

  /** Two additions to the same tone agree exactly when the intervals agree modulo 12. */
  lemma AddCongruent(t: Tone, a: int, b: int)
    requires IsTone(t)
    ensures Add(t, a) == Add(t, b) <==> a % |TONES| == b % |TONES|
  {
    var x := Number(t);
    calc {
      Add(t, a) == Add(t, b);
    <==> { EqualIffSameNumber(Add(t, a), Add(t, b)); }
      (x + a) % 12 == (x + b) % 12;
    <==> { ShiftMod(x, a, b); }
      a % 12 == b % 12;
    }
  }

  lemma ShiftMod(x: int, a: int, b: int)
    ensures (x + a) % 12 == (x + b) % 12 <==> a % 12 == b % 12
  {
    ModSum(x, a);
    ModSum(x, b);
    ModSum(x + a, -x);
    ModSum(x + b, -x);
  }

  /** Remainders add modulo 12. */
  lemma ModSum(p: int, q: int)
    ensures (p + q) % 12 == (p % 12 + q % 12) % 12
  {
    var s := (p % 12 + q % 12) / 12;
    assert p + q == 12 * (p / 12 + q / 12 + s) + (p % 12 + q % 12) % 12;
    ModUnique(p + q, p / 12 + q / 12 + s, (p % 12 + q % 12) % 12);
  }

  lemma ModUnique(y: int, q: int, r: int)
    requires 0 <= r < 12 && y == 12 * q + r
    ensures y % 12 == r
  {
  }

  /** Adding nothing leaves a tone as it is. */
  lemma AddZero(t: Tone)
    requires IsTone(t)
    ensures Add(t, 0) == t
  {
  }

  /** A full octave (twelve semitones) returns to the same tone. */
  lemma AddFullCycle(t: Tone)
    requires IsTone(t)
    ensures Add(t, 12) == t
  {
    AddCongruent(t, 12, 0);
    AddZero(t);
  }

  /** Tone addition is an action of the integers: two steps compose into one. */
  lemma AddAdd(t: Tone, a: int, b: int)
    requires IsTone(t)
    ensures Add(Add(t, a), b) == Add(t, a + b)
  {
    var x := Number(t);
    var y := (x + a) % 12;
    ShiftMod(b, y, x + a);
    assert (y + b) % 12 == (x + a + b) % 12;
    EqualIffSameNumber(Add(Add(t, a), b), Add(t, a + b));
  }

  /** Going up `k` semitones and then up `12 - k mod 12` more returns to the start. */
  lemma AddInverse(t: Tone, k: int)
    requires IsTone(t)
    ensures Add(Add(t, k), 12 - k % 12) == t
  {
    AddAdd(t, k, 12 - k % 12);
    FillOctave(k);
    AddCongruent(t, k + (12 - k % 12), 0);
    AddZero(t);
  }

  lemma FillOctave(k: int)
    ensures (k + (12 - k % 12)) % 12 == 0
  {
    assert k + (12 - k % 12) == 12 * (k / 12 + 1);
    ModUnique(k + (12 - k % 12), k / 12 + 1, 0);
  }

  /** Every tone is reached from every other by some interval in `[0, 12)`. */
  lemma AddReaches(from: Tone, to: Tone)
    requires IsTone(from) && IsTone(to)
    ensures 0 <= (Number(to) - Number(from)) % 12 < 12
    ensures Add(from, (Number(to) - Number(from)) % 12) == to
  {
    var d := (Number(to) - Number(from)) % 12;
    StepBetween(Number(from), Number(to));
    assert Number(Add(from, d)) == Number(to);
    EqualIffSameNumber(Add(from, d), to);
  }

  lemma StepBetween(x: int, y: int)
    requires 0 <= y < 12
    ensures (x + (y - x) % 12) % 12 == y
  {
    var d := (y - x) % 12;
    ModUnique(d, 0, d);
    ShiftMod(x, d, y - x);
    ModUnique(y, 0, y);
  }
}
