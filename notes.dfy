/** The frequency-to-note lookup of the microphone (microphone.js, `matchNote`
    and the `notes` table built by `initialize`). */
module NoteTable {

  /** One entry of the look-up table: a note name and its frequency in Hertz. */
  datatype Note = Note(name: string, freq: real)

  /** The 75 entries of the `notes` object, in insertion (= iteration) order,
      written as five runs of fifteen so that looking up a fixed entry stays a
      shallow proof step. */
  const Notes: seq<Note> := NotesFrom58Hz + NotesFrom138Hz + NotesFrom329Hz + NotesFrom783Hz + NotesFrom1864Hz

  const NotesFrom58Hz: seq<Note> := [
    Note("A#1", 58.2705), Note("B1", 61.7354), Note("C2", 65.4064), Note("C#2", 69.2957),
    Note("D2", 73.4162), Note("D#2", 77.7817), Note("E2", 82.4069), Note("F2", 87.3071),
    Note("F#2", 92.4986), Note("G2", 97.9989), Note("G#2", 103.826), Note("A2", 110.0),
    Note("A#2", 116.542), Note("B2", 123.471), Note("C3", 130.813)
  ]
  const NotesFrom138Hz: seq<Note> := [
    Note("C#3", 138.591), Note("D3", 146.832), Note("D#3", 155.563), Note("E3", 164.814),
    Note("F3", 174.614), Note("F#3", 184.997), Note("G3", 195.998), Note("G#3", 207.652),
    Note("A3", 220.0), Note("A#3", 233.082), Note("B3", 246.942), Note("C4", 261.626),
    Note("C#4", 277.183), Note("D4", 293.665), Note("D#4", 311.127)
  ]
  const NotesFrom329Hz: seq<Note> := [
    Note("E4", 329.628), Note("F4", 349.228), Note("F#4", 369.994), Note("G4", 391.995),
    Note("G#4", 415.305), Note("A4", 440.0), Note("A#4", 466.164), Note("B4", 493.883),
    Note("C5", 523.251), Note("C#5", 554.365), Note("D5", 587.330), Note("D#5", 622.254),
    Note("E5", 659.255), Note("F5", 698.456), Note("F#5", 739.989)
  ]
  const NotesFrom783Hz: seq<Note> := [
    Note("G5", 783.991), Note("G#5", 830.609), Note("A5", 880.0), Note("A#5", 932.328),
    Note("B5", 987.767), Note("C6", 1046.5), Note("C#6", 1108.73), Note("D6", 1174.66),
    Note("D#6", 1244.51), Note("E6", 1318.51), Note("F6", 1396.91), Note("F#6", 1479.98),
    Note("G6", 1567.98), Note("G#6", 1661.22), Note("A6", 1760.0)
  ]
  const NotesFrom1864Hz: seq<Note> := [
    Note("A#6", 1864.66), Note("B6", 1975.53), Note("C7", 2093.0), Note("C#7", 2217.46),
    Note("D7", 2349.32), Note("D#7", 2489.02), Note("E7", 2637.02), Note("F7", 2793.83),
    Note("F#7", 2959.96), Note("G7", 3135.96), Note("G#7", 3322.44), Note("A7", 3520.0),
    Note("A#7", 3729.31), Note("B7", 3951.07), Note("C8", 4186.01)
  ]

  /** Each entry of `table` is lower than the next one. */
  predicate Rising(table: seq<Note>)
  {
    forall k | 0 <= k < |table| - 1 :: table[k].freq < table[k + 1].freq
  }

  /** Two rising runs whose meeting point rises form one rising run. */
  lemma RisingConcat(a: seq<Note>, b: seq<Note>)
    requires Rising(a) && Rising(b) && 0 < |a| && 0 < |b|
    requires a[|a| - 1].freq < b[0].freq
    ensures Rising(a + b)
  {
    var c := a + b;
    forall k | 0 <= k < |c| - 1
      ensures c[k].freq < c[k + 1].freq
    {
      if k < |a| - 1 {
        assert c[k] == a[k] && c[k + 1] == a[k + 1];
      } else if k == |a| - 1 {
        assert c[k] == a[k] && c[k + 1] == b[0];
      } else {
        assert c[k] == b[k - |a|] && c[k + 1] == b[k - |a| + 1];
      }
    }
  }

  lemma LowBlocksRising()
    ensures Rising(NotesFrom58Hz) && Rising(NotesFrom138Hz)
  {
  }

  lemma MiddleBlockRising()
    ensures Rising(NotesFrom329Hz)
  {
  }

  lemma HighBlocksRising()
    ensures Rising(NotesFrom783Hz) && Rising(NotesFrom1864Hz)
  {
  }

  /** Neighbouring table frequencies strictly increase, shown block by block. */
  lemma NotesAdjacentAscending()
    ensures |Notes| == 75
    ensures forall i | 0 <= i < |Notes| - 1 :: Notes[i].freq < Notes[i + 1].freq
  {
    LowBlocksRising();
    MiddleBlockRising();
    HighBlocksRising();
    var upTo138 := NotesFrom58Hz + NotesFrom138Hz;
    RisingConcat(NotesFrom58Hz, NotesFrom138Hz);
    var upTo329 := upTo138 + NotesFrom329Hz;
    RisingConcat(upTo138, NotesFrom329Hz);
    var upTo783 := upTo329 + NotesFrom783Hz;
    RisingConcat(upTo329, NotesFrom783Hz);
    RisingConcat(upTo783, NotesFrom1864Hz);
    assert Notes == upTo783 + NotesFrom1864Hz;
  }

  /** A table sorted by strictly increasing frequency. */
  ghost predicate StrictlyAscending(table: seq<Note>)
  {
    forall i, j | 0 <= i < j < |table| :: table[i].freq < table[j].freq
  }

  lemma {:induction false} AdjacentToStrictlyAscending(table: seq<Note>, i: nat, j: nat)
    requires forall k | 0 <= k < |table| - 1 :: table[k].freq < table[k + 1].freq
    requires i < j < |table|
    ensures table[i].freq < table[j].freq
    decreases j - i
  {
    if i + 1 < j {
      AdjacentToStrictlyAscending(table, i + 1, j);
    }
  }

  /** The 75 table frequencies strictly increase in insertion order. */
  lemma NotesStrictlyAscending()
    ensures |Notes| == 75
    ensures StrictlyAscending(Notes)
  {
    NotesAdjacentAscending();
    forall i, j | 0 <= i < j < |Notes|
      ensures Notes[i].freq < Notes[j].freq
    {
      AdjacentToStrictlyAscending(Notes, i, j);
    }
  }

  function Abs(x: real): (r: real)
    ensures r >= 0.0 && (r == x || r == -x)
  {
    if x < 0.0 then -x else x
  }

  /** Distance between table entry `k` and the query frequency. */
  function Dist(table: seq<Note>, k: nat, freq: real): real
    requires k < |table|
  {
    Abs(table[k].freq - freq)
  }

  /** The index kept by the source's full scan over the first `n` entries:
      it starts at the first entry ("A#1") and moves to entry `k` whenever
      entry `k` is at least as close (`<=`) as the current one. */
  function Best(table: seq<Note>, freq: real, n: nat): (r: nat)
    requires 0 < |table| && n <= |table|
    ensures r < |table| && (n > 0 ==> r < n)
  {
    if n == 0 then 0
    else
      var b := Best(table, freq, n - 1);
      if Dist(table, n - 1, freq) <= Dist(table, b, freq) then n - 1 else b
  }

  /** Among the first `n` entries, `Best` is the closest, and it is the LAST of
      the closest ones: every later entry of the prefix is strictly farther. */
  lemma {:induction false} BestIsLastClosest(table: seq<Note>, freq: real, n: nat)
    requires 0 < n <= |table|
    ensures forall j | 0 <= j < n :: Dist(table, Best(table, freq, n), freq) <= Dist(table, j, freq)
    ensures forall j | Best(table, freq, n) < j < n ::
      Dist(table, Best(table, freq, n), freq) < Dist(table, j, freq)
  {
    if n > 1 {
      BestIsLastClosest(table, freq, n - 1);
    }
  }

  /** In a sorted table, once an entry above `freq` has been scanned no later
      entry replaces the best one: this is why the source may stop at the
      first entry above `freq`. */
  lemma {:induction false} BestStableAfterOvershoot(table: seq<Note>, freq: real, i: nat, n: nat)
    requires StrictlyAscending(table)
    requires i < n <= |table|
    requires table[i].freq > freq
    ensures Best(table, freq, n) == Best(table, freq, i + 1)
    decreases n
  {
    if n > i + 1 {
      BestStableAfterOvershoot(table, freq, i, n - 1);
      BestIsLastClosest(table, freq, i + 1);
    }
  }

  /** The table has 75 entries. */
  lemma NotesCount()
    ensures |Notes| == 75
  {
  }

  /** The note the scan over the whole table settles on. */
  function NearestIndex(freq: real): (k: nat)
    ensures k < |Notes|
  {
    NotesCount();
    Best(Notes, freq, |Notes|)
  }

  /** `matchNote`: the scan with its early break. It returns the same entry
      as the scan over the whole table. */
  method MatchNote(freq: real) returns (closest: Note)
    ensures closest == Notes[NearestIndex(freq)]
  {
    NotesStrictlyAscending();
    var best := 0;
    var i := 0;
    while i < |Notes|
      invariant 0 <= i <= |Notes|
      invariant best == Best(Notes, freq, i)
    {
      if Abs(Notes[i].freq - freq) <= Abs(Notes[best].freq - freq) {
        best := i;
      }
      if Notes[i].freq > freq {
        BestStableAfterOvershoot(Notes, freq, i, |Notes|);
        return Notes[best];
      }
      i := i + 1;
    }
    closest := Notes[best];
  }

  /** The matched note is taken from the table, no table entry is closer,
      and every later entry is strictly farther. */
  lemma NearestIsClosest(freq: real)
    ensures Notes[NearestIndex(freq)] in Notes
    ensures forall j | 0 <= j < |Notes| :: Dist(Notes, NearestIndex(freq), freq) <= Dist(Notes, j, freq)
    ensures forall j | NearestIndex(freq) < j < |Notes| ::
      Dist(Notes, NearestIndex(freq), freq) < Dist(Notes, j, freq)
  {
    NotesCount();
    BestIsLastClosest(Notes, freq, |Notes|);
  }

  /** The two properties of `NearestIsClosest` pin the result down uniquely. */
  lemma NearestIsUnique(freq: real, k: nat)
    requires k < |Notes|
    requires forall j | 0 <= j < |Notes| :: Dist(Notes, k, freq) <= Dist(Notes, j, freq)
    requires forall j | k < j < |Notes| :: Dist(Notes, k, freq) < Dist(Notes, j, freq)
    ensures NearestIndex(freq) == k
  {
    NearestIsClosest(freq);
  }

  /** In a sorted table, an exact table frequency is matched by its own entry. */
  lemma SortedHit(table: seq<Note>, k: nat)
    requires StrictlyAscending(table) && k < |table|
    ensures Best(table, table[k].freq, |table|) == k
  {
    var freq := table[k].freq;
    BestIsLastClosest(table, freq, |table|);
    var n := Best(table, freq, |table|);
    assert Dist(table, n, freq) <= Dist(table, k, freq) == 0.0;
  }

  /** In a sorted table, a query half-way between entries `k` and `k + 1`
      is matched by entry `k + 1`. */
  lemma SortedTie(table: seq<Note>, freq: real, k: nat)
    requires StrictlyAscending(table) && k + 1 < |table|
    requires table[k].freq < freq < table[k + 1].freq
    requires freq - table[k].freq == table[k + 1].freq - freq
    ensures Best(table, freq, |table|) == k + 1
  {
    BestIsLastClosest(table, freq, |table|);
    assert forall j | 0 <= j < k :: Dist(table, j, freq) > Dist(table, k, freq);
    assert forall j | k + 1 < j < |table| :: Dist(table, j, freq) > Dist(table, k + 1, freq);
  }

  /** In a sorted table, a query at or below the first entry is matched by it. */
  lemma SortedBelowFirst(table: seq<Note>, freq: real)
    requires StrictlyAscending(table) && 0 < |table|
    requires freq <= table[0].freq
    ensures Best(table, freq, |table|) == 0
  {
    BestIsLastClosest(table, freq, |table|);
    assert forall j | 0 < j < |table| :: Dist(table, j, freq) > Dist(table, 0, freq);
  }

  /** In a sorted table, a query at or above the last entry is matched by it. */
  lemma SortedAboveLast(table: seq<Note>, freq: real)
    requires StrictlyAscending(table) && 0 < |table|
    requires freq >= table[|table| - 1].freq
    ensures Best(table, freq, |table|) == |table| - 1
  {
    BestIsLastClosest(table, freq, |table|);
  }

  /** An exact table frequency matches its own entry (e.g. 440 Hz gives "A4"). */
  lemma TableHit(k: nat)
    requires k < |Notes|
    ensures NearestIndex(Notes[k].freq) == k
  {
    NotesStrictlyAscending();
    SortedHit(Notes, k);
  }

  /** A query exactly half-way between two neighbouring entries goes to the
      higher one, because the source compares with `<=`. */
  lemma TieGoesToHigher(freq: real, k: nat)
    requires k + 1 < |Notes|
    requires Notes[k].freq < freq < Notes[k + 1].freq
    requires freq - Notes[k].freq == Notes[k + 1].freq - freq
    ensures NearestIndex(freq) == k + 1
  {
    NotesStrictlyAscending();
    SortedTie(Notes, freq, k);
  }

  /** Every query at or below the lowest entry yields "A#1". */
  lemma ClampLow(freq: real)
    requires freq <= 58.2705
    ensures Notes[NearestIndex(freq)] == Note("A#1", 58.2705)
  {
    NotesStrictlyAscending();
    SortedBelowFirst(Notes, freq);
  }

  /** Every query at or above the highest entry yields "C8". */
  lemma ClampHigh(freq: real)
    requires freq >= 4186.01
    ensures Notes[NearestIndex(freq)] == Note("C8", 4186.01)
  {
    NotesStrictlyAscending();
    SortedAboveLast(Notes, freq);
  }
}
