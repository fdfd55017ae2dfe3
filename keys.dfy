/**
 * The key layout of the on-screen piano: 36 consecutive semitones starting
 * at a given MIDI pitch, each tagged as natural (white) or accidental (black)
 * and labelled with its note name.
 */
module Keys {

  /** One key of the keyboard (the source calls the name field `label`, a reserved word here). */
  datatype KeySpec = KeySpec(midi: int, isBlack: bool, name: string)

  /** Note names indexed by pitch class; the accidentals carry a '#'. */
  const Names: seq<string> := ["C", "C#", "D", "D#", "E", "F", "F#", "G", "G#", "A", "A#", "B"]

  /** Three octaves of semitones. */
  const KeyCount: nat := 36

  /** The pitch classes of the accidentals C#, D#, F#, G# and A#. */
  predicate IsAccidentalClass(pc: int)
  {
    pc == 1 || pc == 3 || pc == 6 || pc == 8 || pc == 10
  }

  /** Kotlin's `%` on Int: the remainder truncates toward zero and takes the sign of `a`. */
  function Rem(a: int, b: int): (r: int)
    requires b > 0
    ensures -b < r < b
    ensures a >= 0 ==> 0 <= r
    ensures a <= 0 ==> r <= 0
    ensures a == b * Quot(a, b) + r
  {
    if a >= 0 then a % b else -((-a) % b)
  }

  /** Kotlin's `/` on Int: the quotient truncated toward zero. */
  function Quot(a: int, b: int): int
    requires b > 0
  {
    if a >= 0 then a / b else -((-a) / b)
  }

  /** The pitch class `((midi % 12) + 12) % 12`, in range even for negative pitches. */
  function PitchClass(midi: int): (pc: int)
    ensures 0 <= pc < 12
    ensures pc == midi % 12
  {
    Rem(Rem(midi, 12) + 12, 12)
  }

  /** The key for one pitch: its label is the name of its pitch class, and it is black when the name has a '#'. */
  function MakeKey(midi: int): (k: KeySpec)
    ensures k.midi == midi
    ensures k.name == Names[PitchClass(midi)]
    ensures k.isBlack <==> IsAccidentalClass(PitchClass(midi))
  {
    var name := Names[PitchClass(midi)];
    KeySpec(midi, '#' in name, name)
  }

  /** The keys for the `n` consecutive pitches starting at `start`. */
  function KeysFrom(start: int, n: nat): (r: seq<KeySpec>)
    ensures |r| == n
    ensures forall i :: 0 <= i < n ==> r[i] == MakeKey(start + i)
  {
    seq(n, i requires 0 <= i < n => MakeKey(start + i))
  }

  /** The 36 keys of the keyboard, from `startMidi` upward (60 is middle C). */
  function BuildThreeOctaves(startMidi: int): (r: seq<KeySpec>)
    ensures |r| == KeyCount
    ensures forall i :: 0 <= i < |r| ==> r[i].midi == startMidi + i
    ensures forall i :: 0 <= i < |r| ==> r[i].name == Names[PitchClass(startMidi + i)]
    ensures forall i :: 0 <= i < |r| ==> (r[i].isBlack <==> IsAccidentalClass(PitchClass(startMidi + i)))
  {
    KeysFrom(startMidi, KeyCount)
  }

  /** The pitches of a key sequence. */
  function Pitches(keys: seq<KeySpec>): set<int>
  {
    set k | k in keys :: k.midi
  }

  /** The natural keys, in order (`keys.filter { !it.isBlack }`). */
  function Whites(keys: seq<KeySpec>): (r: seq<KeySpec>)
    ensures |r| <= |keys|
    ensures forall k :: k in r <==> k in keys && !k.isBlack
  {
    if keys == [] then []
    else (if keys[0].isBlack then [] else [keys[0]]) + Whites(keys[1..])
  }

  /** The accidental keys, in order (`keys.filter { it.isBlack }`). */
  function Blacks(keys: seq<KeySpec>): (r: seq<KeySpec>)
    ensures |r| <= |keys|
    ensures forall k :: k in r <==> k in keys && k.isBlack
  {
    if keys == [] then []
    else (if keys[0].isBlack then [keys[0]] else []) + Blacks(keys[1..])
  }

  /** The keys are in strictly increasing pitch order. */
  predicate Ascending(keys: seq<KeySpec>)
  {
    forall i, j :: 0 <= i < j < |keys| ==> keys[i].midi < keys[j].midi
  }

  /** Filtering keeps the order: the white keys and the black keys of an ascending layout ascend. */
  lemma WhitesBlacksAscending(keys: seq<KeySpec>)
    requires Ascending(keys)
    ensures Ascending(Whites(keys)) && Ascending(Blacks(keys))
  {
    WhitesAscending(keys);
    BlacksAscending(keys);
  }

  lemma {:induction false} WhitesAscending(keys: seq<KeySpec>)
    requires Ascending(keys)
    ensures Ascending(Whites(keys))
  {
    if keys != [] {
      HeadBelowRest(keys);
      WhitesAscending(keys[1..]);
      if !keys[0].isBlack {
        ConsAscending(keys[0], Whites(keys[1..]));
      }
    }
  }

  lemma {:induction false} BlacksAscending(keys: seq<KeySpec>)
    requires Ascending(keys)
    ensures Ascending(Blacks(keys))
  {
    if keys != [] {
      HeadBelowRest(keys);
      BlacksAscending(keys[1..]);
      if keys[0].isBlack {
        ConsAscending(keys[0], Blacks(keys[1..]));
      }
    }
  }

  /** The first key of an ascending list is below all the others, and the rest still ascends. */
  lemma HeadBelowRest(keys: seq<KeySpec>)
    requires Ascending(keys) && keys != []
    ensures Ascending(keys[1..])
    ensures forall m :: m in keys[1..] ==> keys[0].midi < m.midi
  {
    var rest := keys[1..];
    forall i, j | 0 <= i < j < |rest|
      ensures rest[i].midi < rest[j].midi
    {
      assert rest[i] == keys[i + 1] && rest[j] == keys[j + 1];
    }
    forall m | m in rest
      ensures keys[0].midi < m.midi
    {
      var j :| 0 <= j < |rest| && rest[j] == m;
      assert keys[j + 1] == m;
    }
  }

  /** A key below every key of an ascending list keeps it ascending when put in front. */
  lemma ConsAscending(k: KeySpec, ks: seq<KeySpec>)
    requires Ascending(ks) && forall m :: m in ks ==> k.midi < m.midi
    ensures Ascending([k] + ks) && Ascending(ks)
  {
    var r := [k] + ks;
    forall i, j | 0 <= i < j < |r|
      ensures r[i].midi < r[j].midi
    {
      assert r[j] == ks[j - 1];
      if i > 0 {
        assert r[i] == ks[i - 1];
      }
    }
  }

  /** In an ascending layout the first white key is the lowest white pitch and the last the highest. */
  lemma WhiteEnds(keys: seq<KeySpec>)
    requires Ascending(keys) && |Whites(keys)| > 0
    ensures forall w :: w in Whites(keys) ==> Whites(keys)[0].midi <= w.midi <= Whites(keys)[|Whites(keys)| - 1].midi
  {
    WhitesBlacksAscending(keys);
    AscendingEnds(Whites(keys));
  }

  /** The ends of an ascending list are its lowest and highest pitches. */
  lemma AscendingEnds(ks: seq<KeySpec>)
    requires Ascending(ks) && |ks| > 0
    ensures forall k :: k in ks ==> ks[0].midi <= k.midi <= ks[|ks| - 1].midi
  {
    forall k | k in ks
      ensures ks[0].midi <= k.midi <= ks[|ks| - 1].midi
    {
      var j :| 0 <= j < |ks| && ks[j] == k;
      if 0 < j { assert ks[0].midi < ks[j].midi; }
      if j < |ks| - 1 { assert ks[j].midi < ks[|ks| - 1].midi; }
    }
  }

  /** The keyboard is laid out in ascending pitch. */
  lemma LayoutAscending(startMidi: int)
    ensures Ascending(BuildThreeOctaves(startMidi))
  {
  }

  /** The white and black keys partition the keys. */
  lemma {:induction false} PartitionSize(keys: seq<KeySpec>)
    ensures |Whites(keys)| + |Blacks(keys)| == |keys|
  {
    if keys != [] {
      PartitionSize(keys[1..]);
    }
  }

  /** The number of accidentals among the pitches `p .. p + n - 1`. */
  function BlackCount(p: int, n: nat): (c: nat)
    ensures c <= n
    decreases n
  {
    if n == 0 then 0
    else (if IsAccidentalClass(PitchClass(p)) then 1 else 0) + BlackCount(p + 1, n - 1)
  }

  lemma {:induction false} BlacksFromCount(p: int, n: nat)
    ensures |Blacks(KeysFrom(p, n))| == BlackCount(p, n)
    decreases n
  {
    if n > 0 {
      assert KeysFrom(p, n)[1..] == KeysFrom(p + 1, n - 1);
      BlacksFromCount(p + 1, n - 1);
    }
  }

  lemma {:induction false} BlackCountSplit(p: int, a: nat, b: nat)
    ensures BlackCount(p, a + b) == BlackCount(p, a) + BlackCount(p + a, b)
    decreases a
  {
    if a > 0 {
      BlackCountSplit(p + 1, a - 1, b);
    }
  }

  /** The number of accidental pitch classes in `c .. 11`. */
  function AccidentalClassesFrom(c: int): nat
    decreases 12 - c
  {
    if c >= 12 then 0
    else (if IsAccidentalClass(c) then 1 else 0) + AccidentalClassesFrom(c + 1)
  }

  lemma ClassAfterC(z: int, i: int)
    requires PitchClass(z) == 0 && 0 <= i < 12
    ensures PitchClass(z + i) == i
  {
  }

  /**
   * Counting the pitches `q .. q + n - i - 1`, where `q` is `i` semitones above
   * a C, is counting the pitch classes `i .. n - 1`.
   */
  lemma {:induction false} ClassesOfOctave(z: int, q: int, i: int, n: int)
    requires PitchClass(z) == 0 && q == z + i && 0 <= i <= n <= 12
    ensures BlackCount(q, n - i) == AccidentalClassesFrom(i) - AccidentalClassesFrom(n)
    decreases n - i
  {
    if i < n {
      ClassAfterC(z, i);
      ClassesOfOctave(z, q + 1, i + 1, n);
    }
  }

  lemma ClassesFromC(z: int, n: int)
    requires PitchClass(z) == 0 && 0 <= n <= 12
    ensures BlackCount(z, n) == AccidentalClassesFrom(0) - AccidentalClassesFrom(n)
  {
    ClassesOfOctave(z, z, 0, n);
  }

  lemma AllAccidentalClasses()
    ensures AccidentalClassesFrom(0) == 5 && AccidentalClassesFrom(12) == 0
  {
  }

  /** The C at or below a pitch, and the C above it. */
  lemma OctaveStart(p: int)
    ensures PitchClass(p - PitchClass(p)) == 0
    ensures PitchClass(p + (12 - PitchClass(p))) == 0
  {
  }

  lemma SumAround(p: int, a: int, c: int)
    requires 0 <= a && 0 <= c && a + c == 12
    requires BlackCount(p, a) == AccidentalClassesFrom(c) - AccidentalClassesFrom(12)
    requires BlackCount(p + a, c) == AccidentalClassesFrom(0) - AccidentalClassesFrom(c)
    ensures BlackCount(p, 12) == 5
  {
    BlackCountSplit(p, a, c);
    AllAccidentalClasses();
  }

  /** Every twelve consecutive semitones hold exactly five accidentals. */
  lemma AccidentalsPerOctave(p: int)
    ensures BlackCount(p, 12) == 5
  {
    var c := PitchClass(p);
    OctaveStart(p);
    ClassesOfOctave(p - c, p, c, 12);
    ClassesFromC(p + (12 - c), c);
    SumAround(p, 12 - c, c);
  }

  /** Starting on a C, the first accidental is the C# right above it. */
  lemma FirstAccidentalAfterC(startMidi: int)
    requires PitchClass(startMidi) == 0
    ensures |Blacks(BuildThreeOctaves(startMidi))| > 0
    ensures Blacks(BuildThreeOctaves(startMidi))[0] == MakeKey(startMidi + 1)
  {
    var ks := BuildThreeOctaves(startMidi);
    ClassAfterC(startMidi, 1);
    assert ks[0] == MakeKey(startMidi) && !ks[0].isBlack;
    assert ks[1..][0] == MakeKey(startMidi + 1) && ks[1..][0].isBlack;
    assert Blacks(ks) == Blacks(ks[1..]);
    assert Blacks(ks[1..]) == [ks[1..][0]] + Blacks(ks[1..][1..]);
  }

  /** Whatever the start pitch, the keyboard has 21 white and 15 black keys. */
  lemma ThreeOctaveCounts(startMidi: int)
    ensures |Blacks(BuildThreeOctaves(startMidi))| == 15
    ensures |Whites(BuildThreeOctaves(startMidi))| == 21
  {
    BlacksFromCount(startMidi, KeyCount);
    BlackCountSplit(startMidi, 12, 24);
    BlackCountSplit(startMidi + 12, 12, 12);
    AccidentalsPerOctave(startMidi);
    AccidentalsPerOctave(startMidi + 12);
    AccidentalsPerOctave(startMidi + 24);
    PartitionSize(BuildThreeOctaves(startMidi));
  }
}
