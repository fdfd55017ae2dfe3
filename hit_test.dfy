/**
 * Hit-testing a point of the keyboard surface against the key layout.
 *
 * The surface is `width` wide and `height` tall. The white keys are equal
 * columns across the whole width; the black keys sit in the top 60% band at
 * fixed offsets inside each group of seven white keys and are 0.6 white-key
 * widths wide. Coordinates are exact reals.
 */
module HitTest {
  import opened Options
  import opened Keys

  const WhitePerOctave: nat := 7

  /** Centres of the five black keys of an octave, in white-key widths from the octave's left edge. */
  const BlackRelPositions: seq<real> := [0.65, 1.55, 3.05, 3.95, 4.85]

  /** Black keys are 0.6 white-key widths wide and cover the top 0.6 of the height. */
  const BlackWidthRatio: real := 0.6
  const BlackHeightRatio: real := 0.6

  function Min(a: int, b: int): int
  {
    if a <= b then a else b
  }

  /** `coerceIn(lo, hi)`. */
  function Clamp(v: int, lo: int, hi: int): (r: int)
    requires lo <= hi
    ensures lo <= r <= hi
    ensures lo <= v <= hi ==> r == v
    ensures v < lo ==> r == lo
    ensures hi < v ==> r == hi
  {
    if v < lo then lo else if hi < v then hi else v
  }

  /** `Float.toInt()`: rounds toward zero. */
  function Truncate(q: real): (r: int)
    ensures 0.0 <= q ==> r as real <= q < r as real + 1.0
    ensures q < 0.0 ==> r as real - 1.0 < q <= r as real
  {
    if q >= 0.0 then q.Floor else -((-q).Floor)
  }

  /** The width of one white key. */
  function WhiteWidth(width: real, whiteCount: nat): (w: real)
    requires whiteCount > 0
    ensures width > 0.0 ==> w > 0.0
  {
    width / whiteCount as real
  }

  /** The white keys tile the whole width. */
  lemma WhiteKeysSpanWidth(width: real, whiteCount: nat)
    requires whiteCount > 0
    ensures whiteCount as real * WhiteWidth(width, whiteCount) == width
  {
  }

  /**
   * The number of black keys that are drawn and tested: the loops visit five
   * slots per whole group of seven white keys and stop once the black keys
   * run out.
   */
  function BlackSlots(whiteCount: nat, blackCount: nat): (n: nat)
    ensures n <= blackCount && n <= 5 * (whiteCount / WhitePerOctave)
    ensures n == blackCount || n == 5 * (whiteCount / WhitePerOctave)
  {
    Min(5 * (whiteCount / WhitePerOctave), blackCount)
  }

  /** The left edge of octave `oct`. */
  function OctaveLeft(oct: nat, whiteW: real): real
  {
    (oct * WhitePerOctave) as real * whiteW
  }

  /** The centre of the `k`-th black key: slot `k % 5` of octave `k / 5`. */
  function BlackCenter(k: nat, whiteW: real): real
  {
    OctaveLeft(k / 5, whiteW) + BlackRelPositions[k % 5] * whiteW
  }

  function BlackKeyWidth(whiteW: real): real
  {
    whiteW * BlackWidthRatio
  }

  /** `x` lies in the closed horizontal footprint of the `k`-th black key. */
  predicate OverBlack(x: real, k: nat, whiteW: real)
  {
    BlackCenter(k, whiteW) - BlackKeyWidth(whiteW) / 2.0 <= x <= BlackCenter(k, whiteW) + BlackKeyWidth(whiteW) / 2.0
  }

  /** The first black-key slot from `k` up to `limit` whose footprint holds `x`. */
  function FirstBlackHit(x: real, whiteW: real, limit: nat, k: nat): (r: Option<nat>)
    ensures r.Some? ==> k <= r.value < limit && OverBlack(x, r.value, whiteW)
    ensures r.Some? ==> forall j :: k <= j < r.value ==> !OverBlack(x, j, whiteW)
    ensures r.None? ==> forall j :: k <= j < limit ==> !OverBlack(x, j, whiteW)
    decreases limit - k
  {
    if k >= limit then None
    else if OverBlack(x, k, whiteW) then Some(k)
    else FirstBlackHit(x, whiteW, limit, k + 1)
  }

  /** What `isOverBlackKey` computes: the first black key, in drawing order, under `x`. */
  function BlackKeyUnder(x: real, width: real, whiteCount: nat, blacks: seq<KeySpec>): Option<KeySpec>
    requires whiteCount > 0
  {
    match FirstBlackHit(x, WhiteWidth(width, whiteCount), BlackSlots(whiteCount, |blacks|), 0)
    case Some(k) => Some(blacks[k])
    case None => None
  }

  /**
   * `isOverBlackKey`, with the black keys as a parameter: walk the octaves and
   * their five slots in drawing order, stop when the black keys run out, and
   * return the first black key whose footprint holds `x`.
   */
  method IsOverBlackKey(x: real, width: real, whiteCount: nat, blacks: seq<KeySpec>) returns (r: Option<KeySpec>)
    requires whiteCount > 0
    ensures r == BlackKeyUnder(x, width, whiteCount, blacks)
    ensures r.Some? ==> r.value in blacks
  {
    var whiteW := width / whiteCount as real;
    var octaveCount := whiteCount / WhitePerOctave;
    var blackKeyWidth := whiteW * BlackWidthRatio;
    ghost var limit := BlackSlots(whiteCount, |blacks|);
    var idx := 0;
    for oct := 0 to octaveCount
      invariant idx == Min(oct * 5, |blacks|)
      invariant forall j :: 0 <= j < idx ==> !OverBlack(x, j, whiteW)
    {
      var octaveLeft := (oct * WhitePerOctave) as real * whiteW;
      for i := 0 to 5
        invariant idx == Min(oct * 5 + i, |blacks|)
        invariant forall j :: 0 <= j < idx ==> !OverBlack(x, j, whiteW)
      {
        if idx >= |blacks| {
          break;
        }
        var centerX := octaveLeft + BlackRelPositions[i] * whiteW;
        var left := centerX - blackKeyWidth / 2.0;
        var right := centerX + blackKeyWidth / 2.0;
        SlotFootprint(x, oct, i, whiteW);
        if left <= x <= right {
          FirstHitIsFirst(x, whiteW, limit, idx);
          return Some(blacks[idx]);
        }
        idx := idx + 1;
      }
    }
    assert idx == limit;
    NoHitIsNone(x, whiteW, limit);
    return None;
  }

  lemma SlotOfIndex(oct: nat, i: nat)
    requires i < 5
    ensures (oct * 5 + i) / 5 == oct && (oct * 5 + i) % 5 == i
  {
  }

  /** Slot `i` of octave `oct` is black key `oct * 5 + i`, with the footprint the loop computes. */
  lemma SlotFootprint(x: real, oct: nat, i: nat, whiteW: real)
    requires i < 5
    ensures OverBlack(x, oct * 5 + i, whiteW) <==>
      (oct * WhitePerOctave) as real * whiteW + BlackRelPositions[i] * whiteW - whiteW * BlackWidthRatio / 2.0 <= x
      && x <= (oct * WhitePerOctave) as real * whiteW + BlackRelPositions[i] * whiteW + whiteW * BlackWidthRatio / 2.0
  {
    SlotOfIndex(oct, i);
  }

  /** A slot whose footprint holds `x`, with none before it, is the first hit. */
  lemma FirstHitIsFirst(x: real, whiteW: real, limit: nat, k: nat)
    requires k < limit && OverBlack(x, k, whiteW)
    requires forall j :: 0 <= j < k ==> !OverBlack(x, j, whiteW)
    ensures FirstBlackHit(x, whiteW, limit, 0) == Some(k)
  {
  }

  lemma NoHitIsNone(x: real, whiteW: real, limit: nat)
    requires forall j :: 0 <= j < limit ==> !OverBlack(x, j, whiteW)
    ensures FirstBlackHit(x, whiteW, limit, 0) == None
  {
  }

  /** The white column under `x`: `(x / whiteW).toInt()` clamped to the columns. */
  function WhiteIndex(x: real, whiteW: real, whiteCount: nat): (i: int)
    requires whiteW > 0.0 && whiteCount > 0
    ensures 0 <= i < whiteCount
  {
    Clamp(Truncate(x / whiteW), 0, whiteCount - 1)
  }

  /**
   * The hit-test shared by the code as written and the corrected one: black
   * keys from `blacks` win in the top band, otherwise the clamped white
   * column decides. With no white keys the clamp range is empty and the
   * source throws; that is `None` here.
   */
  function Locate(x: real, y: real, width: real, height: real, allKeys: seq<KeySpec>, blacks: seq<KeySpec>): (r: Option<int>)
    requires width > 0.0
    ensures r.Some? <==> |Whites(allKeys)| > 0
    ensures r.Some? ==> r.value in Pitches(allKeys) || r.value in Pitches(blacks)
  {
    var whites := Whites(allKeys);
    if |whites| == 0 then None
    else
      var whiteW := WhiteWidth(width, |whites|);
      var whiteIndex := WhiteIndex(x, whiteW, |whites|);
      var black := if y <= height * BlackHeightRatio then BlackKeyUnder(x, width, |whites|, blacks) else None;
      if black.Some? then
        assert black.value in blacks;
        Some(black.value.midi)
      else
        assert whites[whiteIndex] in allKeys;
        Some(whites[whiteIndex].midi)
  }

  /**
   * `keyAtPosition`, corrected so that the black keys tested are those of
   * `allKeys` (the keys that are drawn). Whenever there is a white key the
   * result is the pitch of one of the keys.
   */
  function KeyAtPosition(x: real, y: real, width: real, height: real, allKeys: seq<KeySpec>): (r: Option<int>)
    requires width > 0.0
    ensures r.Some? <==> |Whites(allKeys)| > 0
    ensures r.Some? ==> r.value in Pitches(allKeys)
  {
    var r := Locate(x, y, width, height, allKeys, Blacks(allKeys));
    assert r.Some? && r.value in Pitches(Blacks(allKeys)) ==> r.value in Pitches(allKeys);
    r
  }

  /**
   * `keyAtPosition` as written: `isOverBlackKey` ignores the keys passed in
   * and tests the black keys of the layout that starts at MIDI 60.
   */
  function KeyAtPositionAsWritten(x: real, y: real, width: real, height: real, allKeys: seq<KeySpec>): (r: Option<int>)
    requires width > 0.0
    ensures r.Some? <==> |Whites(allKeys)| > 0
    ensures r.Some? ==> r.value in Pitches(allKeys) || r.value in Pitches(BuildThreeOctaves(60))
  {
    var r := Locate(x, y, width, height, allKeys, Blacks(BuildThreeOctaves(60)));
    assert r.Some? && r.value in Pitches(Blacks(BuildThreeOctaves(60))) ==> r.value in Pitches(BuildThreeOctaves(60));
    r
  }

  /** The centre of the `k`-th black key, in white-key widths. */
  function BlackOffset(k: nat): real
  {
    ((k / 5) * WhitePerOctave) as real + BlackRelPositions[k % 5]
  }

  lemma CenterScales(k: nat, whiteW: real)
    ensures BlackCenter(k, whiteW) == BlackOffset(k) * whiteW
  {
  }

  lemma OffsetStep(k: nat)
    ensures BlackOffset(k + 1) >= BlackOffset(k) + 0.9
  {
    if k % 5 < 4 {
      assert (k + 1) / 5 == k / 5 && (k + 1) % 5 == k % 5 + 1;
    } else {
      assert (k + 1) / 5 == k / 5 + 1 && (k + 1) % 5 == 0;
    }
  }

  /** Black-key centres rise by at least 0.9 white-key widths from one key to the next. */
  lemma {:induction false} OffsetGap(j: nat, k: nat)
    requires j < k
    ensures BlackOffset(k) >= BlackOffset(j) + 0.9
    decreases k
  {
    OffsetStep(k - 1);
    if j < k - 1 {
      OffsetGap(j, k - 1);
    }
  }

  /** Black-key centres lie between 0.65 and 4.85 white-key widths into their octave. */
  lemma OffsetBounds(k: nat)
    ensures BlackOffset(k) >= 0.65
    ensures BlackOffset(k) <= ((k / 5) * WhitePerOctave) as real + 4.85
  {
  }

  lemma ScaleMono(a: real, b: real, w: real)
    requires a >= b && w > 0.0
    ensures a * w >= b * w
  {
  }

  /**
   * No point lies over two black keys: the footprints, 0.6 white-key widths
   * wide, are centred at least 0.9 white-key widths apart.
   */
  lemma FootprintsDisjoint(x: real, j: nat, k: nat, whiteW: real)
    requires whiteW > 0.0 && j < k && OverBlack(x, j, whiteW)
    ensures !OverBlack(x, k, whiteW)
  {
    CenterScales(j, whiteW);
    CenterScales(k, whiteW);
    OffsetGap(j, k);
    Separated(x, BlackOffset(j), BlackOffset(k), whiteW);
  }

  /** Two footprints whose centres are 0.9 white-key widths apart do not meet. */
  lemma Separated(x: real, a: real, b: real, w: real)
    requires w > 0.0 && b >= a + 0.9
    requires x <= a * w + BlackKeyWidth(w) / 2.0
    ensures x < b * w - BlackKeyWidth(w) / 2.0
  {
    ScaleMono(b, a + 0.9, w);
    assert (a + 0.9) * w == a * w + 0.9 * w;
  }

  /** A point over the `k`-th black key meets that key and no earlier one. */
  lemma UniqueHit(x: real, whiteW: real, limit: nat, k: nat)
    requires whiteW > 0.0 && k < limit && OverBlack(x, k, whiteW)
    ensures FirstBlackHit(x, whiteW, limit, 0) == Some(k)
  {
    var hit := FirstBlackHit(x, whiteW, limit, 0);
    if hit.Some? && hit.value < k {
      FootprintsDisjoint(x, hit.value, k, whiteW);
    }
  }

  /**
   * Black keys win: a point in the top band over the `k`-th tested black key
   * resolves to that key's pitch, never to the white key beneath it.
   */
  lemma LocateBlack(x: real, y: real, width: real, height: real, allKeys: seq<KeySpec>, blacks: seq<KeySpec>, k: nat)
    requires width > 0.0 && |Whites(allKeys)| > 0
    requires y <= height * BlackHeightRatio
    requires k < BlackSlots(|Whites(allKeys)|, |blacks|)
    requires OverBlack(x, k, WhiteWidth(width, |Whites(allKeys)|))
    ensures Locate(x, y, width, height, allKeys, blacks) == Some(blacks[k].midi)
  {
    var n := |Whites(allKeys)|;
    UniqueHit(x, WhiteWidth(width, n), BlackSlots(n, |blacks|), k);
  }

  /** The corrected hit-test gives the `k`-th black key of the layout wherever it lies over it in the top band. */
  lemma BlackPriority(x: real, y: real, width: real, height: real, allKeys: seq<KeySpec>, k: nat)
    requires width > 0.0 && |Whites(allKeys)| > 0
    requires y <= height * BlackHeightRatio
    requires k < BlackSlots(|Whites(allKeys)|, |Blacks(allKeys)|)
    requires OverBlack(x, k, WhiteWidth(width, |Whites(allKeys)|))
    ensures KeyAtPosition(x, y, width, height, allKeys) == Some(Blacks(allKeys)[k].midi)
  {
    LocateBlack(x, y, width, height, allKeys, Blacks(allKeys), k);
  }

  /** Below the black band every point resolves to a white key, the one of the clamped column. */
  lemma WhiteBelowBand(x: real, y: real, width: real, height: real, allKeys: seq<KeySpec>)
    requires width > 0.0 && |Whites(allKeys)| > 0
    requires y > height * BlackHeightRatio
    ensures KeyAtPosition(x, y, width, height, allKeys)
         == Some(Whites(allKeys)[WhiteIndex(x, WhiteWidth(width, |Whites(allKeys)|), |Whites(allKeys)|)].midi)
    ensures KeyAtPosition(x, y, width, height, allKeys).value in Pitches(Whites(allKeys))
  {
  }

  /** `x / whiteW` lies in `[c, c + 1)` when `x` lies in column `c`. */
  lemma ColumnQuotient(x: real, whiteW: real, c: int)
    requires whiteW > 0.0 && c as real * whiteW <= x < (c + 1) as real * whiteW
    ensures c as real <= x / whiteW < (c + 1) as real
  {
    var q := x / whiteW;
    assert q * whiteW == x;
    if q < c as real {
      ScaleMono(c as real, q, whiteW);
    }
    if q >= (c + 1) as real {
      ScaleMono(q, (c + 1) as real, whiteW);
    }
  }

  /** When `(x / whiteW).toInt()` is a column, the clamp leaves it alone. */
  lemma QuotientIndex(x: real, whiteW: real, n: nat, c: nat)
    requires whiteW > 0.0 && c < n
    requires c as real <= x / whiteW < (c + 1) as real
    ensures WhiteIndex(x, whiteW, n) == c
  {
  }

  /** Away from every tested black key the hit-test falls through to the clamped white column. */
  lemma LocateWhite(x: real, y: real, width: real, height: real, allKeys: seq<KeySpec>, blacks: seq<KeySpec>)
    requires width > 0.0 && |Whites(allKeys)| > 0
    requires y > height * BlackHeightRatio || BlackKeyUnder(x, width, |Whites(allKeys)|, blacks).None?
    ensures Locate(x, y, width, height, allKeys, blacks)
         == Some(Whites(allKeys)[WhiteIndex(x, WhiteWidth(width, |Whites(allKeys)|), |Whites(allKeys)|)].midi)
  {
  }

  lemma WhiteAt(x: real, y: real, width: real, height: real, allKeys: seq<KeySpec>, c: nat)
    requires width > 0.0 && c < |Whites(allKeys)|
    requires WhiteIndex(x, WhiteWidth(width, |Whites(allKeys)|), |Whites(allKeys)|) == c
    requires y > height * BlackHeightRatio || BlackKeyUnder(x, width, |Whites(allKeys)|, Blacks(allKeys)).None?
    ensures KeyAtPosition(x, y, width, height, allKeys) == Some(Whites(allKeys)[c].midi)
  {
    LocateWhite(x, y, width, height, allKeys, Blacks(allKeys));
  }

  /**
   * Inside the `c`-th white column (`(x / whiteW).toInt()` is `c`), clear of
   * every tested black key, the result is the `c`-th white key.
   */
  lemma WhiteColumnHit(x: real, y: real, width: real, height: real, allKeys: seq<KeySpec>, c: nat)
    requires width > 0.0 && c < |Whites(allKeys)|
    requires c as real <= x / WhiteWidth(width, |Whites(allKeys)|) < (c + 1) as real
    requires y > height * BlackHeightRatio || BlackKeyUnder(x, width, |Whites(allKeys)|, Blacks(allKeys)).None?
    ensures KeyAtPosition(x, y, width, height, allKeys) == Some(Whites(allKeys)[c].midi)
  {
    WhiteAt(x, y, width, height, allKeys, c);
  }

  /** No black key reaches left of 0.35 white-key widths. */
  lemma NoBlackAtLeft(x: real, whiteW: real, limit: nat)
    requires whiteW > 0.0 && x < 0.35 * whiteW
    ensures FirstBlackHit(x, whiteW, limit, 0) == None
  {
    forall k: nat | k < limit
      ensures !OverBlack(x, k, whiteW)
    {
      OffsetBounds(k);
      CenterScales(k, whiteW);
      ScaleMono(BlackOffset(k), 0.65, whiteW);
    }
    NoHitIsNone(x, whiteW, limit);
  }

  /** Left of 0.35 white-key widths the clamped column is the first. */
  lemma LeftColumn(x: real, whiteW: real, n: nat)
    requires whiteW > 0.0 && n > 0 && x < 0.35 * whiteW
    ensures WhiteIndex(x, whiteW, n) == 0
  {
    if x < 0.0 {
      assert x / whiteW < 0.0;
    } else {
      ColumnQuotient(x, whiteW, 0);
    }
  }

  /** Left of the first black key, and off the left edge, everything is the first white key. */
  lemma LeftEdge(x: real, y: real, width: real, height: real, allKeys: seq<KeySpec>)
    requires width > 0.0 && |Whites(allKeys)| > 0
    requires x < 0.35 * WhiteWidth(width, |Whites(allKeys)|)
    ensures KeyAtPosition(x, y, width, height, allKeys) == Some(Whites(allKeys)[0].midi)
  {
    var n := |Whites(allKeys)|;
    NoBlackAtLeft(x, WhiteWidth(width, n), BlackSlots(n, |Blacks(allKeys)|));
    LeftColumn(x, WhiteWidth(width, n), n);
  }

  /** On a keyboard laid out in ascending pitch, the left edge gives the lowest white pitch. */
  lemma LowestAtLeftEdge(x: real, y: real, width: real, height: real, allKeys: seq<KeySpec>)
    requires Ascending(allKeys) && width > 0.0 && |Whites(allKeys)| > 0
    requires x < 0.35 * WhiteWidth(width, |Whites(allKeys)|)
    ensures KeyAtPosition(x, y, width, height, allKeys).Some?
    ensures forall w :: w in Whites(allKeys) ==> KeyAtPosition(x, y, width, height, allKeys).value <= w.midi
  {
    LeftEdge(x, y, width, height, allKeys);
    WhiteEnds(allKeys);
  }

  /** No tested black key reaches the right edge of `n` white keys. */
  lemma NoBlackAtRight(x: real, whiteW: real, n: nat, limit: nat)
    requires whiteW > 0.0 && x >= n as real * whiteW
    requires limit <= 5 * (n / WhitePerOctave)
    ensures FirstBlackHit(x, whiteW, limit, 0) == None
  {
    forall k: nat | k < limit
      ensures !OverBlack(x, k, whiteW)
    {
      NotOverAtRight(x, whiteW, n, limit, k);
    }
    NoHitIsNone(x, whiteW, limit);
  }

  /** One tested black key ends before the right edge of `n` white keys. */
  lemma NotOverAtRight(x: real, whiteW: real, n: nat, limit: nat, k: nat)
    requires whiteW > 0.0 && x >= n as real * whiteW
    requires k < limit <= 5 * (n / WhitePerOctave)
    ensures !OverBlack(x, k, whiteW)
  {
    OffsetBounds(k);
    CenterScales(k, whiteW);
    SlotBeforeEdge(k, n, limit);
    LeftOfEdge(x, BlackOffset(k), n as real, whiteW);
  }

  /** A tested slot lies in an octave that ends at or before the last white key. */
  lemma SlotBeforeEdge(k: nat, n: nat, limit: nat)
    requires k < limit <= 5 * (n / WhitePerOctave)
    ensures (k / 5) * WhitePerOctave + WhitePerOctave <= n
  {
  }

  /** A footprint centred at least one white-key width left of an edge ends before it. */
  lemma LeftOfEdge(x: real, a: real, m: real, w: real)
    requires w > 0.0 && a + 1.0 <= m && x >= m * w
    ensures x > a * w + BlackKeyWidth(w) / 2.0
  {
    ScaleMono(m, a + 1.0, w);
    assert (a + 1.0) * w == a * w + 1.0 * w;
  }

  /** At and beyond the right edge the clamped column is the last. */
  lemma RightColumn(x: real, whiteW: real, n: nat)
    requires whiteW > 0.0 && n > 0 && x >= n as real * whiteW
    ensures WhiteIndex(x, whiteW, n) == n - 1
  {
    assert x / whiteW >= n as real by {
      assert x / whiteW * whiteW == x;
      if x / whiteW < n as real {
        ScaleMono(n as real, x / whiteW, whiteW);
      }
    }
  }

  /** At and beyond the right edge everything is the last white key. */
  lemma RightEdge(x: real, y: real, width: real, height: real, allKeys: seq<KeySpec>)
    requires width > 0.0 && |Whites(allKeys)| > 0
    requires x >= width
    ensures KeyAtPosition(x, y, width, height, allKeys) == Some(Whites(allKeys)[|Whites(allKeys)| - 1].midi)
  {
    BeyondRightEdge(x, width, |Whites(allKeys)|, BlackSlots(|Whites(allKeys)|, |Blacks(allKeys)|));
    WhiteAt(x, y, width, height, allKeys, |Whites(allKeys)| - 1);
  }

  /** On a keyboard laid out in ascending pitch, the right edge gives the highest white pitch. */
  lemma HighestAtRightEdge(x: real, y: real, width: real, height: real, allKeys: seq<KeySpec>)
    requires Ascending(allKeys) && width > 0.0 && |Whites(allKeys)| > 0
    requires x >= width
    ensures KeyAtPosition(x, y, width, height, allKeys).Some?
    ensures forall w :: w in Whites(allKeys) ==> w.midi <= KeyAtPosition(x, y, width, height, allKeys).value
  {
    RightEdge(x, y, width, height, allKeys);
    WhiteEnds(allKeys);
  }

  /** At and beyond the right edge no black key is hit and the clamped column is the last. */
  lemma BeyondRightEdge(x: real, width: real, n: nat, limit: nat)
    requires width > 0.0 && n > 0 && x >= width
    requires limit <= 5 * (n / WhitePerOctave)
    ensures FirstBlackHit(x, WhiteWidth(width, n), limit, 0) == None
    ensures WhiteIndex(x, WhiteWidth(width, n), n) == n - 1
  {
    WhiteKeysSpanWidth(width, n);
    NoBlackAtRight(x, WhiteWidth(width, n), n, limit);
    RightColumn(x, WhiteWidth(width, n), n);
  }

  /** For the start pitch 60 the screen uses, the code as written and the corrected hit-test agree. */
  lemma AsWrittenAgreesAt60(x: real, y: real, width: real, height: real)
    requires width > 0.0
    ensures KeyAtPositionAsWritten(x, y, width, height, BuildThreeOctaves(60))
         == KeyAtPosition(x, y, width, height, BuildThreeOctaves(60))
  {
  }
}
