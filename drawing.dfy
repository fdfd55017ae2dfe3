/**
 * The keyboard's canvas: the white keys as full-height columns separated by
 * one-pixel divider lines, then the black keys on top of them, each key
 * highlighted while its pitch is pressed. The drawing commands are returned
 * as a sequence in the order they are issued.
 */
module Drawing {
  import opened Options
  import opened Keys
  import opened HitTest

  /** The fill colours of the canvas. */
  datatype Paint = WhitePressed | WhiteIdle | BlackPressed | BlackIdle | Divider

  /** One drawing command. */
  datatype DrawOp =
    | FillRect(left: real, top: real, width: real, height: real, paint: Paint)
    | VLine(x: real, top: real, bottom: real, paint: Paint)

  /** The rectangle of the `i`-th white key: a column one pixel narrower than a white key, full height. */
  function WhiteRect(i: nat, key: KeySpec, pressed: set<int>, whiteW: real, height: real): DrawOp
  {
    FillRect(i as real * whiteW, 0.0, whiteW - 1.0, height, if key.midi in pressed then WhitePressed else WhiteIdle)
  }

  /** The divider drawn along the right edge of the `i`-th white key. */
  function WhiteDivider(i: nat, whiteW: real, height: real): DrawOp
  {
    VLine(i as real * whiteW + whiteW - 1.0, 0.0, height, Divider)
  }

  /** The rectangle of the `k`-th black key: centred on its slot, in the top band. */
  function BlackRect(k: nat, key: KeySpec, pressed: set<int>, whiteW: real, height: real): DrawOp
  {
    FillRect(BlackCenter(k, whiteW) - BlackKeyWidth(whiteW) / 2.0, 0.0, BlackKeyWidth(whiteW),
             height * BlackHeightRatio, if key.midi in pressed then BlackPressed else BlackIdle)
  }

  /** A point lies in a filled rectangle, edges included. */
  predicate Covers(op: DrawOp, x: real, y: real)
  {
    op.FillRect? && op.left <= x <= op.left + op.width && op.top <= y <= op.top + op.height
  }

  /**
   * The canvas body: the white keys, then the black keys on top. With no
   * white key nothing is drawn (the white loop is empty and there is no
   * whole octave of black slots).
   */
  method DrawKeyboard(keys: seq<KeySpec>, pressed: set<int>, width: real, height: real) returns (ops: seq<DrawOp>)
    ensures |Whites(keys)| == 0 ==> ops == []
    ensures |Whites(keys)| > 0 ==>
      ops == WhiteOps(Whites(keys), pressed, WhiteWidth(width, |Whites(keys)|), height)
           + BlackOps(Blacks(keys), BlackSlots(|Whites(keys)|, |Blacks(keys)|), pressed, WhiteWidth(width, |Whites(keys)|), height)
  {
    var whiteKeys := Whites(keys);
    var blackKeys := Blacks(keys);
    if |whiteKeys| == 0 {
      return [];
    }
    var whiteW := width / |whiteKeys| as real;
    var whiteOps := DrawWhiteKeys(whiteKeys, pressed, whiteW, height);
    var blackOps := DrawBlackKeys(blackKeys, |whiteKeys|, pressed, whiteW, height);
    ops := whiteOps + blackOps;
  }

  /** The white-key commands: a rectangle and a divider per key, left to right. */
  function WhiteOps(whites: seq<KeySpec>, pressed: set<int>, whiteW: real, height: real): (r: seq<DrawOp>)
    ensures |r| == 2 * |whites|
    ensures forall i :: 0 <= i < |whites| ==>
      r[2 * i] == WhiteRect(i, whites[i], pressed, whiteW, height) && r[2 * i + 1] == WhiteDivider(i, whiteW, height)
  {
    WhiteOpsUpTo(whites, |whites|, pressed, whiteW, height)
  }

  /** The commands for the first `n` white keys. */
  function WhiteOpsUpTo(whites: seq<KeySpec>, n: nat, pressed: set<int>, whiteW: real, height: real): (r: seq<DrawOp>)
    requires n <= |whites|
    ensures |r| == 2 * n
    ensures forall i :: 0 <= i < n ==>
      r[2 * i] == WhiteRect(i, whites[i], pressed, whiteW, height) && r[2 * i + 1] == WhiteDivider(i, whiteW, height)
  {
    if n == 0 then []
    else WhiteOpsUpTo(whites, n - 1, pressed, whiteW, height)
         + [WhiteRect(n - 1, whites[n - 1], pressed, whiteW, height), WhiteDivider(n - 1, whiteW, height)]
  }

  /** The black-key commands for the first `count` black keys, in slot order. */
  function BlackOps(blacks: seq<KeySpec>, count: nat, pressed: set<int>, whiteW: real, height: real): (r: seq<DrawOp>)
    requires count <= |blacks|
    ensures |r| == count
    ensures forall k :: 0 <= k < count ==> r[k] == BlackRect(k, blacks[k], pressed, whiteW, height)
  {
    seq(count, k requires 0 <= k < count => BlackRect(k, blacks[k], pressed, whiteW, height))
  }

  /** Draw white keys: `forEachIndexed` over the white keys. */
  method DrawWhiteKeys(whiteKeys: seq<KeySpec>, pressed: set<int>, whiteW: real, height: real) returns (ops: seq<DrawOp>)
    ensures ops == WhiteOps(whiteKeys, pressed, whiteW, height)
  {
    ops := [];
    for index := 0 to |whiteKeys|
      invariant ops == WhiteOpsUpTo(whiteKeys, index, pressed, whiteW, height)
    {
      var left := index as real * whiteW;
      var paint := if whiteKeys[index].midi in pressed then WhitePressed else WhiteIdle;
      ops := ops + [FillRect(left, 0.0, whiteW - 1.0, height, paint), VLine(left + whiteW - 1.0, 0.0, height, Divider)];
    }
  }

  /**
   * Draw black keys: five slots per whole octave of white keys, stopping
   * once the black keys run out.
   */
  method DrawBlackKeys(blackKeys: seq<KeySpec>, whiteCount: nat, pressed: set<int>, whiteW: real, height: real)
    returns (ops: seq<DrawOp>)
    ensures |ops| == BlackSlots(whiteCount, |blackKeys|)
    ensures ops == BlackOps(blackKeys, BlackSlots(whiteCount, |blackKeys|), pressed, whiteW, height)
  {
    ops := [];
    var octaveCount := whiteCount / WhitePerOctave;
    var blackKeyWidth := whiteW * BlackWidthRatio;
    var blackKeyHeight := height * BlackHeightRatio;
    var blackIndex := 0;
    for oct := 0 to octaveCount
      invariant blackIndex == Min(oct * 5, |blackKeys|) && |ops| == blackIndex
      invariant forall k :: 0 <= k < blackIndex ==> ops[k] == BlackRect(k, blackKeys[k], pressed, whiteW, height)
    {
      var octaveLeft := (oct * WhitePerOctave) as real * whiteW;
      for i := 0 to 5
        invariant blackIndex == Min(oct * 5 + i, |blackKeys|) && |ops| == blackIndex
        invariant forall k :: 0 <= k < blackIndex ==> ops[k] == BlackRect(k, blackKeys[k], pressed, whiteW, height)
      {
        if blackIndex >= |blackKeys| {
          break;
        }
        var key := blackKeys[blackIndex];
        SlotOfIndex(oct, i);
        var centerX := octaveLeft + BlackRelPositions[i] * whiteW;
        var left := centerX - blackKeyWidth / 2.0;
        var paint := if key.midi in pressed then BlackPressed else BlackIdle;
        ops := ops + [FillRect(left, 0.0, blackKeyWidth, blackKeyHeight, paint)];
        blackIndex := blackIndex + 1;
      }
    }
  }

  /**
   * The hit-test mirrors the drawing: a point on the `k`-th black key as it is
   * drawn resolves to that key's pitch.
   */
  lemma BlackKeyDrawnWhereHit(x: real, y: real, width: real, height: real, keys: seq<KeySpec>, pressed: set<int>, k: nat)
    requires width > 0.0 && |Whites(keys)| > 0
    requires k < BlackSlots(|Whites(keys)|, |Blacks(keys)|)
    requires Covers(BlackRect(k, Blacks(keys)[k], pressed, WhiteWidth(width, |Whites(keys)|), height), x, y)
    ensures KeyAtPosition(x, y, width, height, keys) == Some(Blacks(keys)[k].midi)
  {
    BlackPriority(x, y, width, height, keys, k);
  }

  /** A point on the drawn `i`-th white key lies in column `i`. */
  lemma WhiteRectColumn(x: real, whiteW: real, i: nat)
    requires whiteW > 0.0 && i as real * whiteW <= x <= i as real * whiteW + (whiteW - 1.0)
    ensures i as real <= x / whiteW < (i + 1) as real
  {
    assert (i + 1) as real * whiteW == i as real * whiteW + whiteW;
    ColumnQuotient(x, whiteW, i);
  }

  /**
   * The hit-test mirrors the drawing: on the `i`-th of `n` white keys as it is
   * drawn, `(x / whiteW).toInt()` is `i` and so is the clamped column, so away
   * from the black keys (`HitTest.WhiteColumnHit`) the point resolves to that key.
   */
  lemma WhiteKeyDrawnWhereHit(x: real, y: real, whiteW: real, height: real, n: nat, key: KeySpec, pressed: set<int>, i: nat)
    requires whiteW > 0.0 && i < n
    requires Covers(WhiteRect(i, key, pressed, whiteW, height), x, y)
    ensures i as real <= x / whiteW < (i + 1) as real
    ensures WhiteIndex(x, whiteW, n) == i
  {
    WhiteRectColumn(x, whiteW, i);
    QuotientIndex(x, whiteW, n, i);
  }

  /**
   * What is visible of the `i`-th white key sounds that key: a point on its
   * drawn rectangle that no drawn black key covers resolves to its pitch.
   */
  lemma WhiteKeyHeardWhereDrawn(x: real, y: real, width: real, height: real, keys: seq<KeySpec>, pressed: set<int>, i: nat)
    requires width > 0.0 && i < |Whites(keys)|
    requires Covers(WhiteRect(i, Whites(keys)[i], pressed, WhiteWidth(width, |Whites(keys)|), height), x, y)
    requires forall op ::
      op in BlackOps(Blacks(keys), BlackSlots(|Whites(keys)|, |Blacks(keys)|), pressed, WhiteWidth(width, |Whites(keys)|), height)
      ==> !Covers(op, x, y)
    ensures KeyAtPosition(x, y, width, height, keys) == Some(Whites(keys)[i].midi)
  {
    WhiteKeyDrawnWhereHit(x, y, WhiteWidth(width, |Whites(keys)|), height, |Whites(keys)|, Whites(keys)[i], pressed, i);
    if y <= height * BlackHeightRatio {
      NoBlackDrawnHere(x, y, WhiteWidth(width, |Whites(keys)|), height, Blacks(keys),
                       BlackSlots(|Whites(keys)|, |Blacks(keys)|), pressed);
    }
    WhiteAt(x, y, width, height, keys, i);
  }

  /** In the top band, a point no drawn black key covers is over no tested black key. */
  lemma NoBlackDrawnHere(x: real, y: real, whiteW: real, height: real, blacks: seq<KeySpec>, limit: nat, pressed: set<int>)
    requires limit <= |blacks| && 0.0 <= y <= height * BlackHeightRatio
    requires forall op :: op in BlackOps(blacks, limit, pressed, whiteW, height) ==> !Covers(op, x, y)
    ensures FirstBlackHit(x, whiteW, limit, 0) == None
  {
    var ops := BlackOps(blacks, limit, pressed, whiteW, height);
    forall k | 0 <= k < limit
      ensures !OverBlack(x, k, whiteW)
    {
      assert ops[k] in ops;
    }
    NoHitIsNone(x, whiteW, limit);
  }

  /**
   * The hit-test as written does not mirror the drawing once the keyboard
   * starts on any C other than middle C: on a 21-pixel-wide keyboard the
   * point (0.65, 0) lies on the first black key drawn, the C# above the start
   * (49 for a keyboard from C3, MIDI 48). The corrected hit-test returns that
   * key, but the code as written returns C#4 (61).
   */
  lemma AsWrittenMissesDrawnKey(startMidi: int)
    requires PitchClass(startMidi) == 0 && startMidi != 60
    ensures |Blacks(BuildThreeOctaves(startMidi))| == 15
    ensures Covers(BlackRect(0, Blacks(BuildThreeOctaves(startMidi))[0], {},
                             WhiteWidth(21.0, |Whites(BuildThreeOctaves(startMidi))|), 1.0), 0.65, 0.0)
    ensures Blacks(BuildThreeOctaves(startMidi))[0].midi == startMidi + 1
    ensures KeyAtPosition(0.65, 0.0, 21.0, 1.0, BuildThreeOctaves(startMidi)) == Some(startMidi + 1)
    ensures KeyAtPositionAsWritten(0.65, 0.0, 21.0, 1.0, BuildThreeOctaves(startMidi)) == Some(61)
    ensures KeyAtPosition(0.65, 0.0, 21.0, 1.0, BuildThreeOctaves(startMidi))
         != KeyAtPositionAsWritten(0.65, 0.0, 21.0, 1.0, BuildThreeOctaves(startMidi))
  {
    LayoutFromC(startMidi);
    LayoutFromC(60);
    FirstSlotHit(BuildThreeOctaves(startMidi), Blacks(BuildThreeOctaves(startMidi)));
    FirstSlotHit(BuildThreeOctaves(startMidi), Blacks(BuildThreeOctaves(60)));
  }

  /** The concrete instance: the keyboard from C3. */
  lemma AsWrittenMissesC3()
    ensures KeyAtPosition(0.65, 0.0, 21.0, 1.0, BuildThreeOctaves(48)) == Some(49)
    ensures KeyAtPositionAsWritten(0.65, 0.0, 21.0, 1.0, BuildThreeOctaves(48)) == Some(61)
  {
    AsWrittenMissesDrawnKey(48);
  }

  /** A layout from a C: 21 white keys, 15 black keys, the first of them a semitone up. */
  lemma LayoutFromC(startMidi: int)
    requires PitchClass(startMidi) == 0
    ensures |Whites(BuildThreeOctaves(startMidi))| == 21 && |Blacks(BuildThreeOctaves(startMidi))| == 15
    ensures Blacks(BuildThreeOctaves(startMidi))[0].midi == startMidi + 1
  {
    ThreeOctaveCounts(startMidi);
    FirstAccidentalAfterC(startMidi);
  }

  /** With 21 white keys across 21 pixels, the point (0.65, 0) is on the first black key slot. */
  lemma FirstSlotHit(allKeys: seq<KeySpec>, blacks: seq<KeySpec>)
    requires |Whites(allKeys)| == 21 && |blacks| == 15
    ensures Covers(BlackRect(0, blacks[0], {}, WhiteWidth(21.0, |Whites(allKeys)|), 1.0), 0.65, 0.0)
    ensures Locate(0.65, 0.0, 21.0, 1.0, allKeys, blacks) == Some(blacks[0].midi)
  {
    assert WhiteWidth(21.0, |Whites(allKeys)|) == 1.0;
    assert OverBlack(0.65, 0, 1.0);
    LocateBlack(0.65, 0.0, 21.0, 1.0, allKeys, blacks, 0);
  }
}
