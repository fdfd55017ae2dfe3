/**
 * The keyboard's pressed-key state and its gesture handlers. A tap press
 * highlights and sounds the key under the finger until the press ends; a
 * drag highlights the key under the finger as it slides, switching the note
 * whenever it reaches a different key. The callbacks `onNoteOn` and
 * `onNoteOff` are recorded, in order, in `events`.
 */
module Gestures {
  import opened Options
  import opened Keys
  import opened HitTest
  import opened Events

  /** The note-offs for a set of at most one pitch (`forEach(onNoteOff)` on the pressed set). */
  ghost function OffsFor(s: set<int>): (r: seq<Event>)
    requires |s| <= 1
    ensures |r| == |s|
    ensures forall i :: 0 <= i < |r| ==> r[i].NoteOff? && r[i].midi in s
  {
    if s == {} then [] else HasMember(s); var p :| p in s; [NoteOff(p)]
  }

  class PianoKeyboard {
    /** The keys laid out and hit-tested. */
    const keys: seq<KeySpec>
    /** The highlighted pitches (`pressedKeys`). */
    var pressed: set<int>
    /** The calls made to `onNoteOn` and `onNoteOff`, oldest first. */
    var events: seq<Event>
    /** The pitch a tap press holds while it waits for the finger to lift. */
    var tapHeld: Option<int>

    /**
     * At most one key is highlighted, it is a key of the layout, and its note
     * has been switched on and not off since.
     */
    ghost predicate Valid()
      reads this
    {
      |pressed| <= 1 && pressed <= Pitches(keys) && pressed <= Sounding(events)
      && (tapHeld.Some? ==> tapHeld.value in Pitches(keys))
    }

    /** The notes left sounding are exactly the highlighted keys. */
    ghost predicate InSync()
      reads this
    {
      Sounding(events) == pressed
    }

    constructor(keys: seq<KeySpec>)
      ensures this.keys == keys && pressed == {} && events == [] && tapHeld == None
      ensures Valid() && InSync()
    {
      this.keys := keys;
      pressed := {};
      events := [];
      tapHeld := None;
    }

    /** Tap `onPress`, up to the wait for release: highlight and sound the key under the finger. */
    method OnPress(x: real, y: real, width: real, height: real)
      requires Valid() && tapHeld.None? && width > 0.0
      modifies this
      ensures var hit := KeyAtPosition(x, y, width, height, keys);
        if hit.None? then pressed == old(pressed) && events == old(events) && tapHeld == None
        else pressed == {hit.value} && events == old(events) + [NoteOn(hit.value)] && tapHeld == hit
      ensures Valid()
      ensures old(InSync()) && old(pressed) == {} ==> InSync()
    {
      var midi := KeyAtPosition(x, y, width, height, keys);
      if midi.Some? {
        SoundingSnoc({}, events, NoteOn(midi.value));
        pressed := {midi.value};
        events := events + [NoteOn(midi.value)];
        tapHeld := midi;
      }
    }

    /**
     * Tap `onPress`, the `finally` after the wait, whether the finger lifted
     * or the press was cancelled: sound the held note off and clear every
     * highlight.
     */
    method OnPressEnd()
      requires Valid() && tapHeld.Some?
      modifies this
      ensures pressed == {} && events == old(events) + [NoteOff(old(tapHeld).value)] && tapHeld == None
      ensures Valid()
      ensures old(InSync()) && old(pressed) <= {old(tapHeld).value} ==> InSync()
    {
      var midi := tapHeld.value;
      SoundingSnoc({}, events, NoteOff(midi));
      events := events + [NoteOff(midi)];
      pressed := {};
      tapHeld := None;
    }

    /** Drag `onDragStart`: highlight and sound the key under the finger, if any. */
    method OnDragStart(x: real, y: real, width: real, height: real)
      requires Valid() && width > 0.0
      modifies this
      ensures var hit := KeyAtPosition(x, y, width, height, keys);
        if hit.None? then pressed == old(pressed) && events == old(events)
        else pressed == {hit.value} && events == old(events) + [NoteOn(hit.value)]
      ensures tapHeld == old(tapHeld)
      ensures Valid()
      ensures old(InSync()) && old(pressed) == {} ==> InSync()
    {
      var midi := KeyAtPosition(x, y, width, height, keys);
      if midi.Some? {
        SoundingSnoc({}, events, NoteOn(midi.value));
        pressed := {midi.value};
        events := events + [NoteOn(midi.value)];
      }
    }

    /** Drag `onDragEnd`: sound off every highlighted key and clear the highlight. */
    method OnDragEnd()
      requires Valid()
      modifies this
      ensures pressed == {} && events == old(events) + OffsFor(old(pressed)) && tapHeld == old(tapHeld)
      ensures Sounding(events) == Sounding(old(events)) - old(pressed)
      ensures Valid()
      ensures old(InSync()) ==> InSync()
    {
      NotifyOffs();
      pressed := {};
    }

    /** Drag `onDragCancel`: the same as the end of a drag. */
    method OnDragCancel()
      requires Valid()
      modifies this
      ensures pressed == {} && events == old(events) + OffsFor(old(pressed)) && tapHeld == old(tapHeld)
      ensures Sounding(events) == Sounding(old(events)) - old(pressed)
      ensures Valid()
      ensures old(InSync()) ==> InSync()
    {
      NotifyOffs();
      pressed := {};
    }

    /**
     * Drag move: when the finger is over a key that is not highlighted, sound
     * off the highlighted keys, then highlight and sound the new one;
     * otherwise nothing changes.
     */
    method OnDrag(x: real, y: real, width: real, height: real)
      requires Valid() && width > 0.0
      modifies this
      ensures var hit := KeyAtPosition(x, y, width, height, keys);
        if hit.Some? && hit.value !in old(pressed) then
          pressed == {hit.value} && events == old(events) + OffsFor(old(pressed)) + [NoteOn(hit.value)]
        else
          pressed == old(pressed) && events == old(events)
      ensures tapHeld == old(tapHeld)
      ensures Valid()
      ensures old(InSync()) ==> InSync()
    {
      var midi := KeyAtPosition(x, y, width, height, keys);
      var current := pressed;
      if midi.Some? && midi.value !in current {
        NotifyOffs();
        SoundingSnoc({}, events, NoteOn(midi.value));
        pressed := {midi.value};
        events := events + [NoteOn(midi.value)];
      }
    }

    /** `pressedKeys.value.forEach(onNoteOff)`: one note-off per highlighted pitch, in some order. */
    method NotifyOffs()
      requires Valid()
      modifies this`events
      ensures events == old(events) + OffsFor(pressed)
      ensures Sounding(events) == Sounding(old(events)) - pressed
    {
      var remaining := pressed;
      ghost var offs: seq<Event> := [];
      ghost var before := Sounding(events);
      while remaining != {}
        invariant remaining <= pressed
        invariant events == old(events) + offs
        invariant |offs| + |remaining| == |pressed|
        invariant forall i :: 0 <= i < |offs| ==> offs[i] == NoteOff(offs[i].midi) && offs[i].midi in pressed - remaining
        invariant SoundingFrom(before, offs) == before - (pressed - remaining)
        decreases |remaining|
      {
        var midi :| midi in remaining;
        SoundingSnoc(before, offs, NoteOff(midi));
        events := events + [NoteOff(midi)];
        offs := offs + [NoteOff(midi)];
        remaining := remaining - {midi};
      }
      SoundingAppend({}, old(events), offs);
      OffsOfAtMostOne(offs, pressed);
    }
  }

  /** With at most one pitch, any complete run of its note-offs is `OffsFor`. */
  lemma OffsOfAtMostOne(offs: seq<Event>, s: set<int>)
    requires |s| <= 1 && |offs| == |s|
    requires forall i :: 0 <= i < |offs| ==> offs[i] == NoteOff(offs[i].midi) && offs[i].midi in s
    ensures offs == OffsFor(s)
  {
    if s != {} {
      HasMember(s);
      var p :| p in s;
      assert |s - {p}| == 0;
      assert s == {p} by {
        assert s - {p} == {};
      }
    }
  }

  /**
   * If the drag recogniser starts on another key while a tap press is still
   * held, the tap's `finally` clears the highlight and sounds off only the
   * tapped note: the dragged-to note keeps sounding with nothing highlighted,
   * and ending the drag does not stop it.
   */
  method TapThenDragElsewhere(keys: seq<KeySpec>, x1: real, y1: real, x2: real, y2: real, width: real, height: real, a: int, b: int)
    returns (kb: PianoKeyboard)
    requires width > 0.0 && a != b
    requires KeyAtPosition(x1, y1, width, height, keys) == Some(a)
    requires KeyAtPosition(x2, y2, width, height, keys) == Some(b)
    ensures kb.pressed == {} && kb.tapHeld == None
    ensures kb.events == [NoteOn(a), NoteOn(b), NoteOff(a)]
    ensures Sounding(kb.events) == {b}
  {
    kb := new PianoKeyboard(keys);
    kb.OnPress(x1, y1, width, height);
    kb.OnDragStart(x2, y2, width, height);
    kb.OnPressEnd();
    kb.OnDragEnd();
    assert OffsFor({}) == [];
    SoundingSnoc({}, [], NoteOn(a));
    SoundingSnoc({}, [NoteOn(a)], NoteOn(b));
    SoundingSnoc({}, [NoteOn(a), NoteOn(b)], NoteOff(a));
  }
}
