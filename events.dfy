/**
 * The calls the keyboard makes to its two callbacks, `onNoteOn(midi)` and
 * `onNoteOff(midi)`, recorded in order, and the pitches such a log leaves
 * sounding: those whose last call was a note-on.
 */
module Events {

  datatype Event = NoteOn(midi: int) | NoteOff(midi: int)

  /** A non-empty set of pitches has a member. */
  lemma HasMember(s: set<int>)
    requires s != {}
    ensures exists p :: p in s
  {
    if forall p :: p !in s {
      assert false;
    }
  }

  /** The effect of one call on the set of sounding pitches. */
  function Apply(sounding: set<int>, e: Event): set<int>
  {
    match e
    case NoteOn(m) => sounding + {m}
    case NoteOff(m) => sounding - {m}
  }

  /** The pitches sounding after the calls `evs`, starting from `sounding`. */
  function SoundingFrom(sounding: set<int>, evs: seq<Event>): set<int>
    decreases |evs|
  {
    if evs == [] then sounding
    else Apply(SoundingFrom(sounding, evs[..|evs| - 1]), evs[|evs| - 1])
  }

  /** The pitches a log leaves sounding, starting from silence. */
  function Sounding(evs: seq<Event>): set<int>
  {
    SoundingFrom({}, evs)
  }

  /** One more call applies on top of what the earlier ones left. */
  lemma SoundingSnoc(sounding: set<int>, evs: seq<Event>, e: Event)
    ensures SoundingFrom(sounding, evs + [e]) == Apply(SoundingFrom(sounding, evs), e)
  {
    assert (evs + [e])[..|evs|] == evs;
  }

  /** Replaying a log in two parts is replaying it whole. */
  lemma {:induction false} SoundingAppend(sounding: set<int>, a: seq<Event>, b: seq<Event>)
    ensures SoundingFrom(sounding, a + b) == SoundingFrom(SoundingFrom(sounding, a), b)
    decreases |b|
  {
    if b == [] {
      assert a + b == a;
    } else {
      var b' := b[..|b| - 1];
      var e := b[|b| - 1];
      assert b == b' + [e];
      assert a + b == (a + b') + [e];
      calc {
        SoundingFrom(sounding, a + b);
        SoundingFrom(sounding, (a + b') + [e]);
        { SoundingSnoc(sounding, a + b', e); }
        Apply(SoundingFrom(sounding, a + b'), e);
        { SoundingAppend(sounding, a, b'); }
        Apply(SoundingFrom(SoundingFrom(sounding, a), b'), e);
        { SoundingSnoc(SoundingFrom(sounding, a), b', e); }
        SoundingFrom(SoundingFrom(sounding, a), b' + [e]);
      }
    }
  }

  /** The index of the last call about pitch `m`, or -1 when there is none. */
  function LastMention(evs: seq<Event>, m: int): (r: int)
    ensures -1 <= r < |evs|
    ensures r >= 0 ==> evs[r].midi == m
    ensures forall j :: r < j < |evs| ==> evs[j].midi != m
    decreases |evs|
  {
    if evs == [] then -1
    else if evs[|evs| - 1].midi == m then |evs| - 1
    else LastMention(evs[..|evs| - 1], m)
  }

  /**
   * A pitch sounds after a log exactly when the log's last call about it is a
   * note-on, or, when the log never mentions it, when it sounded before.
   */
  lemma {:induction false} SoundingIsLastCall(sounding: set<int>, evs: seq<Event>, m: int)
    ensures m in SoundingFrom(sounding, evs) <==>
      if LastMention(evs, m) < 0 then m in sounding else evs[LastMention(evs, m)].NoteOn?
    decreases |evs|
  {
    if evs != [] && evs[|evs| - 1].midi != m {
      var prefix := evs[..|evs| - 1];
      SoundingIsLastCall(sounding, prefix, m);
      var r := LastMention(prefix, m);
      assert r >= 0 ==> evs[r] == prefix[r];
    }
  }
}
