/**
 * The note player: one cached audio track per MIDI pitch, created on the
 * first note-on for that pitch, started by note-on, stopped by note-off and
 * all released together when the screen goes away. A track is modelled by
 * its identity (the order of its creation) and whether it is playing; the
 * sound it holds is not modelled.
 */
module Player {
  import opened Events

  datatype Track = Track(id: nat, playing: bool)

  /** The identities of the tracks cached under the pitches `ks`. */
  ghost function IdsOf(tracks: map<int, Track>, ks: set<int>): set<nat>
  {
    set m | m in ks && m in tracks :: tracks[m].id
  }

  /** The identities of all cached tracks. */
  ghost function Ids(tracks: map<int, Track>): set<nat>
  {
    IdsOf(tracks, tracks.Keys)
  }

  /** Caching a track under a new pitch adds exactly its identity. */
  lemma IdsAfterAdd(tracks: map<int, Track>, m: int, t: Track)
    requires m !in tracks
    ensures Ids(tracks[m := t]) == Ids(tracks) + {t.id}
  {
    var after := tracks[m := t];
    forall i | i in Ids(after)
      ensures i in Ids(tracks) + {t.id}
    {
      var k :| k in after && after[k].id == i;
      if k != m {
        assert k in tracks && tracks[k].id == i;
      }
    }
    forall i | i in Ids(tracks) + {t.id}
      ensures i in Ids(after)
    {
      if i == t.id {
        assert m in after && after[m].id == i;
      } else {
        var k :| k in tracks && tracks[k].id == i;
        assert k in after && after[k].id == i;
      }
    }
  }

  /** Changing a cached track's state, not its identity, keeps the identities. */
  lemma IdsAfterRetag(tracks: map<int, Track>, m: int, t: Track)
    requires m in tracks && t.id == tracks[m].id
    ensures Ids(tracks[m := t]) == Ids(tracks)
  {
    var after := tracks[m := t];
    forall i | i in Ids(after)
      ensures i in Ids(tracks)
    {
      var k :| k in after && after[k].id == i;
      assert k in tracks && tracks[k].id == i;
    }
    forall i | i in Ids(tracks)
      ensures i in Ids(after)
    {
      var k :| k in tracks && tracks[k].id == i;
      assert k in after && after[k].id == i;
    }
  }

  /** Visiting one more cached pitch adds its track's identity. */
  lemma IdsOfOneMore(tracks: map<int, Track>, ks: set<int>, m: int)
    requires m in tracks
    ensures IdsOf(tracks, ks + {m}) == IdsOf(tracks, ks) + {tracks[m].id}
  {
    forall i | i in IdsOf(tracks, ks + {m})
      ensures i in IdsOf(tracks, ks) + {tracks[m].id}
    {
      var k :| k in ks + {m} && k in tracks && tracks[k].id == i;
      if k != m {
        assert k in ks;
      }
    }
  }

  class NotePlayer {
    /** The cached tracks, by pitch (`tracks`). */
    var tracks: map<int, Track>
    /** How many tracks have been created so far; a track's identity is its creation number. */
    var created: nat
    /** The identities of every track created so far. */
    ghost var made: set<nat>
    /** The identities of the tracks that have been released. */
    ghost var freed: set<nat>

    /**
     * No two pitches share a track, and every track ever created is either
     * cached or released, never both.
     */
    ghost predicate Valid()
      reads this
    {
      (forall m, n :: m in tracks && n in tracks && m != n ==> tracks[m].id != tracks[n].id)
      && (forall i :: i in made ==> i < created)
      && Ids(tracks) !! freed
      && Ids(tracks) + freed == made
    }

    /** The pitches whose track is playing. */
    ghost function Playing(): set<int>
      reads this
    {
      set m | m in tracks && tracks[m].playing
    }

    constructor()
      ensures tracks == map[] && created == 0 && made == {} && freed == {}
      ensures Valid()
    {
      tracks := map[];
      created := 0;
      made := {};
      freed := {};
    }

    /** `trackFor`: the cached track for a pitch, created (stopped) on first use. */
    method TrackFor(midi: int) returns (t: Track)
      requires Valid()
      modifies this
      ensures midi in tracks && t == tracks[midi]
      ensures midi in old(tracks) ==> tracks == old(tracks) && created == old(created)
      ensures midi !in old(tracks) ==>
        tracks == old(tracks)[midi := Track(old(created), false)] && created == old(created) + 1
      ensures made == old(made) + (if midi in old(tracks) then {} else {old(created)})
      ensures freed == old(freed)
      ensures Valid()
    {
      if midi in tracks {
        t := tracks[midi];
      } else {
        t := Track(created, false);
        IdsAfterAdd(tracks, midi, t);
        tracks := tracks[midi := t];
        made := made + {created};
        created := created + 1;
      }
    }

    /** `noteOn`: rewind the pitch's track and start it. */
    method NoteOn(midi: int)
      requires Valid()
      modifies this
      ensures midi in tracks && tracks[midi].playing
      ensures midi in old(tracks) ==> tracks == old(tracks)[midi := Track(old(tracks)[midi].id, true)] && created == old(created)
      ensures midi !in old(tracks) ==> tracks == old(tracks)[midi := Track(old(created), true)] && created == old(created) + 1
      ensures made == old(made) + (if midi in old(tracks) then {} else {old(created)}) && freed == old(freed)
      ensures Playing() == old(Playing()) + {midi}
      ensures Valid()
    {
      var t := TrackFor(midi);
      IdsAfterRetag(tracks, midi, t.(playing := true));
      tracks := tracks[midi := t.(playing := true)];
    }

    /** `noteOff`: stop the pitch's track if there is one; a pitch never played is ignored. */
    method NoteOff(midi: int)
      requires Valid()
      modifies this
      ensures midi in old(tracks) ==> tracks == old(tracks)[midi := Track(old(tracks)[midi].id, false)]
      ensures midi !in old(tracks) ==> tracks == old(tracks)
      ensures created == old(created) && made == old(made) && freed == old(freed)
      ensures Playing() == old(Playing()) - {midi}
      ensures Valid()
    {
      if midi in tracks {
        var t := tracks[midi];
        IdsAfterRetag(tracks, midi, t.(playing := false));
        tracks := tracks[midi := t.(playing := false)];
      }
    }

    /**
     * `release`: release every cached track, then empty the cache. Afterwards
     * every track ever created has been released.
     */
    method Release()
      requires Valid()
      modifies this
      ensures tracks == map[] && created == old(created) && made == old(made)
      ensures freed == old(freed) + Ids(old(tracks))
      ensures freed == made
      ensures Playing() == {}
      ensures Valid()
    {
      var remaining := tracks.Keys;
      ghost var done: set<int> := {};
      while remaining != {}
        invariant remaining + done == tracks.Keys && remaining !! done
        invariant tracks == old(tracks) && created == old(created) && made == old(made)
        invariant freed == old(freed) + IdsOf(tracks, done)
        decreases |remaining|
      {
        HasMember(remaining);
        var midi :| midi in remaining;
        IdsOfOneMore(tracks, done, midi);
        freed := freed + {tracks[midi].id};
        remaining := remaining - {midi};
        done := done + {midi};
      }
      assert done == tracks.Keys;
      tracks := map[];
      assert Ids(tracks) == {};
    }

    /** The keyboard's callbacks wired to the player: each note-on and note-off call, in order. */
    method Dispatch(evs: seq<Event>)
      requires Valid()
      modifies this
      ensures Playing() == SoundingFrom(old(Playing()), evs)
      ensures freed == old(freed) && made >= old(made) && old(tracks).Keys <= tracks.Keys
      ensures Valid()
    {
      for i := 0 to |evs|
        invariant Valid()
        invariant Playing() == SoundingFrom(old(Playing()), evs[..i])
        invariant freed == old(freed) && made >= old(made) && old(tracks).Keys <= tracks.Keys
      {
        assert evs[..i + 1] == evs[..i] + [evs[i]];
        SoundingSnoc(old(Playing()), evs[..i], evs[i]);
        match evs[i]
        case NoteOn(m) => NoteOn(m);
        case NoteOff(m) => NoteOff(m);
      }
      assert evs[..|evs|] == evs;
    }
  }
}
