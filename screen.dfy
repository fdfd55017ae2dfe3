/**
 * The screen's wiring: the keyboard's note-on and note-off callbacks go to
 * the player's `noteOn` and `noteOff`, and the player is released when the
 * screen is disposed.
 */
module Screen {
  import opened Events
  import opened Gestures
  import opened Player

  /**
   * A player that starts silent and receives every callback the keyboard
   * has made plays exactly the notes the log leaves sounding, so every
   * highlighted key is heard; when the keyboard is in sync, nothing else is.
   */
  method HearKeyboard(kb: PianoKeyboard, player: NotePlayer)
    requires kb.Valid() && player.Valid() && player.Playing() == {}
    modifies player
    ensures player.Playing() == Sounding(kb.events)
    ensures kb.pressed <= player.Playing()
    ensures kb.InSync() ==> player.Playing() == kb.pressed
    ensures player.freed == old(player.freed) && player.made >= old(player.made)
    ensures old(player.tracks).Keys <= player.tracks.Keys
    ensures player.Valid()
  {
    player.Dispatch(kb.events);
  }

  /**
   * Disposing the screen releases the player: every cached track is released,
   * no track is forgotten, and none is left unreleased.
   */
  method Dispose(player: NotePlayer)
    requires player.Valid()
    modifies player
    ensures player.tracks == map[] && player.made == old(player.made)
    ensures player.freed == old(player.freed) + Ids(old(player.tracks))
    ensures player.freed == player.made
    ensures player.Valid()
  {
    player.Release();
  }
}
