/** The replay hook, which keeps the player and the last fold: ui/src/sources/use-replay.ts. */
module Replays {
  import opened Options
  import opened Contract
  import opened DemoStates
  import opened Sorting
  import opened ReplayFolds
  import opened Players

  // Where the playhead would be without an end; a clock that went back counts as standing still.
  function Target(p: Player, elapsedMs: real): real {
    if elapsedMs < 0.0 then p.positionMs else p.positionMs + elapsedMs * p.speed
  }

  class Replay {
    const manifest: Manifest
    const events: seq<Event>
    var player: Player
    var folded: Option<Folded>
    var lastFrame: real

    ghost predicate Valid()
      reads this
    {
      && Sorted(events, TimeOf)
      && InRange(player) && 0.0 <= player.speed
      && (folded.Some? ==> Shows(manifest, events, folded.value))
    }

    constructor (manifest: Manifest, events: seq<Event>, durationMs: real, initialPositionMs: real)
      requires Sorted(events, TimeOf) && 0.0 <= durationMs
      ensures Valid() && this.manifest == manifest && this.events == events
      ensures !player.playing && player.speed == 1.0 && player.durationMs == durationMs && folded == None
      ensures 0.0 <= initialPositionMs <= durationMs ==> player.positionMs == initialPositionMs
      ensures initialPositionMs < 0.0 ==> player.positionMs == 0.0
      ensures durationMs < initialPositionMs ==> player.positionMs == durationMs
    {
      this.manifest, this.events := manifest, events;
      player := Seek(CreatePlayer(durationMs), initialPositionMs);
      folded := None;
      lastFrame := 0.0;
    }

    // The play loop (re)starts.
    method StartLoop(now: real)
      modifies this`lastFrame
      ensures lastFrame == now
    {
      lastFrame := now;
    }

    method OnFrame(now: real)
      requires Valid()
      modifies this`player, this`lastFrame
      ensures Valid() && lastFrame == now
      ensures var (p, to) := (old(player), Target(old(player), now - old(lastFrame)));
              && (!p.playing ==> player == p)
              && (p.playing && to < p.durationMs ==> player == p.(positionMs := to))
              && (p.playing && p.durationMs <= to ==> player == p.(positionMs := p.durationMs, playing := false))
    {
      var elapsedMs := Max(0.0, now - lastFrame);
      lastFrame := now;
      ghost var moves := [Frame(elapsedMs)];
      PlayheadStaysInRange(player, moves);
      assert moves[..0] == [];
      player := Advance(player, elapsedMs);
    }

    method ToggleButton()
      requires Valid()
      modifies this`player
      ensures Valid()
      ensures old(player).positionMs == old(player).durationMs ==>
                player == old(player).(positionMs := 0.0, playing := true)
      ensures old(player).positionMs != old(player).durationMs ==>
                player == old(player).(playing := !old(player).playing)
    {
      player := TogglePlay(player);
    }

    // The next render shows the fold from scratch there.
    method SeekBar(ms: real)
      requires Valid()
      modifies this`player
      ensures Valid() && player == old(player).(positionMs := player.positionMs)
      ensures 0.0 <= ms <= player.durationMs ==> player.positionMs == ms
      ensures ms < 0.0 ==> player.positionMs == 0.0
      ensures player.durationMs < ms ==> player.positionMs == player.durationMs
    {
      player := Seek(player, ms);
    }

    method ChooseSpeed(speed: real)
      requires Valid() && 0.0 <= speed
      modifies this`player
      ensures Valid() && player == old(player).(speed := speed)
    {
      player := player.(speed := speed);
    }

    // Whatever happened since the last render, the view is the fold from scratch at the playhead.
    method Render() returns (view: DemoState)
      requires Valid()
      modifies this`folded
      ensures Valid()
      ensures view == FromScratch(manifest, events, player.positionMs)
      ensures folded == Some(FoldTo(manifest, events, old(folded), player.positionMs))
    {
      FoldToShows(manifest, events, folded, player.positionMs);
      folded := Some(FoldTo(manifest, events, folded, player.positionMs));
      view := folded.value.state;
    }
  }
}
