/** The replay's playhead: ui/src/sources/player.ts. */
module Players {
  import opened Options

  datatype Player = Player(playing: bool, speed: real, positionMs: real, durationMs: real)

  function Clamp(value: real, lo: real, hi: real): real {
    Min(hi, Max(lo, value))
  }

  function CreatePlayer(durationMs: real): Player {
    Player(false, 1.0, 0.0, durationMs)
  }

  function Advance(p: Player, wallDeltaMs: real): Player {
    if !p.playing then p
    else
      var positionMs := Min(p.durationMs, p.positionMs + wallDeltaMs * p.speed);
      p.(positionMs := positionMs, playing := positionMs < p.durationMs)
  }

  function Seek(p: Player, positionMs: real): Player {
    p.(positionMs := Clamp(positionMs, 0.0, p.durationMs))
  }

  function TogglePlay(p: Player): Player {
    if p.durationMs <= p.positionMs then p.(positionMs := 0.0, playing := true) else p.(playing := !p.playing)
  }

  // Seeking stands exactly where it is told within the recording, and at the nearest end outside it.
  lemma SeekStandsThere(p: Player, ms: real)
    requires 0.0 <= p.durationMs
    ensures var q := Seek(p, ms);
            && (0.0 <= ms <= p.durationMs ==> q.positionMs == ms)
            && (ms < 0.0 ==> q.positionMs == 0.0)
            && (p.durationMs < ms ==> q.positionMs == p.durationMs)
            && q.playing == p.playing && q.speed == p.speed && q.durationMs == p.durationMs
  {
  }

  // A playing player covers the time waited at its speed, and stops exactly at the end.
  lemma AdvanceCovers(p: Player, wallDeltaMs: real)
    ensures var (q, to) := (Advance(p, wallDeltaMs), p.positionMs + wallDeltaMs * p.speed);
            && (!p.playing ==> q == p)
            && (p.playing && to < p.durationMs ==> q.positionMs == to && q.playing)
            && (p.playing && p.durationMs <= to ==> q.positionMs == p.durationMs && !q.playing)
            && q.speed == p.speed && q.durationMs == p.durationMs
  {
  }

  // The button starts over at the end; elsewhere it only starts or stops.
  lemma ToggleStartsOrStops(p: Player)
    ensures var q := TogglePlay(p);
            && (p.durationMs <= p.positionMs ==> q.playing && q.positionMs == 0.0)
            && (p.positionMs < p.durationMs ==> q.playing != p.playing && q.positionMs == p.positionMs)
            && q.speed == p.speed && q.durationMs == p.durationMs
  {
  }

  predicate InRange(p: Player) {
    0.0 <= p.positionMs <= p.durationMs
  }

  datatype Move = Frame(wallDeltaMs: real) | SeekTo(ms: real) | Toggle | SetSpeed(speed: real)

  function Play(p: Player, move: Move): Player {
    match move
    case Frame(d) => Advance(p, d)
    case SeekTo(ms) => Seek(p, ms)
    case Toggle => TogglePlay(p)
    case SetSpeed(speed) => p.(speed := speed)
  }

  // The hook never advances by a negative time and the player bar offers no negative speed.
  ghost predicate Offered(move: Move) {
    && (move.Frame? ==> 0.0 <= move.wallDeltaMs)
    && (move.SetSpeed? ==> 0.0 <= move.speed)
  }

  function PlayAll(p: Player, moves: seq<Move>): Player {
    if moves == [] then p else Play(PlayAll(p, moves[..|moves| - 1]), moves[|moves| - 1])
  }

  lemma AdvanceStaysInRange(p: Player, d: real)
    requires InRange(p) && 0.0 <= p.speed && 0.0 <= d
    ensures InRange(Advance(p, d))
  {
    var step := d * p.speed;
    assert 0.0 <= step;
  }

  lemma {:induction false} PlayheadStaysInRange(p: Player, moves: seq<Move>)
    requires InRange(p) && 0.0 <= p.speed
    requires forall i :: 0 <= i < |moves| ==> Offered(moves[i])
    ensures InRange(PlayAll(p, moves)) && 0.0 <= PlayAll(p, moves).speed
    ensures PlayAll(p, moves).durationMs == p.durationMs
  {
    if moves != [] {
      var front, move := moves[..|moves| - 1], moves[|moves| - 1];
      PlayheadStaysInRange(p, front);
      var q := PlayAll(p, front);
      if move.Frame? {
        AdvanceStaysInRange(q, move.wallDeltaMs);
      }
    }
  }

  // The player itself does not check speeds: a moving playhead is safe for every wait exactly
  // when its speed is not negative.
  lemma PlayingIsSafeExactlyForwards(p: Player)
    requires InRange(p) && p.playing
    ensures (forall d :: 0.0 <= d ==> InRange(Advance(p, d))) <==> 0.0 <= p.speed
  {
    if 0.0 <= p.speed {
      forall d | 0.0 <= d ensures InRange(Advance(p, d)) {
        AdvanceStaysInRange(p, d);
      }
    } else {
      var d := (p.positionMs + 1.0) / -p.speed;
      assert d * p.speed == -(p.positionMs + 1.0);
      assert !InRange(Advance(p, d));
    }
  }

  // While playing, two waits are one wait.
  lemma AdvanceAdds(p: Player, d: real, e: real)
    requires InRange(p) && 0.0 <= p.speed && 0.0 <= d && 0.0 <= e
    ensures Advance(Advance(p, d), e) == Advance(p, d + e)
  {
    assert (d + e) * p.speed == d * p.speed + e * p.speed;
    assert 0.0 <= d * p.speed && 0.0 <= e * p.speed;
  }
}
