/** The C# gameplay scripts: the sandbox player, which pushes its body with
    the WASD keys and moves the camera in and out with Q and E; the
    script-core player, the same push at a fixed speed; and the camera, which
    follows the player and pans with the arrow keys. Floats are `real`. Key
    state comes in as `Keys`; the entity lookups by name are resolved by the
    caller. */
module Scripts {
  import opened Wrappers
  import opened Vectors

  /** The keys the scripts poll with `Input.IsKeyDown`. */
  datatype Keys = Keys(
    w: bool, a: bool, s: bool, d: bool, q: bool, e: bool,
    up: bool, down: bool, left: bool, right: bool)

  /** An `ApplyLinearImpulse(impulse, wake)` call. */
  datatype Impulse = Impulse(impulse: Vec2, wake: bool)

  /** One velocity component from two opposing keys: +1 for the first, else
      -1 for the second, else 0. */
  function Toward(first: bool, second: bool): (v: real)
    ensures first ==> v == 1.0
    ensures !first && second ==> v == -1.0
    ensures !first && !second ==> v == 0.0
  {
    if first then 1.0 else if second then -1.0 else 0.0
  }

  /** The direction the WASD keys ask for: W over S on Y, A over D on X. */
  function WasdDirection(keys: Keys): (v: Vec2)
    ensures v.y == Toward(keys.w, keys.s)
    ensures v.x == -Toward(keys.a, keys.d)
  {
    Vec2(if keys.a then -1.0 else if keys.d then 1.0 else 0.0,
         if keys.w then 1.0 else if keys.s then -1.0 else 0.0)
  }

  /** The direction the arrow keys ask for: Up over Down, Left over Right. */
  function ArrowDirection(keys: Keys): (v: Vec2)
    ensures v.y == Toward(keys.up, keys.down)
    ensures v.x == -Toward(keys.left, keys.right)
  {
    Vec2(if keys.left then -1.0 else if keys.right then 1.0 else 0.0,
         if keys.up then 1.0 else if keys.down then -1.0 else 0.0)
  }

  /** Each component of a direction is -1, 0 or 1. */
  predicate Unit(v: real) {
    v == -1.0 || v == 0.0 || v == 1.0
  }

  lemma DirectionsAreUnit(keys: Keys)
    ensures Unit(WasdDirection(keys).x) && Unit(WasdDirection(keys).y)
    ensures Unit(ArrowDirection(keys).x) && Unit(ArrowDirection(keys).y)
  {
  }

  /** The first key of each pair wins: while it is held, the second makes
      no difference. */
  lemma DirectionPrecedence(keys: Keys, other: bool)
    ensures keys.w ==> WasdDirection(keys) == WasdDirection(keys.(s := other))
    ensures keys.a ==> WasdDirection(keys) == WasdDirection(keys.(d := other))
    ensures keys.up ==> ArrowDirection(keys) == ArrowDirection(keys.(down := other))
    ensures keys.left ==> ArrowDirection(keys) == ArrowDirection(keys.(right := other))
  {
  }

  /** The push for a direction at a speed over a frame, with the body woken. */
  function Push(dir: Vec2, speed: real, ts: real): (i: Impulse)
    ensures i.wake
    ensures i.impulse == Vec2(dir.x * (speed * ts), dir.y * (speed * ts))
  {
    Impulse(Vec2(dir.x * (speed * ts), dir.y * (speed * ts)), true)
  }

  /** A unit direction pushes each axis by exactly -speed·ts, 0 or
      speed·ts. */
  lemma PushComponents(dir: Vec2, speed: real, ts: real)
    requires Unit(dir.x) && Unit(dir.y)
    ensures var i := Push(dir, speed, ts).impulse;
      && (i.x == -(speed * ts) || i.x == 0.0 || i.x == speed * ts)
      && (i.y == -(speed * ts) || i.y == 0.0 || i.y == speed * ts)
  {
  }

  // ---------------------------------------------------------------------------
  // The camera script

  /** `player` is the entity found by name at creation, if any. */
  datatype CameraScript = CameraScript(speed: real, distanceFromPlayer: real, player: Option<nat>, translation: Vec3)

  /** The field defaults: speed 1 and distance 5, no player yet. */
  function NewCameraScript(translation: Vec3): (c: CameraScript)
    ensures c.speed == 1.0 && c.distanceFromPlayer == 5.0 && c.player.None? && c.translation == translation
  {
    CameraScript(1.0, 5.0, None, translation)
  }

  /** `OnCreate`: look the player up once, by name. */
  function CameraOnCreate(c: CameraScript, found: Option<nat>): (c': CameraScript)
    ensures c'.player == found && c' == c.(player := found)
  {
    c.(player := found)
  }

  /** `OnUpdate`: stand over the player at the set distance, when there is a
      player, then pan with the arrow keys. `translationOf` gives an entity's
      current translation. */
  function CameraOnUpdate(c: CameraScript, keys: Keys, ts: real, translationOf: nat -> Vec3): (c': CameraScript)
    ensures c'.speed == c.speed && c'.distanceFromPlayer == c.distanceFromPlayer && c'.player == c.player
  {
    var start :=
      if c.player.Some? then
        var p := translationOf(c.player.value);
        Vec3(p.x, p.y, c.distanceFromPlayer)
      else c.translation;
    var dir := ArrowDirection(keys);
    var velocity := Vec3(dir.x * c.speed, dir.y * c.speed, 0.0);
    c.(translation := Add(start, Scale(velocity, ts)))
  }

  /** With a player, the camera ends up at the player's x and y moved by the
      pan, at height `distanceFromPlayer`; without one it only pans, and its
      height never changes. */
  lemma CameraFollows(c: CameraScript, keys: Keys, ts: real, translationOf: nat -> Vec3)
    ensures var t := CameraOnUpdate(c, keys, ts, translationOf).translation;
      var dir := ArrowDirection(keys);
      && (c.player.Some? ==>
            var p := translationOf(c.player.value);
            t == Vec3(p.x + dir.x * c.speed * ts, p.y + dir.y * c.speed * ts, c.distanceFromPlayer))
      && (c.player.None? ==>
            t == Vec3(c.translation.x + dir.x * c.speed * ts, c.translation.y + dir.y * c.speed * ts, c.translation.z))
  {
  }

  /** With no arrow key held, a camera following a player sits exactly over
      it, wherever it was before. */
  lemma CameraSettlesOverPlayer(c: CameraScript, c2: CameraScript, keys: Keys, ts: real, translationOf: nat -> Vec3)
    requires !keys.up && !keys.down && !keys.left && !keys.right
    requires c.player.Some? && c2 == c.(translation := c2.translation)
    ensures CameraOnUpdate(c, keys, ts, translationOf) == CameraOnUpdate(c2, keys, ts, translationOf)
  {
  }

  // ---------------------------------------------------------------------------
  // The sandbox player

  datatype Player = Player(speed: real, time: real)

  /** The field defaults: speed 1, time 0. */
  function NewPlayer(): (p: Player)
    ensures p.speed == 1.0 && p.time == 0.0
  {
    Player(1.0, 0.0)
  }

  /** How much Q (out) or else E (in) moves the camera in one frame. */
  function ZoomStep(p: Player, keys: Keys, ts: real): (dz: real)
    ensures keys.q ==> dz == p.speed * 2.0 * ts
    ensures !keys.q && keys.e ==> dz == -(p.speed * 2.0 * ts)
    ensures !keys.q && !keys.e ==> dz == 0.0
  {
    if keys.q then p.speed * 2.0 * ts else if keys.e then -(p.speed * 2.0 * ts) else 0.0
  }

  /** The result of one player update: the player, the camera script found by
      the name "Camera" (if any), and the push given to the body. */
  datatype PlayerUpdate = PlayerUpdate(player: Player, camera: Option<CameraScript>, push: Impulse)

  /** `OnUpdate`: count the time, move the camera if there is one, and push
      the body in the WASD direction scaled by speed and frame time. */
  function PlayerOnUpdate(p: Player, keys: Keys, ts: real, camera: Option<CameraScript>): (r: PlayerUpdate)
    ensures r.player == p.(time := p.time + ts)
    ensures r.push == Push(WasdDirection(keys), p.speed, ts)
    ensures camera.None? ==> r.camera.None?
    ensures camera.Some? ==>
      && r.camera.Some?
      && r.camera.value == camera.value.(distanceFromPlayer := camera.value.distanceFromPlayer + ZoomStep(p, keys, ts))
  {
    var cam := match camera
      case None => None
      case Some(c) => Some(c.(distanceFromPlayer := c.distanceFromPlayer + ZoomStep(p, keys, ts)));
    PlayerUpdate(p.(time := p.time + ts), cam, Push(WasdDirection(keys), p.speed, ts))
  }

  /** Q wins over E, and holding Q for one frame then E for an equally long
      frame leaves the camera distance where it was. */
  lemma ZoomPrecedenceAndUndo(p: Player, keys: Keys, ts: real, c: CameraScript, other: bool)
    ensures keys.q ==> PlayerOnUpdate(p, keys, ts, Some(c)) == PlayerOnUpdate(p, keys.(e := other), ts, Some(c))
    ensures var out := PlayerOnUpdate(p, keys.(q := true), ts, Some(c));
      var back := PlayerOnUpdate(out.player, keys.(q := false, e := true), ts, out.camera);
      back.camera == Some(c)
  {
  }

  /** Without a camera the push is the same as with one. */
  lemma PushWithoutCamera(p: Player, keys: Keys, ts: real, c: CameraScript)
    ensures PlayerOnUpdate(p, keys, ts, None).push == PlayerOnUpdate(p, keys, ts, Some(c)).push
    ensures PlayerOnUpdate(p, keys, ts, None).player == PlayerOnUpdate(p, keys, ts, Some(c)).player
  {
  }

  function Sum(ts: seq<real>): real {
    if |ts| == 0 then 0.0 else Sum(ts[..|ts| - 1]) + ts[|ts| - 1]
  }

  /** The player after a run of frames with the given keys and no camera. */
  function PlayerRun(p: Player, keys: Keys, ts: seq<real>): Player {
    if |ts| == 0 then p else PlayerOnUpdate(PlayerRun(p, keys, ts[..|ts| - 1]), keys, ts[|ts| - 1], None).player
  }

  /** `Time` is the total of the frame times so far, and the speed never
      changes. */
  lemma {:induction false} PlayerTimeIsTotal(p: Player, keys: Keys, ts: seq<real>)
    ensures PlayerRun(p, keys, ts).time == p.time + Sum(ts)
    ensures PlayerRun(p, keys, ts).speed == p.speed
  {
    if |ts| > 0 {
      PlayerTimeIsTotal(p, keys, ts[..|ts| - 1]);
    }
  }

  // ---------------------------------------------------------------------------
  // The script-core player

  const CORE_PLAYER_SPEED: real := 0.05

  /** `OnUpdate`: push the body in the WASD direction at 0.05 per second;
      nothing else changes. */
  function CorePlayerOnUpdate(keys: Keys, ts: real): (i: Impulse)
    ensures i.wake
    ensures i.impulse.x == -Toward(keys.a, keys.d) * (CORE_PLAYER_SPEED * ts)
    ensures i.impulse.y == Toward(keys.w, keys.s) * (CORE_PLAYER_SPEED * ts)
  {
    Push(WasdDirection(keys), CORE_PLAYER_SPEED, ts)
  }

  /** The script-core player pushes exactly as the sandbox player does at
      speed 0.05, and each axis gets -0.05·ts, 0 or 0.05·ts. */
  lemma CorePlayerIsSlowSandboxPlayer(keys: Keys, ts: real, time: real)
    ensures CorePlayerOnUpdate(keys, ts) == PlayerOnUpdate(Player(CORE_PLAYER_SPEED, time), keys, ts, None).push
    ensures var i := CorePlayerOnUpdate(keys, ts).impulse;
      && (i.x == -(0.05 * ts) || i.x == 0.0 || i.x == 0.05 * ts)
      && (i.y == -(0.05 * ts) || i.y == 0.0 || i.y == 0.05 * ts)
  {
    DirectionsAreUnit(keys);
    PushComponents(WasdDirection(keys), CORE_PLAYER_SPEED, ts);
  }
}
