/** One particle of the interactive tree (components/InteractiveTree.tsx):
    a scene-graph group whose position, rotation and material glow are
    updated in place once per rendered frame, and the click routing that
    makes only the photo frames clickable. */
module InteractiveTree {
  import opened Numerics
  import opened Types
  import Utils

  /** THREE.Euler, the group's rotation. */
  datatype Euler = Euler(x: real, y: real, z: real)

  /** The radius of the breathing swirl. */
  const SwirlRadius: real := 0.05

  /** The glow of a non-photo particle before its first frame. */
  const InitialGlow: real := 0.2

  /** The fixed glow of a photo frame's material, which no frame updates. */
  const FrameGlow: real := 0.5

  /** Particles smaller than this are treated as lights and blink. */
  const LightScale: real := 0.8

  /** The per-particle speed factor 0.8 + Math.random() * 0.6, drawn once. */
  function RandomSpeed(draw: Unit): (s: real)
    ensures 0.8 <= s < 1.4
  {
    0.8 + draw * 0.6
  }

  /** The per-particle phase Math.random() * PI * 2, drawn once. */
  function RandomPhase(draw: Unit): (a: real)
    ensures 0.0 <= a < 2.0 * Pi
  {
    ProductBelow(draw, 2.0 * Pi);
    draw * (2.0 * Pi)
  }

  /** Where the particle is drawn toward: its tree point while the tree is
      formed, its scatter point otherwise. */
  function Target(p: Particle, treeState: TreeState): (t: Vec3)
    ensures treeState == TreeShape ==> t == p.treePosition
    ensures treeState == Scattered ==> t == p.scatterPosition
  {
    if treeState == TreeShape then p.treePosition else p.scatterPosition
  }

  /** The lerp rate: 2.5 times the particle's own speed while forming, a
      uniform 3.0 while scattering. For a drawn speed the rate lies in
      [2.0, 3.5). */
  function LerpSpeed(treeState: TreeState, randomSpeed: real): (r: real)
    ensures treeState == Scattered ==> r == 3.0
    ensures treeState == TreeShape ==> r == 2.5 * randomSpeed
    ensures 0.8 <= randomSpeed < 1.4 ==> 2.0 <= r < 3.5
  {
    if treeState == TreeShape then 2.5 * randomSpeed else 3.0
  }

  /** The unclamped lerp fraction delta * rate of one frame. */
  function Fraction(treeState: TreeState, delta: real, randomSpeed: real): real {
    delta * LerpSpeed(treeState, randomSpeed)
  }

  /** The breathing swirl added while the tree is formed: a cosine and a
      sine of time * 2 + id, of radius 0.05 and scaled by the frame time. */
  function Swirl(v: Vec3, treeState: TreeState, time: real, id: nat, delta: real, m: Maths): Vec3 {
    if treeState == TreeShape then
      Vec3(v.x + SwirlX(time, id, delta, m), v.y, v.z + SwirlZ(time, id, delta, m))
    else v
  }

  function SwirlX(time: real, id: nat, delta: real, m: Maths): real {
    m.cos(time * 2.0 + id as real) * SwirlRadius * delta
  }

  function SwirlZ(time: real, id: nat, delta: real, m: Maths): real {
    m.sin(time * 2.0 + id as real) * SwirlRadius * delta
  }

  /** The float offset sin(time * speed + phase) * 0.02 added to the height. */
  function FloatOffset(time: real, randomSpeed: real, randomPhase: real, m: Maths): (f: real)
    ensures TrigBounded(m) ==> -0.02 <= f <= 0.02
  {
    m.sin(time * randomSpeed + randomPhase) * 0.02
  }

  /** The position after one frame: the lerp toward the target by the
      unclamped fraction delta * rate, then the swirl, then the float. While
      scattering there is no swirl: horizontally the particle only lerps
      toward its scatter point at the uniform rate 3.0, and once there it
      stays there. */
  function FramePosition(v: Vec3, p: Particle, treeState: TreeState, time: real, delta: real,
                         randomSpeed: real, randomPhase: real, m: Maths): (r: Vec3)
    ensures treeState == Scattered ==>
      var moved := Lerp(v, p.scatterPosition, delta * 3.0);
      r.x == moved.x && r.z == moved.z
    ensures treeState == Scattered && v == p.scatterPosition ==> r.x == v.x && r.z == v.z
  {
    var moved := Lerp(v, Target(p, treeState), Fraction(treeState, delta, randomSpeed));
    var swirled := Swirl(moved, treeState, time, p.id, delta, m);
    swirled.(y := swirled.y + FloatOffset(time, randomSpeed, randomPhase, m))
  }

  /** The steady spin: x grows by delta * 0.5 * speed and y by
      delta * 0.3 * speed. */
  function Spin(r: Euler, delta: real, randomSpeed: real): (s: Euler)
    ensures s.z == r.z
    ensures 0.0 <= delta && 0.0 <= randomSpeed ==> r.x <= s.x && r.y <= s.y
    ensures 0.0 < delta && 0.0 < randomSpeed ==> r.x < s.x && r.y < s.y
  {
    SpinGrows(delta, randomSpeed);
    Euler(r.x + PitchRate(delta, randomSpeed), r.y + YawRate(delta, randomSpeed), r.z)
  }

  function PitchRate(delta: real, randomSpeed: real): real {
    delta * 0.5 * randomSpeed
  }

  function YawRate(delta: real, randomSpeed: real): real {
    delta * 0.3 * randomSpeed
  }

  lemma SpinGrows(delta: real, speed: real)
    ensures 0.0 <= delta && 0.0 <= speed ==> 0.0 <= delta * 0.5 * speed && 0.0 <= delta * 0.3 * speed
    ensures 0.0 < delta && 0.0 < speed ==> 0.0 < delta * 0.5 * speed && 0.0 < delta * 0.3 * speed
  {
    if 0.0 <= delta && 0.0 <= speed {
      NonNegativeProduct(delta * 0.5, speed);
      NonNegativeProduct(delta * 0.3, speed);
    }
    if 0.0 < delta && 0.0 < speed {
      PositiveProduct(delta * 0.5, speed);
      PositiveProduct(delta * 0.3, speed);
    }
  }

  /** The rotation after one frame: the spin, then for a photo frame the
      slerp toward facing the camera, which `face` stands for. Only photo
      frames are turned; every other particle spins freely and never turns
      back: its x and y angles do not decrease over a non-negative frame
      and strictly increase over a positive one. */
  function FrameRotation(r: Euler, p: Particle, delta: real, randomSpeed: real, camera: Vec3,
                         position: Vec3, face: (Euler, Vec3, Vec3) -> Euler): (s: Euler)
    ensures p.shape == Plane ==> s == face(Spin(r, delta, randomSpeed), camera, position)
    ensures p.shape != Plane ==> s.z == r.z
    ensures p.shape != Plane && 0.0 <= delta && 0.0 <= randomSpeed ==> r.x <= s.x && r.y <= s.y
    ensures p.shape != Plane && 0.0 < delta && 0.0 < randomSpeed ==> r.x < s.x && r.y < s.y
  {
    var spun := Spin(r, delta, randomSpeed);
    if p.shape == Plane then face(spun, camera, position) else spun
  }

  /** The glow of a non-photo particle: a light (scale below 0.8) blinks
      between 2 and 5; otherwise it glows at 1.0 while hovered and 0.2 when
      not. */
  function Glow(scale: real, hovered: bool, time: real, id: nat, m: Maths): (e: real)
    ensures scale < LightScale && TrigBounded(m) ==> 2.0 <= e <= 5.0
    ensures LightScale <= scale ==> (hovered <==> e == 1.0) && (!hovered <==> e == InitialGlow)
  {
    if scale < LightScale then
      var blink := m.sin(time * 3.0 + id as real) * 0.5 + 0.5;
      2.0 + blink * 3.0
    else if hovered then 1.0
    else InitialGlow
  }

  /** Whether the tree hands a particle the click handler: only photo
      frames get one. */
  function HasClickHandler(p: Particle): (b: bool)
    ensures b <==> p.shape == Plane
  {
    p.shape == Plane
  }

  /** The swirl only acts while the tree is formed, never touches the
      height, and moves each horizontal coordinate by at most 0.05 * delta. */
  lemma SwirlBounded(v: Vec3, treeState: TreeState, time: real, id: nat, delta: real, m: Maths)
    requires TrigBounded(m) && 0.0 <= delta
    ensures treeState == Scattered ==> Swirl(v, treeState, time, id, delta, m) == v
    ensures Swirl(v, treeState, time, id, delta, m).y == v.y
    ensures Abs(Swirl(v, treeState, time, id, delta, m).x - v.x) <= SwirlRadius * delta
    ensures Abs(Swirl(v, treeState, time, id, delta, m).z - v.z) <= SwirlRadius * delta
  {
    var c, s := m.cos(time * 2.0 + id as real), m.sin(time * 2.0 + id as real);
    assert SwirlX(time, id, delta, m) == c * SwirlRadius * delta;
    assert SwirlZ(time, id, delta, m) == s * SwirlRadius * delta;
    TrigTimesRadius(c, delta);
    TrigTimesRadius(s, delta);
  }

  lemma TrigTimesRadius(c: real, delta: real)
    requires -1.0 <= c <= 1.0 && 0.0 <= delta
    ensures Abs(c * SwirlRadius * delta) <= SwirlRadius * delta
  {
    ProductBound(c * SwirlRadius, delta, SwirlRadius, delta);
  }

  /** A frame's position is the lerp toward the target plus small offsets:
      at most 0.05 * delta horizontally (none at all while scattering) and
      at most 0.02 vertically. */
  lemma FrameNearLerp(v: Vec3, p: Particle, treeState: TreeState, time: real, delta: real,
                      randomSpeed: real, randomPhase: real, m: Maths)
    requires TrigBounded(m) && 0.0 <= delta
    ensures var moved := Lerp(v, Target(p, treeState), Fraction(treeState, delta, randomSpeed));
      var r := FramePosition(v, p, treeState, time, delta, randomSpeed, randomPhase, m);
      && Abs(r.x - moved.x) <= SwirlRadius * delta
      && Abs(r.z - moved.z) <= SwirlRadius * delta
      && Abs(r.y - moved.y) <= 0.02
      && (treeState == Scattered ==> r.x == moved.x && r.z == moved.z)
  {
    var moved := Lerp(v, Target(p, treeState), Fraction(treeState, delta, randomSpeed));
    SwirlBounded(moved, treeState, time, p.id, delta, m);
  }

  /** A frame of at most 2/7 s (any real frame rate) keeps the lerp
      fraction delta * rate within [0, 1] for a drawn speed, so the primary
      step never overshoots: it brings the particle no farther from its
      target on any axis, nor in Euclidean distance, and strictly nearer on
      some axis unless it is already there. */
  lemma FrameApproachesTarget(v: Vec3, p: Particle, treeState: TreeState, delta: real, randomSpeed: real)
    requires 0.0 <= delta <= 2.0 / 7.0 && 0.8 <= randomSpeed < 1.4
    ensures 0.0 <= Fraction(treeState, delta, randomSpeed) <= 1.0
    ensures NoFarther(Lerp(v, Target(p, treeState), Fraction(treeState, delta, randomSpeed)), v, Target(p, treeState))
    ensures var t := Target(p, treeState);
      var w := Lerp(v, t, Fraction(treeState, delta, randomSpeed));
      Dot(Offset(w, t), Offset(w, t)) <= Dot(Offset(v, t), Offset(v, t))
    ensures 0.0 < delta && v != Target(p, treeState) ==>
      CloserSomewhere(Lerp(v, Target(p, treeState), Fraction(treeState, delta, randomSpeed)), v, Target(p, treeState))
  {
    FractionInUnit(delta, LerpSpeed(treeState, randomSpeed));
    LerpApproaches(v, Target(p, treeState), Fraction(treeState, delta, randomSpeed));
    NoFartherInDistance(Lerp(v, Target(p, treeState), Fraction(treeState, delta, randomSpeed)), v, Target(p, treeState));
  }

  lemma FractionInUnit(delta: real, rate: real)
    requires 0.0 <= delta <= 2.0 / 7.0 && 2.0 <= rate < 3.5
    ensures 0.0 <= delta * rate <= 1.0
    ensures 0.0 < delta ==> 0.0 < delta * rate
  {
    NonNegativeProduct(delta, rate);
    NonNegativeProduct(2.0 / 7.0 - delta, rate);
    assert (2.0 / 7.0 - delta) * rate == (2.0 / 7.0) * rate - delta * rate;
    if 0.0 < delta {
      PositiveProduct(delta, rate);
    }
  }

  /** The blinking tier is unreachable for the generated dataset: every
      generated particle has scale at least 0.8, so a non-photo particle
      glows at 1.0 when hovered and 0.2 otherwise, never blinking. */
  lemma NoGeneratedParticleIsALight(i: nat, d: Utils.Draws, m: Maths, hovered: bool, time: real)
    requires i < Utils.WorkingCount
    ensures var q := Utils.ParticleAt(i, d, m);
      !(q.scale < LightScale)
      && Glow(q.scale, hovered, time, q.id, m) == (if hovered then 1.0 else InitialGlow)
  {
  }

  /** A rendered particle: its data and once-drawn speed and phase are
      fixed; its position, rotation, glow and hover flag change. */
  class ParticleMesh {
    const p: Particle
    const randomPhase: real
    const randomSpeed: real
    const clickable: bool
    var position: Vec3
    var rotation: Euler
    var emissiveIntensity: real
    var hovered: bool

    ghost predicate Valid()
      reads this
    {
      && 0.8 <= randomSpeed < 1.4
      && 0.0 <= randomPhase < 2.0 * Pi
      && (clickable <==> p.shape == Plane)
    }

    /** Mounting: the group starts at the scatter point, unrotated, not
        hovered, with its material's initial glow: 0.5 for a photo frame,
        0.2 for everything else. */
    constructor (particle: Particle, phaseDraw: Unit, speedDraw: Unit)
      ensures Valid()
      ensures p == particle && randomPhase == RandomPhase(phaseDraw) && randomSpeed == RandomSpeed(speedDraw)
      ensures position == particle.scatterPosition && rotation == Euler(0.0, 0.0, 0.0)
      ensures particle.shape == Plane ==> emissiveIntensity == FrameGlow
      ensures particle.shape != Plane ==> emissiveIntensity == InitialGlow
      ensures !hovered
    {
      p := particle;
      randomPhase := RandomPhase(phaseDraw);
      randomSpeed := RandomSpeed(speedDraw);
      clickable := HasClickHandler(particle);
      position := particle.scatterPosition;
      rotation := Euler(0.0, 0.0, 0.0);
      emissiveIntensity := if particle.shape == Plane then FrameGlow else InitialGlow;
      hovered := false;
    }

    /** One useFrame callback: move, swirl, float, spin, face the camera
        (photo frames) or update the glow (everything else). */
    method Step(treeState: TreeState, time: real, delta: real, camera: Vec3, m: Maths,
                face: (Euler, Vec3, Vec3) -> Euler)
      requires Valid()
      modifies this
      ensures Valid()
      ensures position == FramePosition(old(position), p, treeState, time, delta, randomSpeed, randomPhase, m)
      ensures rotation == FrameRotation(old(rotation), p, delta, randomSpeed, camera, position, face)
      ensures emissiveIntensity
              == if p.shape == Plane then old(emissiveIntensity) else Glow(p.scale, hovered, time, p.id, m)
      ensures hovered == old(hovered)
    {
      Morph(treeState, time, delta, m);
      Turn(delta, camera, face);
      if p.shape != Plane {
        Blink(time, m);
      }
    }

    /** Steps 1 and 2 of a frame: the lerp toward the target, the swirl
        while forming, and the float. */
    method Morph(treeState: TreeState, time: real, delta: real, m: Maths)
      modifies this
      ensures position == FramePosition(old(position), p, treeState, time, delta, randomSpeed, randomPhase, m)
      ensures rotation == old(rotation) && emissiveIntensity == old(emissiveIntensity)
      ensures hovered == old(hovered)
    {
      var target := Target(p, treeState);
      var isForming := treeState == TreeShape;
      var lerpSpeed := LerpSpeed(treeState, randomSpeed);
      position := Lerp(position, target, delta * lerpSpeed);
      ghost var moved := Lerp(old(position), Target(p, treeState), Fraction(treeState, delta, randomSpeed));
      assert position == moved;
      if isForming {
        position := position.(x := position.x + SwirlX(time, p.id, delta, m));
        position := position.(z := position.z + SwirlZ(time, p.id, delta, m));
      }
      ghost var swirled := Swirl(moved, treeState, time, p.id, delta, m);
      assert position == swirled;
      var floatY := FloatOffset(time, randomSpeed, randomPhase, m);
      position := position.(y := position.y + floatY);
    }

    /** Steps 3 and 4: the spin, then for a photo frame the turn toward the
        camera. */
    method Turn(delta: real, camera: Vec3, face: (Euler, Vec3, Vec3) -> Euler)
      modifies this
      ensures rotation == FrameRotation(old(rotation), p, delta, randomSpeed, camera, position, face)
      ensures position == old(position) && emissiveIntensity == old(emissiveIntensity)
      ensures hovered == old(hovered)
    {
      rotation := rotation.(x := rotation.x + PitchRate(delta, randomSpeed));
      rotation := rotation.(y := rotation.y + YawRate(delta, randomSpeed));
      if p.shape == Plane {
        rotation := face(rotation, camera, position);
      }
    }

    /** Step 5, for the meshes that are not photo frames: the three-tier
        glow. */
    method Blink(time: real, m: Maths)
      modifies this
      ensures emissiveIntensity == Glow(p.scale, hovered, time, p.id, m)
      ensures position == old(position) && rotation == old(rotation)
      ensures hovered == old(hovered)
    {
      var isLight := p.scale < LightScale;
      if isLight {
        var blink := m.sin(time * 3.0 + p.id as real) * 0.5 + 0.5;
        emissiveIntensity := 2.0 + blink * 3.0;
      } else if hovered {
        emissiveIntensity := 1.0;
      } else {
        emissiveIntensity := InitialGlow;
      }
    }

    /** onPointerOver: the particle is hovered. */
    method HoverOn()
      modifies this
      ensures hovered
      ensures position == old(position) && rotation == old(rotation)
      ensures emissiveIntensity == old(emissiveIntensity)
    {
      hovered := true;
    }

    /** onPointerOut: the particle is no longer hovered. */
    method HoverOff()
      modifies this
      ensures !hovered
      ensures position == old(position) && rotation == old(rotation)
      ensures emissiveIntensity == old(emissiveIntensity)
    {
      hovered := false;
    }

    /** A click on the group: the particle is passed to the photo handler
        when it has one, that is, exactly for photo frames. */
    method Click() returns (selected: Option<Particle>)
      requires Valid()
      ensures selected.Some? <==> p.shape == Plane
      ensures selected.Some? ==> selected.value == p
    {
      if clickable {
        selected := Some(p);
      } else {
        selected := None;
      }
    }
  }
}
