/** The particle dataset generator (utils.ts): a loop over a fixed working
    count that decides each particle's role, shape, texture, colour and scale
    from its index and a few random draws, and places it on a spiral tree and
    on a scattered sphere. */
module Utils {
  import opened Numerics
  import opened Types

  // The palette (COLORS).
  const Gold := "#FFD700"
  const Champagne := "#FFFACD"
  const Emerald := "#006B3C"
  const JackeryOrange := "#FF5500"
  const DeepRed := "#D00000"

  // Image ids on picsum.photos.
  const BrandIds: seq<nat> := [201, 250, 180, 160, 119, 48]
  const SeasonalIds: seq<nat> := [364, 342, 338, 326, 319, 292, 266, 252, 221, 193]
  const ClueId: nat := 433

  // The spiral.
  const Height: real := 28.0
  const RadiusBottom: real := 13.0
  const Turns: real := 7.0
  const YOffset: real := -12.0

  /** generateParticles builds this many particles whatever count its caller
      asks for (App asks for 220): the density of the tree wins. */
  const WorkingCount: nat := 450

  /** The first indices are photo frames; the rest are ornaments. */
  const PhotoCount: nat := 30

  /** The Math.random() draws one iteration may make, by purpose. Which of
      them a branch actually reads depends on the branch; the order in which
      the source interleaves them is not modelled. */
  datatype Draws = Draws(
    baseScale: Unit,      // randomRange(1.0, 1.8), drawn for every index
    tier: Unit,           // picks the ornament tier
    tint: Unit,           // picks a gift's or a bulb's colour
    bandScale: Unit,      // a star's or a gift's own scale draw
    radialNoise: Unit,    // randomRange(0.9, 1.15) on the tree radius
    scatterRadius: Unit)  // the scatter radius draw

  function DigitChar(d: nat): (c: char)
    requires d < 10
    ensures '0' <= c <= '9' && c as int - '0' as int == d
  {
    ('0' as int + d) as char
  }

  /** A non-negative integer in decimal, as a template literal prints it. */
  function Digits(n: nat): (s: string)
    ensures 1 <= |s|
    ensures n < 10 <==> |s| == 1
    ensures forall k :: 0 <= k < |s| ==> '0' <= s[k] <= '9'
    decreases n
  {
    if n < 10 then [DigitChar(n)] else Digits(n / 10) + [DigitChar(n % 10)]
  }

  /** The value of a string of decimal digits. */
  function DecimalValue(s: string): nat
    requires forall k :: 0 <= k < |s| ==> '0' <= s[k] <= '9'
  {
    if |s| == 0 then 0
    else DecimalValue(s[..|s| - 1]) * 10 + (s[|s| - 1] as int - '0' as int)
  }

  /** The decimal text of a number reads back as that number, so the image
      id in a URL is the id the generator chose. */
  lemma {:induction false} DigitsValue(n: nat)
    ensures DecimalValue(Digits(n)) == n
    decreases n
  {
    if 10 <= n {
      var s := Digits(n);
      assert s[..|s| - 1] == Digits(n / 10);
      DigitsValue(n / 10);
    }
  }

  const PicsumHost := "https://picsum.photos/id/"

  /** Where the id ends and where the width ends in a picsum URL. */
  function IdEnd(id: nat): nat {
    |PicsumHost| + |Digits(id)|
  }

  function WidthEnd(id: nat, width: nat): nat {
    IdEnd(id) + 1 + |Digits(width)|
  }

  /** `https://picsum.photos/id/${id}/${width}/${height}`: the host prefix,
      then the id, the width and the height in decimal, in that order, each
      of the last two after a slash. The only slashes past the host are
      those two. */
  function PicsumUrl(id: nat, width: nat, height: nat): (u: string)
    ensures |PicsumHost| < |u| && u[..|PicsumHost|] == PicsumHost
    ensures WidthEnd(id, width) < |u|
    ensures u[|PicsumHost|..IdEnd(id)] == Digits(id) && u[IdEnd(id)] == '/'
    ensures u[IdEnd(id) + 1..WidthEnd(id, width)] == Digits(width) && u[WidthEnd(id, width)] == '/'
    ensures u[WidthEnd(id, width) + 1..] == Digits(height)
    ensures forall k :: |PicsumHost| <= k < |u| && u[k] == '/' ==> k == IdEnd(id) || k == WidthEnd(id, width)
  {
    var u := PicsumHost + Digits(id) + "/" + Digits(width) + "/" + Digits(height);
    var a, b, c := |PicsumHost|, IdEnd(id), WidthEnd(id, width);
    assert u[a..b] == Digits(id);
    assert u[b + 1..c] == Digits(width);
    assert u[c + 1..] == Digits(height);
    assert forall k :: a <= k < b ==> u[k] == Digits(id)[k - a];
    assert forall k :: b < k < c ==> u[k] == Digits(width)[k - b - 1];
    assert forall k :: c < k < |u| ==> u[k] == Digits(height)[k - c - 1];
    u
  }

  /** Reading the URL back: the three numbers between the host and the
      slashes are the image id, the width and the height it was made from. */
  lemma PicsumReadsBack(id: nat, width: nat, height: nat)
    ensures var u := PicsumUrl(id, width, height);
      && DecimalValue(u[|PicsumHost|..IdEnd(id)]) == id
      && DecimalValue(u[IdEnd(id) + 1..WidthEnd(id, width)]) == width
      && DecimalValue(u[WidthEnd(id, width) + 1..]) == height
  {
    var u := PicsumUrl(id, width, height);
    ReadDigits(u[|PicsumHost|..IdEnd(id)], id);
    ReadDigits(u[IdEnd(id) + 1..WidthEnd(id, width)], width);
    ReadDigits(u[WidthEnd(id, width) + 1..], height);
  }

  lemma ReadDigits(s: string, n: nat)
    requires s == Digits(n)
    ensures forall k :: 0 <= k < |s| ==> '0' <= s[k] <= '9'
    ensures DecimalValue(s) == n
  {
    DigitsValue(n);
  }

  /** A bulb's colour from its tint draw: gold, emerald, red or orange with
      weights 0.5, 0.3, 0.1 and 0.1. */
  function BulbColor(tint: Unit): (c: string)
    ensures tint > 0.5 <==> c == Gold
    ensures c == Emerald <==> 0.2 < tint <= 0.5
    ensures c == DeepRed <==> 0.1 < tint <= 0.2
    ensures c == JackeryOrange <==> tint <= 0.1
  {
    if tint > 0.5 then Gold
    else if tint > 0.2 then Emerald
    else if tint > 0.1 then DeepRed
    else JackeryOrange
  }

  /** What the loop body settles on for one index, before positions. */
  datatype Look = Look(
    kind: ParticleType,
    shape: ParticleShape,
    textureUrl: Option<string>,
    color: string,
    scale: real)

  /** The attribute assignment of one index. The photo slice is exactly the
      planes, exactly the particles with a texture and exactly the photo
      roles; index 0 alone is the clue; PRODUCT is never produced; photos
      have scale 3 and nothing is smaller than 0.8. */
  function LookAt(i: nat, d: Draws): (l: Look)
    ensures l.shape == Plane <==> i < PhotoCount
    ensures l.textureUrl.Some? <==> i < PhotoCount
    ensures IsPhoto(l.kind) <==> i < PhotoCount
    ensures l.kind == PhotoClue <==> i == 0
    ensures l.kind != Product
    ensures i < PhotoCount ==> l.scale == 3.0
    ensures 0.8 <= l.scale <= 3.0
  {
    if i < PhotoCount then
      if i == 0 then
        Look(PhotoClue, Plane, Some(PicsumUrl(ClueId, 600, 700)), Gold, 3.0)
      else if i < 12 then
        Look(PhotoBrand, Plane, Some(PicsumUrl(BrandIds[i % |BrandIds|], 500, 500)), Gold, 3.0)
      else
        Look(PhotoSeasonal, Plane, Some(PicsumUrl(SeasonalIds[i % |SeasonalIds|], 500, 500)), Gold, 3.0)
    else if d.tier > 0.92 then
      Look(Star, Diamond, None, Champagne, RandomRange(d.bandScale, 0.8, 1.2))
    else if d.tier > 0.75 then
      Look(Gift, Box, None, if d.tint > 0.5 then DeepRed else JackeryOrange,
           RandomRange(d.bandScale, 1.2, 1.6))
    else
      Look(Ornament, Sphere, None, BulbColor(d.tint), RandomRange(d.baseScale, 1.0, 1.8))
  }

  /** The position of index i along the spiral, t = i / 450, in [0, 1). */
  function Param(i: nat): (t: real)
    requires i < WorkingCount
    ensures 0.0 <= t < 1.0
  {
    i as real / WorkingCount as real
  }

  /** The tree height of index i: it falls from 16 at the top. */
  function TreeHeight(i: nat): (y: real)
    requires i < WorkingCount
    ensures -12.0 < y <= 16.0
  {
    (1.0 - Param(i)) * Height + YOffset
  }

  /** The radial noise randomRange(0.9, 1.15). */
  function RadialNoise(draw: Unit): (n: real)
    ensures 0.9 <= n < 1.15
  {
    RandomRange(draw, 0.9, 1.15)
  }

  /** The spiral angle t * 2 * pi * 7 turns of index i. */
  function TreeAngle(i: nat): real
    requires i < WorkingCount
  {
    Param(i) * Pi * 2.0 * Turns
  }

  /** The cone radius t^0.8 * 13 of index i. */
  function TreeRadius(i: nat, m: Maths): (r: real)
    requires i < WorkingCount
    ensures PowInUnit(m) ==> 0.0 <= r <= RadiusBottom
  {
    m.pow(Param(i), 0.8) * RadiusBottom
  }

  /** A point at `angle` on the circle of the given radius widened by the
      radial noise, at height y. */
  function SpiralPoint(angle: real, radius: real, noise: real, y: real, m: Maths): Vec3 {
    Vec3(m.cos(angle) * radius * noise, y, m.sin(angle) * radius * noise)
  }

  /** The tree point of index i: on the spiral at TreeAngle, TreeRadius
      times the radial noise out, at TreeHeight.
      The point lies between the tree's foot and its top, and within the
      base radius 13 widened by the largest radial noise, 13 * 1.15 = 14.95,
      on both horizontal axes. */
  function TreePoint(i: nat, noise: Unit, m: Maths): (p: Vec3)
    requires i < WorkingCount
    ensures -12.0 < p.y <= 16.0
    ensures TrigBounded(m) && PowInUnit(m) ==> Abs(p.x) <= 14.95 && Abs(p.z) <= 14.95
  {
    SpiralWithinBase(TreeAngle(i), TreeRadius(i, m), RadialNoise(noise), TreeHeight(i), m);
    SpiralPoint(TreeAngle(i), TreeRadius(i, m), RadialNoise(noise), TreeHeight(i), m)
  }

  lemma SpiralWithinBase(angle: real, radius: real, noise: real, y: real, m: Maths)
    requires 0.9 <= noise < 1.15
    ensures TrigBounded(m) && 0.0 <= radius <= RadiusBottom ==>
      Abs(SpiralPoint(angle, radius, noise, y, m).x) <= 14.95
      && Abs(SpiralPoint(angle, radius, noise, y, m).z) <= 14.95
  {
    if TrigBounded(m) && 0.0 <= radius <= RadiusBottom {
      RadiusTimesNoise(m.cos(angle), m.sin(angle), radius, noise);
    }
  }

  lemma RadiusTimesNoise(c: real, s: real, radius: real, noise: real)
    requires -1.0 <= c <= 1.0 && -1.0 <= s <= 1.0
    requires 0.0 <= radius <= RadiusBottom && 0.9 <= noise < 1.15
    ensures Abs(c * radius * noise) <= 14.95 && Abs(s * radius * noise) <= 14.95
  {
    ProductBound(c, radius, 1.0, 13.0);
    ProductBound(c * radius, noise, 13.0, 1.15);
    ProductBound(s, radius, 1.0, 13.0);
    ProductBound(s * radius, noise, 13.0, 1.15);
  }

  /** The scatter radius 35 + Math.random() * 20. */
  function ScatterRadius(draw: Unit): (r: real)
    ensures 35.0 <= r < 55.0
  {
    35.0 + draw * 20.0
  }

  /** The polar angle phi = acos(-1 + 2i / 450) of index i. */
  function ScatterPhi(i: nat, m: Maths): real
    requires i < WorkingCount
  {
    m.acos(-1.0 + (2.0 * i as real) / WorkingCount as real)
  }

  /** The azimuth theta = sqrt(450 pi) * phi of index i. */
  function ScatterTheta(i: nat, m: Maths): real
    requires i < WorkingCount
  {
    m.sqrt(WorkingCount as real * Pi) * ScatterPhi(i, m)
  }

  /** The point of the sphere of radius r at polar angle phi and azimuth theta. */
  function SpherePoint(r: real, phi: real, theta: real, m: Maths): Vec3 {
    Vec3(r * m.cos(theta) * m.sin(phi), r * m.sin(theta) * m.sin(phi), r * m.cos(phi))
  }

  /** The scatter point of index i: on the sphere of the drawn radius. Its
      squared length is that radius squared, so it is never the origin, and
      every coordinate is within the radius, so below 55. */
  function ScatterPoint(i: nat, draw: Unit, m: Maths): (p: Vec3)
    requires i < WorkingCount
    ensures TrigBounded(m) ==>
      var r := ScatterRadius(draw);
      Abs(p.x) <= r && Abs(p.y) <= r && Abs(p.z) <= r
    ensures Pythagorean(m) ==>
      Dot(p, p) == ScatterRadius(draw) * ScatterRadius(draw) && p != Vec3(0.0, 0.0, 0.0)
  {
    SphereWithinRadius(ScatterRadius(draw), ScatterPhi(i, m), ScatterTheta(i, m), m);
    SphereSurface(ScatterRadius(draw), ScatterPhi(i, m), ScatterTheta(i, m), m);
    SpherePoint(ScatterRadius(draw), ScatterPhi(i, m), ScatterTheta(i, m), m)
  }

  lemma SphereWithinRadius(r: real, phi: real, theta: real, m: Maths)
    requires 0.0 <= r
    ensures TrigBounded(m) ==>
      && Abs(SpherePoint(r, phi, theta, m).x) <= r
      && Abs(SpherePoint(r, phi, theta, m).y) <= r
      && Abs(SpherePoint(r, phi, theta, m).z) <= r
  {
    if TrigBounded(m) {
      var ct, st, cp, sp := m.cos(theta), m.sin(theta), m.cos(phi), m.sin(phi);
      assert SpherePoint(r, phi, theta, m) == Vec3(r * ct * sp, r * st * sp, r * cp);
      RadiusTimesTwo(r, ct, sp);
      RadiusTimesTwo(r, st, sp);
      ProductBound(r, cp, r, 1.0);
    }
  }

  lemma SphereSurface(r: real, phi: real, theta: real, m: Maths)
    requires 0.0 < r
    ensures Pythagorean(m) ==>
      var p := SpherePoint(r, phi, theta, m);
      Dot(p, p) == r * r && p != Vec3(0.0, 0.0, 0.0)
  {
    if Pythagorean(m) {
      var ct, st, cp, sp := m.cos(theta), m.sin(theta), m.cos(phi), m.sin(phi);
      assert SpherePoint(r, phi, theta, m) == Vec3(r * ct * sp, r * st * sp, r * cp);
      assert st * st + ct * ct == 1.0 && sp * sp + cp * cp == 1.0;
      SquaredLength(r, ct, st, cp, sp);
      AwayFromOrigin(r, ct, st, cp, sp);
    }
  }

  lemma SquaredLength(r: real, ct: real, st: real, cp: real, sp: real)
    requires st * st + ct * ct == 1.0 && sp * sp + cp * cp == 1.0
    ensures Dot(Vec3(r * ct * sp, r * st * sp, r * cp), Vec3(r * ct * sp, r * st * sp, r * cp)) == r * r
  {
    assert (r * ct * sp) * (r * ct * sp) + (r * st * sp) * (r * st * sp)
        == (r * sp) * (r * sp) * (st * st + ct * ct);
    assert (r * sp) * (r * sp) + (r * cp) * (r * cp) == (r * r) * (sp * sp + cp * cp);
  }

  lemma AwayFromOrigin(r: real, ct: real, st: real, cp: real, sp: real)
    requires 0.0 < r
    requires st * st + ct * ct == 1.0 && sp * sp + cp * cp == 1.0
    ensures Vec3(r * ct * sp, r * st * sp, r * cp) != Vec3(0.0, 0.0, 0.0)
  {
    if r * cp == 0.0 {
      assert cp == 0.0;
      assert sp * sp == 1.0;
      assert sp != 0.0;
      assert ct != 0.0 || st != 0.0;
    }
  }

  lemma RadiusTimesTwo(r: real, a: real, b: real)
    requires 0.0 <= r && -1.0 <= a <= 1.0 && -1.0 <= b <= 1.0
    ensures Abs(r * a * b) <= r
  {
    ProductBound(r, a, r, 1.0);
    ProductBound(r * a, b, r, 1.0);
  }

  /** The particle the loop pushes for index i: its id is its index, the
      photo frames are exactly the first 30 indices and exactly the textured
      particles, the clue is index 0 alone, the scale lies in [0.8, 3], and
      it sits on the tree at its index's height. */
  function ParticleAt(i: nat, d: Draws, m: Maths): (q: Particle)
    requires i < WorkingCount
    ensures q.id == i
    ensures q.shape == Plane <==> i < PhotoCount
    ensures q.textureUrl.Some? <==> q.shape == Plane
    ensures q.kind == PhotoClue <==> i == 0
    ensures 0.8 <= q.scale <= 3.0
    ensures q.treePosition.y == TreeHeight(i)
  {
    var l := LookAt(i, d);
    Particle(i, l.kind, l.shape, TreePoint(i, d.radialNoise, m), ScatterPoint(i, d.scatterRadius, m),
             l.scale, l.textureUrl, l.color)
  }

  /** The branch-by-branch assignment of the loop body: `let` variables
      start at the ornament defaults and are overwritten per branch. */
  method AssignLook(i: nat, d: Draws) returns (l: Look)
    ensures l == LookAt(i, d)
  {
    var kind := Ornament;
    var shape := Sphere;
    var textureUrl: Option<string> := None;
    var color := Gold;
    var scale := RandomRange(d.baseScale, 1.0, 1.8);

    if i < PhotoCount {
      shape := Plane;
      scale := 3.0;
      if i == 0 {
        kind := PhotoClue;
        textureUrl := Some(PicsumUrl(ClueId, 600, 700));
      } else if i < 12 {
        kind := PhotoBrand;
        textureUrl := Some(PicsumUrl(BrandIds[i % |BrandIds|], 500, 500));
      } else {
        kind := PhotoSeasonal;
        textureUrl := Some(PicsumUrl(SeasonalIds[i % |SeasonalIds|], 500, 500));
      }
    } else {
      var rand := d.tier;
      if rand > 0.92 {
        kind := Star;
        shape := Diamond;
        color := Champagne;
        scale := RandomRange(d.bandScale, 0.8, 1.2);
      } else if rand > 0.75 {
        kind := Gift;
        shape := Box;
        color := if d.tint > 0.5 then DeepRed else JackeryOrange;
        scale := RandomRange(d.bandScale, 1.2, 1.6);
      } else {
        kind := Ornament;
        shape := Sphere;
        var cRand := d.tint;
        if cRand > 0.5 {
          color := Gold;
        } else if cRand > 0.2 {
          color := Emerald;
        } else if cRand > 0.1 {
          color := DeepRed;
        } else {
          color := JackeryOrange;
        }
      }
    }
    l := Look(kind, shape, textureUrl, color, scale);
  }

  /** generateParticles(count): the loop pushes one particle per index; the
      result is the particle of ParticleAt at every index, 450 of them
      whatever `count` is, each with its index as id and with the clue at
      index 0 only. */
  method GenerateParticles(count: int, draws: seq<Draws>, m: Maths) returns (particles: seq<Particle>)
    requires |draws| == WorkingCount
    ensures |particles| == WorkingCount
    ensures forall i :: 0 <= i < WorkingCount ==> particles[i] == ParticleAt(i, draws[i], m)
    ensures forall i :: 0 <= i < |particles| ==> particles[i].id == i
    ensures forall i :: 0 <= i < |particles| ==> (particles[i].kind == PhotoClue <==> i == 0)
  {
    particles := [];
    for i := 0 to WorkingCount
      invariant |particles| == i
      invariant forall j :: 0 <= j < i ==> particles[j] == ParticleAt(j, draws[j], m)
    {
      var d := draws[i];
      var l := AssignLook(i, d);
      var treePos := TreePoint(i, d.radialNoise, m);
      var scatterPos := ScatterPoint(i, d.scatterRadius, m);
      particles := particles + [Particle(i, l.kind, l.shape, treePos, scatterPos, l.scale, l.textureUrl, l.color)];
    }
    forall i | 0 <= i < |particles|
      ensures particles[i].id == i && (particles[i].kind == PhotoClue <==> i == 0)
    {
      assert particles[i] == ParticleAt(i, draws[i], m);
    }
  }

  /** The photo slice: index 0 is the clue with image 433 at 600x700; indices
      1..11 are brand photos cycling through the six brand ids; indices
      12..29 are seasonal photos cycling through the ten seasonal ids; all
      are planes of scale 3. */
  lemma PhotoSlice(i: nat, d: Draws)
    requires i < PhotoCount
    ensures LookAt(i, d).shape == Plane && LookAt(i, d).scale == 3.0
    ensures i == 0 ==> LookAt(i, d).kind == PhotoClue
                       && LookAt(i, d).textureUrl == Some(PicsumUrl(433, 600, 700))
    ensures 1 <= i < 12 ==> LookAt(i, d).kind == PhotoBrand
                            && LookAt(i, d).textureUrl == Some(PicsumUrl(BrandIds[i % 6], 500, 500))
    ensures 12 <= i ==> LookAt(i, d).kind == PhotoSeasonal
                        && LookAt(i, d).textureUrl == Some(PicsumUrl(SeasonalIds[i % 10], 500, 500))
  {
  }

  /** The three ornament tiers past the photo slice: a tier draw above 0.92
      gives a champagne diamond star of scale [0.8, 1.2); above 0.75 a red or
      orange gift box of scale [1.2, 1.6); otherwise a sphere bulb of scale
      [1.0, 1.8). */
  lemma OrnamentTiers(i: nat, d: Draws)
    requires PhotoCount <= i
    ensures var l := LookAt(i, d);
      && (d.tier > 0.92 ==>
            l.kind == Star && l.shape == Diamond && l.color == Champagne && 0.8 <= l.scale < 1.2)
      && (0.75 < d.tier <= 0.92 ==>
            l.kind == Gift && l.shape == Box && (l.color == DeepRed || l.color == JackeryOrange)
            && 1.2 <= l.scale < 1.6)
      && (d.tier <= 0.75 ==>
            l.kind == Ornament && l.shape == Sphere && 1.0 <= l.scale < 1.8)
  {
  }

  /** The tree height strictly decreases with the index. */
  lemma TreeHeightDecreasing(i: nat, j: nat)
    requires i < j < WorkingCount
    ensures TreeHeight(j) < TreeHeight(i)
  {
  }
}
