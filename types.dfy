/** The shared vocabulary of the scene (types.ts): the two layouts, the
    particle roles and shapes, a particle record and the application state. */
module Types {
  import opened Numerics

  datatype Option<T> = None | Some(value: T)

  /** Which layout every particle is drawn toward. */
  datatype TreeState = TreeShape | Scattered

  datatype ParticleType =
    | Ornament
    | Gift
    | Star
    | PhotoBrand
    | PhotoSeasonal
    | PhotoClue
    | Product

  datatype ParticleShape = Sphere | Box | Diamond | Plane

  /** ParticleData. The generator also fills an Euler `rotation` that nothing
      reads; it is not part of this model. */
  datatype Particle = Particle(
    id: nat,
    kind: ParticleType,
    shape: ParticleShape,
    treePosition: Vec3,
    scatterPosition: Vec3,
    scale: real,
    textureUrl: Option<string>,
    color: string)

  /** The three photo roles. */
  predicate IsPhoto(k: ParticleType) {
    k.PhotoBrand? || k.PhotoSeasonal? || k.PhotoClue?
  }

  /** AppState: the single mutable record the application keeps. */
  datatype AppState = AppState(
    hasPermission: bool,
    treeState: TreeState,
    selectedPhoto: Option<Particle>,
    isSelfieMode: bool,
    isRewardMode: bool)
}
