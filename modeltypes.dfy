/** The structures the loader produces: materials, meshes, animation channels, animations and models. */
module ModelTypes {
  import opened Wrappers
  import opened Geometry
  import opened Assimp
  import opened Platform

  datatype Material = Material(
    diffuseTexture: Texture,
    specularTexture: Texture,
    diffuseColour: Vec4,
    specularColour: Vec4,
    shininess: Float32)

  /** The value a finished mesh holds. */
  datatype MeshValue = MeshValue(vertices: seq<Vertex>, indices: seq<UInt32>, material: Material)

  /** A mesh object: built from its geometry, then given its material. */
  class Mesh {
    const vertices: seq<Vertex>
    const indices: seq<UInt32>
    var material: Option<Material>

    constructor (vertices: seq<Vertex>, indices: seq<UInt32>)
      ensures this.vertices == vertices && this.indices == indices && material == None
    {
      this.vertices := vertices;
      this.indices := indices;
      material := None;
    }

    method SetMaterial(material: Material)
      modifies this
      ensures this.material == Some(material)
    {
      this.material := Some(material);
    }

    /** This mesh is finished and holds exactly the value v. */
    predicate Holds(v: MeshValue)
      reads this
    {
      vertices == v.vertices && indices == v.indices && material == Some(v.material)
    }
  }

  /** The mesh objects are pairwise distinct and, in order, hold exactly the values vs. */
  predicate Builds(meshes: seq<Mesh>, vs: seq<MeshValue>)
    reads set m | m in meshes
  {
    |meshes| == |vs| &&
    (forall i | 0 <= i < |meshes| :: meshes[i].Holds(vs[i])) &&
    (forall i, j | 0 <= i < j < |meshes| :: meshes[i] != meshes[j])
  }

  /** One more mesh object, distinct from the ones before it, holding one more value. */
  lemma BuildsAppend(meshes: seq<Mesh>, vs: seq<MeshValue>, m: Mesh, v: MeshValue)
    requires Builds(meshes, vs) && m !in meshes && m.Holds(v)
    ensures Builds(meshes + [m], vs + [v])
  {
  }

  datatype AnimationChannel = AnimationChannel(
    name: string,
    positions: seq<Vec3>,
    scales: seq<Vec3>,
    rotations: seq<Mat3>)

  datatype Animation = Animation(duration: Float64, ticksPerSecond: Float64, channels: seq<AnimationChannel>)

  datatype Model = Model(meshes: seq<Mesh>)

  datatype ModelAnimated = ModelAnimated(meshes: seq<Mesh>, animations: seq<Animation>)
}
