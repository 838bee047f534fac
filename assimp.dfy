/**
 * What the native Assimp importer hands back through its C interface, seen as
 * plain data, and the opaque loader handle whose lifetime the Swift side manages.
 */
module Assimp {
  import opened Geometry

  /** The C `unsigned int` of the index buffer. */
  newtype UInt32 = x: int | 0 <= x < 0x1_0000_0000

  /** The four floats read from a colour pointer (the loader always reads exactly four). */
  type Rgba = s: seq<Float32> | |s| == 4 witness [0, 0, 0, 0]

  /** Everything the accessors report for one mesh. */
  datatype MeshData = MeshData(
    vertices: seq<Float32>,      // mlGetMeshVertices; its length is what mlGetNumVerticesInMesh reports
    indices: seq<UInt32>,        // mlGetMeshIndices; its length is mlGetNumIndicesInMesh
    isDiffuseMapLoaded: int,     // mlGetMeshIsDiffuseMapLoaded: nonzero means a diffuse map is named
    diffuseMap: string,          // mlGetMeshDiffuseMap
    isSpecularMapLoaded: int,    // mlGetMeshIsSpecularMapLoaded
    specularMap: string,         // mlGetMeshSpecularMap
    diffuseColour: Rgba,         // mlGetMeshDiffuseCol
    specularColour: Rgba,        // mlGetMeshSpecularCol
    shininess: Float32)          // mlGetMeshShininess

  /** One animation channel: its node name and its three flat keyframe buffers. */
  datatype ChannelData = ChannelData(
    name: string,                // mlGetAnimationChannelName
    positions: seq<Float32>,     // mlGetAnimationChannelPositions; length mlGetNumPositionsInChannel
    scales: seq<Float32>,        // mlGetAnimationChannelScales; length mlGetNumScalesInChannel
    rotations: seq<Float32>)     // mlGetAnimationChannelRotations; length mlGetNumRotationsInChannel

  datatype AnimationData = AnimationData(
    duration: Float64,           // mlGetAnimationDuration
    ticksPerSecond: Float64,     // mlGetAnimationTicksPerSecond
    channels: seq<ChannelData>)  // mlGetNumChannelsInAnimation of them

  /** The imported scene: mlGetNumMeshes meshes and mlGetNumAnimations animations. */
  datatype SceneData = SceneData(meshes: seq<MeshData>, animations: seq<AnimationData>)

  /** The native loader object behind the opaque pointer; it must be destroyed exactly once. */
  class AssimpLoader {
    const scene: SceneData
    var destroyed: bool

    /** mlLoadStaticAssimpModel / mlLoadAnimatedAssimpModel: a new loader holding the imported scene. */
    constructor (scene: SceneData)
      ensures this.scene == scene && !destroyed
    {
      this.scene := scene;
      destroyed := false;
    }

    /** mlDestroyAssimpModelLoader: deletes the native loader. */
    method Destroy()
      requires !destroyed
      modifies this
      ensures destroyed
    {
      destroyed := true;
    }
  }
}
