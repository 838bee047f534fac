/**
 * ModelLoader: turns the flat buffers of an imported scene into meshes with
 * materials and into animations. Each Swift runtime trap on the way (an index
 * past the end of a buffer, a force-unwrap of nil) is a `Trap` result: the
 * first one reached in execution order ends the load.
 */
module ModelLoader {
  import opened Wrappers
  import opened Geometry
  import opened Assimp
  import opened Platform
  import opened FileNames
  import opened ModelTypes

  datatype MapKind = DiffuseMap | SpecularMap

  datatype Track = Positions | Scales | Rotations

  datatype Trap =
    | VertexBufferOverrun(mesh: nat)                       // cvertices[j + k] past the end
    | TextureNameWithoutDot(mesh: nat, kind: MapKind)       // `index!` on a name with no '.'
    | TextureNotInBundle(mesh: nat, kind: MapKind)          // `path!` when the bundle has no such resource
    | KeyframeBufferOverrun(animation: nat, channel: nat, track: Track)

  // =====================================================================
  // Specification: what one load computes

  /** The texture a mesh ends up with for one map: the default unless the flag is set and the file loads. */
  function TextureFor(isLoaded: bool, fileName: string, bundle: AppBundle, mesh: nat, kind: MapKind): Result<Texture, Trap>
  {
    if !isLoaded then Success(DefaultTexture)
    else match SplitExtension(fileName)
      case None => Failure(TextureNameWithoutDot(mesh, kind))
      case Some(parts) =>
        if parts !in bundle.paths then Failure(TextureNotInBundle(mesh, kind))
        else if bundle.paths[parts] in bundle.decodable then Success(LoadedTexture(bundle.decodable[bundle.paths[parts]]))
        else Success(DefaultTexture)
  }

  /** Mesh number i of the scene, finished with its material. */
  function DecodeMesh(m: MeshData, bundle: AppBundle, i: nat): Result<MeshValue, Trap>
  {
    if |m.vertices| % 8 != 0 then Failure(VertexBufferOverrun(i))
    else
      var diffuse :- TextureFor(m.isDiffuseMapLoaded != 0, m.diffuseMap, bundle, i, DiffuseMap);
      var specular :- TextureFor(m.isSpecularMapLoaded != 0, m.specularMap, bundle, i, SpecularMap);
      var material := Material(diffuse, specular, Vec4Of(m.diffuseColour), Vec4Of(m.specularColour), m.shininess);
      Success(MeshValue(VerticesOf(m.vertices), m.indices, material))
  }

  /** The outcome for each mesh of the scene, by index. */
  function MeshResults(meshes: seq<MeshData>, bundle: AppBundle): seq<Result<MeshValue, Trap>>
  {
    MapIndexed(meshes, (m, i) => DecodeMesh(m, bundle, i))
  }

  /** All meshes decoded in index order, or the first trap among them. */
  function DecodeMeshes(meshes: seq<MeshData>, bundle: AppBundle): Result<seq<MeshValue>, Trap>
  {
    Collect(MeshResults(meshes, bundle))
  }

  /** Channel j of animation a; the position track is decoded first, then scales, then rotations. */
  function DecodeChannel(c: ChannelData, a: nat, j: nat): Result<AnimationChannel, Trap>
  {
    if |c.positions| % 3 != 0 then Failure(KeyframeBufferOverrun(a, j, Positions))
    else if |c.scales| % 3 != 0 then Failure(KeyframeBufferOverrun(a, j, Scales))
    else if |c.rotations| % 9 != 0 then Failure(KeyframeBufferOverrun(a, j, Rotations))
    else Success(AnimationChannel(c.name, Vec3sOf(c.positions), Vec3sOf(c.scales), Mat3sOf(c.rotations)))
  }

  function ChannelResults(channels: seq<ChannelData>, a: nat): seq<Result<AnimationChannel, Trap>>
  {
    MapIndexed(channels, (c, j) => DecodeChannel(c, a, j))
  }

  /** All channels of animation a in index order, or the first trap among them. */
  function DecodeChannels(channels: seq<ChannelData>, a: nat): Result<seq<AnimationChannel>, Trap>
  {
    Collect(ChannelResults(channels, a))
  }

  function DecodeAnimation(anim: AnimationData, a: nat): Result<Animation, Trap>
  {
    var channels :- DecodeChannels(anim.channels, a);
    Success(Animation(anim.duration, anim.ticksPerSecond, channels))
  }

  function AnimationResults(anims: seq<AnimationData>): seq<Result<Animation, Trap>>
  {
    MapIndexed(anims, DecodeAnimation)
  }

  /** All animations in index order, or the first trap among them. */
  function DecodeAnimations(anims: seq<AnimationData>): Result<seq<Animation>, Trap>
  {
    Collect(AnimationResults(anims))
  }

  /** A static load: every mesh of the scene. */
  function StaticLoad(scene: SceneData, bundle: AppBundle): Result<seq<MeshValue>, Trap>
  {
    DecodeMeshes(scene.meshes, bundle)
  }

  /** An animated load: every mesh, then every animation, of the same scene. */
  function AnimatedLoad(scene: SceneData, bundle: AppBundle): Result<(seq<MeshValue>, seq<Animation>), Trap>
  {
    var meshes :- StaticLoad(scene, bundle);
    var anims :- DecodeAnimations(scene.animations);
    Success((meshes, anims))
  }

  // =====================================================================
  // The loader

  /** A loop that stops at a group of width k cut short by the end of the buffer sees a length that is not a multiple of k. */
  lemma CutShort(n: nat, j: nat, k: nat)
    requires k in {3, 8, 9} && j % k == 0 && j < n < j + k
    ensures n % k != 0
  {
  }

  /** The vertex loop: one vertex per group of 8 floats, trapping if the last group is cut short. */
  method DecodeVertices(cvertices: seq<Float32>) returns (r: Option<seq<Vertex>>)
    ensures r.Some? <==> |cvertices| % 8 == 0
    ensures r.Some? ==> r.value == VerticesOf(cvertices)
  {
    var numVertices := |cvertices|;
    var vertices: seq<Vertex> := [];
    var j := 0;
    while j < numVertices
      invariant 0 <= j <= numVertices && j % 8 == 0
      invariant vertices == VerticesOf(cvertices[..j])
    {
      if j + 8 > numVertices {
        assert numVertices % 8 != 0 by { CutShort(numVertices, j, 8); }
        return None;
      }
      var position := Vec3(cvertices[j], cvertices[j + 1], cvertices[j + 2]);
      var normal := Vec3(cvertices[j + 3], cvertices[j + 4], cvertices[j + 5]);
      var texCoord := Vec2(cvertices[j + 6], cvertices[j + 7]);
      assert Vertex(position, normal, texCoord) == VertexOf(cvertices[j..j + 8]);
      vertices := vertices + [Vertex(position, normal, texCoord)];
      VerticesPrefixStep(cvertices, j);
      j := j + 8;
    }
    assert cvertices[..j] == cvertices;
    return Some(vertices);
  }

  /** The position and scale loops: one vector per group of 3 floats. */
  method DecodeVec3s(buffer: seq<Float32>) returns (r: Option<seq<Vec3>>)
    ensures r.Some? <==> |buffer| % 3 == 0
    ensures r.Some? ==> r.value == Vec3sOf(buffer)
  {
    var vectors: seq<Vec3> := [];
    var k := 0;
    while k < |buffer|
      invariant 0 <= k <= |buffer| && k % 3 == 0
      invariant vectors == Vec3sOf(buffer[..k])
    {
      if k + 3 > |buffer| {
        assert |buffer| % 3 != 0 by { CutShort(|buffer|, k, 3); }
        return None;
      }
      vectors := vectors + [Vec3(buffer[k], buffer[k + 1], buffer[k + 2])];
      Vec3sPrefixStep(buffer, k);
      k := k + 3;
    }
    assert buffer[..k] == buffer;
    return Some(vectors);
  }

  /** The rotation loop: one matrix per group of 9 floats, passed to the constructor in buffer order. */
  method DecodeMat3s(buffer: seq<Float32>) returns (r: Option<seq<Mat3>>)
    ensures r.Some? <==> |buffer| % 9 == 0
    ensures r.Some? ==> r.value == Mat3sOf(buffer)
  {
    var rotations: seq<Mat3> := [];
    var k := 0;
    while k < |buffer|
      invariant 0 <= k <= |buffer| && k % 9 == 0
      invariant rotations == Mat3sOf(buffer[..k])
    {
      if k + 9 > |buffer| {
        assert |buffer| % 9 != 0 by { CutShort(|buffer|, k, 9); }
        return None;
      }
      rotations := rotations + [Mat3(buffer[k], buffer[k + 1], buffer[k + 2],
                                     buffer[k + 3], buffer[k + 4], buffer[k + 5],
                                     buffer[k + 6], buffer[k + 7], buffer[k + 8])];
      Mat3sPrefixStep(buffer, k);
      k := k + 9;
    }
    assert buffer[..k] == buffer;
    return Some(rotations);
  }

  /** One texture of a mesh: starts as the default and is replaced only by a texture that loads. */
  method LoadTexture(isLoaded: bool, fileName: string, bundle: AppBundle, mesh: nat, kind: MapKind)
    returns (r: Result<Texture, Trap>)
    ensures r == TextureFor(isLoaded, fileName, bundle, mesh, kind)
  {
    var texture := DefaultTexture;
    if isLoaded {
      var parts := SplitExtension(fileName);
      if parts.None? {
        return Failure(TextureNameWithoutDot(mesh, kind));
      }
      if parts.value !in bundle.paths {
        return Failure(TextureNotInBundle(mesh, kind));
      }
      var path := bundle.paths[parts.value];
      if path in bundle.decodable {
        texture := LoadedTexture(bundle.decodable[path]);
      }
    }
    return Success(texture);
  }

  /** The body of the mesh loop for mesh i: geometry, a new mesh object, then its material. */
  method ExtractMesh(m: MeshData, bundle: AppBundle, i: nat) returns (r: Result<Mesh, Trap>)
    ensures r.Success? <==> DecodeMesh(m, bundle, i).Success?
    ensures r.Failure? ==> r.error == DecodeMesh(m, bundle, i).error
    ensures r.Success? ==> fresh(r.value) && r.value.Holds(DecodeMesh(m, bundle, i).value)
  {
    var vertices := DecodeVertices(m.vertices);
    if vertices.None? {
      return Failure(VertexBufferOverrun(i));
    }
    var indices := m.indices;
    var mesh := new Mesh(vertices.value, indices);

    var diffuseTexture := LoadTexture(m.isDiffuseMapLoaded != 0, m.diffuseMap, bundle, i, DiffuseMap);
    if diffuseTexture.Failure? {
      return Failure(diffuseTexture.error);
    }
    var specularTexture := LoadTexture(m.isSpecularMapLoaded != 0, m.specularMap, bundle, i, SpecularMap);
    if specularTexture.Failure? {
      return Failure(specularTexture.error);
    }

    var diffCol := m.diffuseColour;
    var diffuseColour := Vec4(diffCol[0], diffCol[1], diffCol[2], diffCol[3]);
    var specCol := m.specularColour;
    var specularColour := Vec4(specCol[0], specCol[1], specCol[2], specCol[3]);
    var shininess := m.shininess;

    var material := Material(diffuseTexture.value, specularTexture.value, diffuseColour, specularColour, shininess);
    mesh.SetMaterial(material);
    return Success(mesh);
  }

  /** extractMeshesFromLoader: every mesh, in index order, as a new mesh object with its material set. */
  method ExtractMeshesFromLoader(loader: AssimpLoader, bundle: AppBundle) returns (r: Result<seq<Mesh>, Trap>)
    requires !loader.destroyed
    ensures var spec := DecodeMeshes(loader.scene.meshes, bundle);
      (r.Success? <==> spec.Success?) &&
      (r.Failure? ==> r.error == spec.error) &&
      (r.Success? ==> Builds(r.value, spec.value) && forall m | m in r.value :: fresh(m))
  {
    var scene := loader.scene;
    var numMeshes := |scene.meshes|;
    ghost var rs := MeshResults(scene.meshes, bundle);
    var meshes: seq<Mesh> := [];
    ghost var values: seq<MeshValue> := [];
    var i := 0;
    while i < numMeshes
      invariant 0 <= i <= numMeshes
      invariant Collect(rs[..i]) == Success(values) && Builds(meshes, values)
      invariant forall m | m in meshes :: fresh(m)
    {
      var mesh := ExtractMesh(scene.meshes[i], bundle, i);
      MapIndexedAt(scene.meshes, (m, i) => DecodeMesh(m, bundle, i), i);
      CollectNext(rs, i, values);
      if mesh.Failure? {
        return Failure(mesh.error);
      }
      BuildsAppend(meshes, values, mesh.value, rs[i].value);
      meshes := meshes + [mesh.value];
      values := values + [rs[i].value];
      i := i + 1;
    }
    assert rs[..i] == rs;
    return Success(meshes);
  }

  /** The body of the channel loop for channel j of animation a: positions, scales, then rotations. */
  method ExtractChannel(c: ChannelData, a: nat, j: nat) returns (r: Result<AnimationChannel, Trap>)
    ensures r == DecodeChannel(c, a, j)
  {
    var name := c.name;
    var positions := DecodeVec3s(c.positions);
    if positions.None? {
      return Failure(KeyframeBufferOverrun(a, j, Positions));
    }
    var scales := DecodeVec3s(c.scales);
    if scales.None? {
      return Failure(KeyframeBufferOverrun(a, j, Scales));
    }
    var rotations := DecodeMat3s(c.rotations);
    if rotations.None? {
      return Failure(KeyframeBufferOverrun(a, j, Rotations));
    }
    return Success(AnimationChannel(name, positions.value, scales.value, rotations.value));
  }

  /** The channel loop of animation a: every channel, in index order. */
  method ExtractChannels(anim: AnimationData, a: nat) returns (r: Result<seq<AnimationChannel>, Trap>)
    ensures r == DecodeChannels(anim.channels, a)
  {
    var numChannels := |anim.channels|;
    ghost var rs := ChannelResults(anim.channels, a);
    var channels: seq<AnimationChannel> := [];
    var j := 0;
    while j < numChannels
      invariant 0 <= j <= numChannels
      invariant Collect(rs[..j]) == Success(channels)
    {
      var channel := ExtractChannel(anim.channels[j], a, j);
      MapIndexedAt(anim.channels, (c, j) => DecodeChannel(c, a, j), j);
      CollectNext(rs, j, channels);
      if channel.Failure? {
        return Failure(channel.error);
      }
      channels := channels + [channel.value];
      j := j + 1;
    }
    assert rs[..j] == rs;
    return Success(channels);
  }

  /** The body of the animation loop for animation a: its timing, then its channels. */
  method ExtractAnimation(anim: AnimationData, a: nat) returns (r: Result<Animation, Trap>)
    ensures r == DecodeAnimation(anim, a)
  {
    var duration := anim.duration;
    var ticksPerSecond := anim.ticksPerSecond;
    var channels := ExtractChannels(anim, a);
    if channels.Failure? {
      return Failure(channels.error);
    }
    return Success(Animation(duration, ticksPerSecond, channels.value));
  }

  /** extractAnimationsFromLoader: every animation, in index order, with its timing copied. */
  method ExtractAnimationsFromLoader(loader: AssimpLoader) returns (r: Result<seq<Animation>, Trap>)
    requires !loader.destroyed
    ensures r == DecodeAnimations(loader.scene.animations)
  {
    var scene := loader.scene;
    var numAnimations := |scene.animations|;
    ghost var rs := AnimationResults(scene.animations);
    var animations: seq<Animation> := [];
    var i := 0;
    while i < numAnimations
      invariant 0 <= i <= numAnimations
      invariant Collect(rs[..i]) == Success(animations)
    {
      var animation := ExtractAnimation(scene.animations[i], i);
      MapIndexedAt(scene.animations, DecodeAnimation, i);
      CollectNext(rs, i, animations);
      if animation.Failure? {
        return Failure(animation.error);
      }
      animations := animations + [animation.value];
      i := i + 1;
    }
    assert rs[..i] == rs;
    return Success(animations);
  }

  /**
   * loadStaticModelFromFile, given the scene the importer read from the file:
   * the meshes, then the loader destroyed. A trap ends the load before the
   * loader is destroyed.
   */
  method LoadStaticModelFromFile(scene: SceneData, bundle: AppBundle) returns (r: Result<Model, Trap>, ghost loader: AssimpLoader)
    ensures fresh(loader) && loader.scene == scene
    ensures r.Success? <==> StaticLoad(scene, bundle).Success?
    ensures r.Failure? ==> r.error == StaticLoad(scene, bundle).error && !loader.destroyed
    ensures r.Success? ==> loader.destroyed && Builds(r.value.meshes, StaticLoad(scene, bundle).value)
    ensures r.Success? ==> forall m | m in r.value.meshes :: fresh(m)
  {
    var assimp := new AssimpLoader(scene);
    loader := assimp;
    var meshes := ExtractMeshesFromLoader(assimp, bundle);
    if meshes.Failure? {
      return Failure(meshes.error), assimp;
    }
    assimp.Destroy();
    return Success(Model(meshes.value)), assimp;
  }

  /**
   * loadAnimatedModelFromFile, given the scene the importer read from the file:
   * the meshes, then the animations of the same loader, then the loader destroyed.
   */
  method LoadAnimatedModelFromFile(scene: SceneData, bundle: AppBundle) returns (r: Result<ModelAnimated, Trap>, ghost loader: AssimpLoader)
    ensures fresh(loader) && loader.scene == scene
    ensures r.Success? <==> AnimatedLoad(scene, bundle).Success?
    ensures r.Failure? ==> r.error == AnimatedLoad(scene, bundle).error && !loader.destroyed
    ensures r.Success? ==> loader.destroyed
    ensures r.Success? ==> Builds(r.value.meshes, AnimatedLoad(scene, bundle).value.0)
    ensures r.Success? ==> r.value.animations == AnimatedLoad(scene, bundle).value.1
    ensures r.Success? ==> forall m | m in r.value.meshes :: fresh(m)
  {
    var assimp := new AssimpLoader(scene);
    loader := assimp;
    var meshes := ExtractMeshesFromLoader(assimp, bundle);
    if meshes.Failure? {
      return Failure(meshes.error), assimp;
    }
    var animations := ExtractAnimationsFromLoader(assimp);
    if animations.Failure? {
      return Failure(animations.error), assimp;
    }
    assimp.Destroy();
    return Success(ModelAnimated(meshes.value, animations.value)), assimp;
  }
}
