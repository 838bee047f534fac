/**
 * What a load promises, stated over the specification functions of
 * ModelLoader: per-mesh and per-channel outcomes, the order of meshes,
 * channels and animations, the texture rules, and how the animated load
 * relates to the static one.
 */
module LoaderProperties {
  import opened Wrappers
  import opened Geometry
  import opened Assimp
  import opened Platform
  import opened FileNames
  import opened ModelTypes
  import opened ModelLoader

  // =====================================================================
  // Textures

  /**
   * The texture rules: a clear flag gives the default texture whatever the
   * name; a set flag on a name with no '.' traps; otherwise the name is cut
   * at its last '.', a pair the bundle cannot resolve traps, a file that does
   * not load leaves the default texture, and a file that loads is used.
   */
  lemma TextureOutcomes(isLoaded: bool, fileName: string, bundle: AppBundle, mesh: nat, kind: MapKind,
                        base: string, ext: string)
    ensures !isLoaded ==> TextureFor(isLoaded, fileName, bundle, mesh, kind) == Success(DefaultTexture)
    ensures isLoaded && '.' !in fileName ==>
      TextureFor(isLoaded, fileName, bundle, mesh, kind) == Failure(TextureNameWithoutDot(mesh, kind))
    ensures isLoaded && fileName == base + "." + ext && '.' !in ext ==>
      TextureFor(isLoaded, fileName, bundle, mesh, kind) ==
        if (base, ext) !in bundle.paths then Failure(TextureNotInBundle(mesh, kind))
        else if bundle.paths[(base, ext)] in bundle.decodable
        then Success(LoadedTexture(bundle.decodable[bundle.paths[(base, ext)]]))
        else Success(DefaultTexture)
  {
    SplitExtensionSpec(fileName);
    if fileName == base + "." + ext && '.' !in ext {
      SplitExtensionUnique(fileName, base, ext);
    }
  }

  /**
   * A texture traps exactly when its flag is set and either its name has no
   * '.', or the name is some base + "." + dot-free extension that the bundle
   * does not resolve.
   */
  lemma TextureTraps(isLoaded: bool, fileName: string, bundle: AppBundle, mesh: nat, kind: MapKind)
    ensures TextureFor(isLoaded, fileName, bundle, mesh, kind).Failure? <==>
      isLoaded && ('.' !in fileName ||
        exists base: string, ext: string :: base + "." + ext == fileName && '.' !in ext && (base, ext) !in bundle.paths)
  {
    SplitExtensionSpec(fileName);
    if '.' in fileName {
      var parts := SplitExtension(fileName).value;
      assert parts.0 + "." + parts.1 == fileName && '.' !in parts.1;
      forall base: string, ext: string | base + "." + ext == fileName && '.' !in ext
        ensures (base, ext) == parts
      {
        SplitExtensionUnique(fileName, base, ext);
      }
    }
  }

  // =====================================================================
  // One mesh

  /**
   * Mesh i: the vertex buffer traps first, then the diffuse texture, then the
   * specular one. A mesh that completes has one vertex per 8 floats that
   * re-flatten to the buffer, the index buffer as it was (unchecked against
   * the vertex count), both colours and the shininess as read, and each
   * texture as the texture rules give it.
   */
  lemma DecodeMeshOutcome(m: MeshData, bundle: AppBundle, i: nat)
    ensures var diffuse := TextureFor(m.isDiffuseMapLoaded != 0, m.diffuseMap, bundle, i, DiffuseMap);
      var specular := TextureFor(m.isSpecularMapLoaded != 0, m.specularMap, bundle, i, SpecularMap);
      var r := DecodeMesh(m, bundle, i);
      (r.Success? <==> |m.vertices| % 8 == 0 && diffuse.Success? && specular.Success?) &&
      (|m.vertices| % 8 != 0 ==> r == Failure(VertexBufferOverrun(i))) &&
      (|m.vertices| % 8 == 0 && diffuse.Failure? ==> r == Failure(diffuse.error)) &&
      (|m.vertices| % 8 == 0 && diffuse.Success? && specular.Failure? ==> r == Failure(specular.error)) &&
      (r.Success? ==>
        8 * |r.value.vertices| == |m.vertices| &&
        FlattenVertices(r.value.vertices) == m.vertices &&
        r.value.indices == m.indices &&
        r.value.material.diffuseTexture == diffuse.value &&
        r.value.material.specularTexture == specular.value &&
        Vec4Floats(r.value.material.diffuseColour) == m.diffuseColour &&
        Vec4Floats(r.value.material.specularColour) == m.specularColour &&
        r.value.material.shininess == m.shininess)
  {
    if |m.vertices| % 8 == 0 {
      VerticesCount(m.vertices);
      VerticesRoundTrip(m.vertices);
      Vec4RoundTrip(m.diffuseColour);
      Vec4RoundTrip(m.specularColour);
    }
  }

  /**
   * With both flags clear a mesh never consults the bundle: it completes
   * whenever its vertex buffer is whole, with default textures and the
   * colours and shininess as read.
   */
  lemma UntexturedMesh(m: MeshData, bundle: AppBundle, i: nat)
    requires m.isDiffuseMapLoaded == 0 && m.isSpecularMapLoaded == 0
    ensures DecodeMesh(m, bundle, i).Success? <==> |m.vertices| % 8 == 0
    ensures |m.vertices| % 8 == 0 ==>
      DecodeMesh(m, bundle, i).value.material ==
        Material(DefaultTexture, DefaultTexture, Vec4Of(m.diffuseColour), Vec4Of(m.specularColour), m.shininess)
  {
  }

  // =====================================================================
  // Order of meshes, channels and animations

  /** Meshes come out one per index, in index order; the load completes iff every mesh does. */
  lemma MeshesInOrder(meshes: seq<MeshData>, bundle: AppBundle)
    ensures DecodeMeshes(meshes, bundle).Success? <==>
      forall i | 0 <= i < |meshes| :: DecodeMesh(meshes[i], bundle, i).Success?
    ensures DecodeMeshes(meshes, bundle).Success? ==>
      |DecodeMeshes(meshes, bundle).value| == |meshes| &&
      forall i | 0 <= i < |meshes| :: DecodeMeshes(meshes, bundle).value[i] == DecodeMesh(meshes[i], bundle, i).value
  {
    var rs := MeshResults(meshes, bundle);
    CollectInOrder(rs);
    forall i | 0 <= i < |meshes|
      ensures rs[i] == DecodeMesh(meshes[i], bundle, i)
    {
      MapIndexedAt(meshes, (m, i) => DecodeMesh(m, bundle, i), i);
    }
  }

  /** The first mesh that traps is the outcome of the whole mesh loop, whatever the meshes after it hold. */
  lemma MeshesFirstTrap(meshes: seq<MeshData>, bundle: AppBundle, i: nat)
    requires i < |meshes| && DecodeMesh(meshes[i], bundle, i).Failure?
    requires forall k | 0 <= k < i :: DecodeMesh(meshes[k], bundle, k).Success?
    ensures DecodeMeshes(meshes, bundle) == Failure(DecodeMesh(meshes[i], bundle, i).error)
  {
    var rs := MeshResults(meshes, bundle);
    forall k | 0 <= k <= i
      ensures rs[k] == DecodeMesh(meshes[k], bundle, k)
    {
      MapIndexedAt(meshes, (m, i) => DecodeMesh(m, bundle, i), k);
    }
    CollectFirstFailure(rs, i);
  }

  /** Channels of animation a come out one per index, in index order; the animation completes iff every channel does. */
  lemma ChannelsInOrder(channels: seq<ChannelData>, a: nat)
    ensures DecodeChannels(channels, a).Success? <==>
      forall j | 0 <= j < |channels| :: DecodeChannel(channels[j], a, j).Success?
    ensures DecodeChannels(channels, a).Success? ==>
      |DecodeChannels(channels, a).value| == |channels| &&
      forall j | 0 <= j < |channels| :: DecodeChannels(channels, a).value[j] == DecodeChannel(channels[j], a, j).value
  {
    var rs := ChannelResults(channels, a);
    CollectInOrder(rs);
    forall j | 0 <= j < |channels|
      ensures rs[j] == DecodeChannel(channels[j], a, j)
    {
      MapIndexedAt(channels, (c, j) => DecodeChannel(c, a, j), j);
    }
  }

  /** Animations come out one per index, in index order, each with its timing copied unchanged. */
  lemma AnimationsInOrder(anims: seq<AnimationData>)
    ensures DecodeAnimations(anims).Success? <==>
      forall a | 0 <= a < |anims| :: DecodeChannels(anims[a].channels, a).Success?
    ensures DecodeAnimations(anims).Success? ==>
      |DecodeAnimations(anims).value| == |anims| &&
      forall a | 0 <= a < |anims| ::
        DecodeAnimations(anims).value[a] ==
          Animation(anims[a].duration, anims[a].ticksPerSecond, DecodeChannels(anims[a].channels, a).value)
  {
    var rs := AnimationResults(anims);
    CollectInOrder(rs);
    forall a | 0 <= a < |anims|
      ensures rs[a] == DecodeAnimation(anims[a], a)
    {
      MapIndexedAt(anims, DecodeAnimation, a);
    }
  }

  // =====================================================================
  // One channel

  /**
   * Channel j of animation a: the position buffer traps first, then scales,
   * then rotations. A channel that completes keeps its name, has one vector
   * per 3 floats and one matrix per 9 floats, and each track re-flattens to
   * its buffer.
   */
  lemma DecodeChannelOutcome(c: ChannelData, a: nat, j: nat)
    ensures var r := DecodeChannel(c, a, j);
      (r.Success? <==> |c.positions| % 3 == 0 && |c.scales| % 3 == 0 && |c.rotations| % 9 == 0) &&
      (|c.positions| % 3 != 0 ==> r == Failure(KeyframeBufferOverrun(a, j, Positions))) &&
      (|c.positions| % 3 == 0 && |c.scales| % 3 != 0 ==> r == Failure(KeyframeBufferOverrun(a, j, Scales))) &&
      (|c.positions| % 3 == 0 && |c.scales| % 3 == 0 && |c.rotations| % 9 != 0 ==>
        r == Failure(KeyframeBufferOverrun(a, j, Rotations))) &&
      (r.Success? ==>
        r.value.name == c.name &&
        3 * |r.value.positions| == |c.positions| && FlattenVec3s(r.value.positions) == c.positions &&
        3 * |r.value.scales| == |c.scales| && FlattenVec3s(r.value.scales) == c.scales &&
        9 * |r.value.rotations| == |c.rotations| && FlattenMat3s(r.value.rotations) == c.rotations)
  {
    if |c.positions| % 3 == 0 && |c.scales| % 3 == 0 && |c.rotations| % 9 == 0 {
      Vec3sCount(c.positions);
      Vec3sCount(c.scales);
      Mat3sCount(c.rotations);
      Vec3sRoundTrip(c.positions);
      Vec3sRoundTrip(c.scales);
      Mat3sRoundTrip(c.rotations);
    }
  }

  // =====================================================================
  // Whole loads

  /**
   * A texture that fails to load never stops the load: when every vertex
   * buffer is whole and every texture named by a set flag has a '.' and
   * resolves in the bundle, the static load completes with one mesh per
   * importer mesh, whether or not the files decode.
   */
  lemma StaticLoadCompletes(scene: SceneData, bundle: AppBundle)
    requires forall i | 0 <= i < |scene.meshes| :: |scene.meshes[i].vertices| % 8 == 0
    requires forall i | 0 <= i < |scene.meshes| :: scene.meshes[i].isDiffuseMapLoaded != 0 ==>
      SplitExtension(scene.meshes[i].diffuseMap).Some? && SplitExtension(scene.meshes[i].diffuseMap).value in bundle.paths
    requires forall i | 0 <= i < |scene.meshes| :: scene.meshes[i].isSpecularMapLoaded != 0 ==>
      SplitExtension(scene.meshes[i].specularMap).Some? && SplitExtension(scene.meshes[i].specularMap).value in bundle.paths
    ensures StaticLoad(scene, bundle).Success?
    ensures |StaticLoad(scene, bundle).value| == |scene.meshes|
  {
    forall i | 0 <= i < |scene.meshes|
      ensures DecodeMesh(scene.meshes[i], bundle, i).Success?
    {
      var m := scene.meshes[i];
      TextureTraps(m.isDiffuseMapLoaded != 0, m.diffuseMap, bundle, i, DiffuseMap);
      TextureTraps(m.isSpecularMapLoaded != 0, m.specularMap, bundle, i, SpecularMap);
      DecodeMeshOutcome(m, bundle, i);
    }
    MeshesInOrder(scene.meshes, bundle);
  }

  /**
   * The animated load decodes the meshes exactly as the static load does and
   * before any animation: a mesh trap is its outcome whatever the animations
   * hold, and when it completes its meshes are the static load's and its
   * animations are the decoded animations, one per importer animation.
   */
  lemma AnimatedExtendsStatic(scene: SceneData, bundle: AppBundle)
    ensures StaticLoad(scene, bundle).Failure? ==> AnimatedLoad(scene, bundle) == Failure(StaticLoad(scene, bundle).error)
    ensures AnimatedLoad(scene, bundle).Success? <==>
      StaticLoad(scene, bundle).Success? && DecodeAnimations(scene.animations).Success?
    ensures AnimatedLoad(scene, bundle).Success? ==>
      AnimatedLoad(scene, bundle).value.0 == StaticLoad(scene, bundle).value &&
      |AnimatedLoad(scene, bundle).value.1| == |scene.animations| &&
      forall a | 0 <= a < |scene.animations| ::
        AnimatedLoad(scene, bundle).value.1[a].duration == scene.animations[a].duration &&
        AnimatedLoad(scene, bundle).value.1[a].ticksPerSecond == scene.animations[a].ticksPerSecond
  {
    AnimationsInOrder(scene.animations);
  }

  // =====================================================================
  // Two complete loads

  const One: Float32 := 0x3F80_0000                  // 1.0f
  const Zero: Float32 := 0
  const ThirtyTwo: Float32 := 0x4200_0000            // 32.0f
  const Two: Float64 := 0x4000_0000_0000_0000        // 2.0
  const TwentyFour: Float64 := 0x4038_0000_0000_0000 // 24.0

  /**
   * One untextured mesh with two vertices (16 floats), indices [0, 1, 0],
   * diffuse colour (1, 0, 0, 1) and shininess 32: the static load gives one
   * mesh with those two vertices, those indices and that colour.
   */
  lemma StaticLoadExample(buf: seq<Float32>, specular: Rgba, bundle: AppBundle)
    requires |buf| == 16
    ensures var m := MeshData(buf, [0, 1, 0], 0, "", 0, "", [One, Zero, Zero, One], specular, ThirtyTwo);
      StaticLoad(SceneData([m], []), bundle) ==
        Success([MeshValue([VertexOf(buf[..8]), VertexOf(buf[8..])], [0, 1, 0],
                           Material(DefaultTexture, DefaultTexture, Vec4(One, Zero, Zero, One),
                                    Vec4Of(specular), ThirtyTwo))])
  {
    var m := MeshData(buf, [0, 1, 0], 0, "", 0, "", [One, Zero, Zero, One], specular, ThirtyTwo);
    var rest := buf[8..];
    assert rest[..8] == rest && rest[8..] == [];
    assert VerticesOf(rest) == [VertexOf(rest)];
    assert VerticesOf(buf) == [VertexOf(buf[..8]), VertexOf(rest)];
    var v := MeshValue([VertexOf(buf[..8]), VertexOf(rest)], [0, 1, 0],
                       Material(DefaultTexture, DefaultTexture, Vec4(One, Zero, Zero, One), Vec4Of(specular), ThirtyTwo));
    assert DecodeMesh(m, bundle, 0) == Success(v);
    assert MeshResults([m], bundle) == [DecodeMesh(m, bundle, 0)];
    CollectSingle(DecodeMesh(m, bundle, 0));
  }

  /** The channel of the animated example: one position, no scales, one rotation. */
  lemma RootChannelExample(position: seq<Float32>, rotation: seq<Float32>)
    requires |position| == 3 && |rotation| == 9
    ensures DecodeChannels([ChannelData("root", position, [], rotation)], 0) ==
      Success([AnimationChannel("root", [Vec3Of(position)], [], [Mat3Of(rotation)])])
  {
    var c := ChannelData("root", position, [], rotation);
    var channel := AnimationChannel("root", [Vec3Of(position)], [], [Mat3Of(rotation)]);
    assert position[3..] == [] && position[..3] == position;
    assert rotation[9..] == [] && rotation[..9] == rotation;
    assert Vec3sOf(position) == [Vec3Of(position)];
    assert Mat3sOf(rotation) == [Mat3Of(rotation)];
    assert DecodeChannel(c, 0, 0) == Success(channel);
    assert ChannelResults([c], 0) == [DecodeChannel(c, 0, 0)];
    CollectSingle(DecodeChannel(c, 0, 0));
  }

  /**
   * One animation of duration 2 at 24 ticks per second with one channel
   * "root" holding one position, no scales and one rotation: the animated
   * load gives exactly that animation.
   */
  lemma AnimatedLoadExample(position: seq<Float32>, rotation: seq<Float32>, bundle: AppBundle)
    requires |position| == 3 && |rotation| == 9
    ensures var anim := AnimationData(Two, TwentyFour, [ChannelData("root", position, [], rotation)]);
      AnimatedLoad(SceneData([], [anim]), bundle) ==
        Success(([], [Animation(Two, TwentyFour, [AnimationChannel("root", [Vec3Of(position)], [], [Mat3Of(rotation)])])]))
  {
    var anim := AnimationData(Two, TwentyFour, [ChannelData("root", position, [], rotation)]);
    var animation := Animation(Two, TwentyFour, [AnimationChannel("root", [Vec3Of(position)], [], [Mat3Of(rotation)])]);
    RootChannelExample(position, rotation);
    assert DecodeAnimation(anim, 0) == Success(animation);
    assert AnimationResults([anim]) == [DecodeAnimation(anim, 0)];
    CollectSingle(DecodeAnimation(anim, 0));
  }
}
