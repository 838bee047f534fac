# ARGame model loader in Dafny

ARGame's `ModelLoader` reads a 3D model through a native Assimp importer. The importer returns flat buffers:
- 8 floats per vertex;
- 3 floats per position or scale keyframe;
- 9 floats per rotation keyframe.

The loader rebuilds typed values from these buffers:
- meshes with vertices, indices and a material (two optional textures, two RGBA colours, a shininess);
- animations with their duration, tick rate and channels.

`loadStaticModelFromFile` builds a `Model` from the meshes. `loadAnimatedModelFromFile` builds a `ModelAnimated` from the meshes plus the animations of the same importer.

The project models that decoding. The loader works step by step, so the model does too:
- The stride loops are methods with loop invariants, proved against recursive specification functions (`VerticesOf`, `Vec3sOf`, `Mat3sOf`).
- A mesh is a class, because `setMaterial` completes it after it is constructed.
- The importer handle is a class whose `Destroy` is the call that releases it.
- The texture-name split is a pure function.

Floats are only copied, never computed on. They are carried as their IEEE bit patterns (`bv32`, `bv64`), so "bit for bit" claims are literal.

## Traps

Some conditions crash the Swift code at run time. The model returns each of them as a `Trap` result, and the first one reached in execution order is the outcome:
- **Partial stride group.** A stride loop reads `cvertices[j+7]`, `cPositions[k+2]` and so on. When the buffer length is not a multiple of the stride, the last group runs past the end of the array.
- **Texture name without a '.'.** The name goes through `index!`, and the backwards search for "." has returned nil.
- **Texture not in the bundle.** The path goes through `path!`, and the bundle has no such resource. This unwrap happens inside `do`, but a force-unwrap is not an error that `catch` receives.

On a trap, `mlDestroyAssimpModelLoader` is never reached. The entry points' ghost `loader` result shows this.

## Behaviour worth knowing

- **Vertex count.** The reported vertex count is used as the length of the float buffer (`ModelLoader.swift:103-109`). A mesh therefore has count/8 vertices.
- **Texture that fails to load.** Each texture variable starts as a default-constructed `GLKTextureInfo()` (`ModelLoader.swift:138`). When `GLKTextureLoader.texture` throws, the `catch` only logs (`ModelLoader.swift:160-168`). The mesh then completes with that default texture (`DefaultTexture`).
- **Unresolved texture path.** The path is force-unwrapped as `path!` (`ModelLoader.swift:160, 193`). A texture the bundle cannot find traps.
- **Releasing the importer.** `mlDestroyAssimpModelLoader` is called only on the normal return (`ModelLoader.swift:39, 72`). A trap before it leaves the importer unreleased.
- **Stride loops.** The loops read a whole group per step (`ModelLoader.swift:109, 277, 287, 297`). A buffer whose length is not a multiple of the stride traps on its last, partial group.

## Model

| member | source | states |
|---|---|---|
| FileNames.LastDotIsLast | ARGame/ModelLoader.swift:150 | The backwards search for "." finds none exactly when the name has no '.'. Otherwise it finds a '.' with no '.' after it. |
| FileNames.SplitExtensionSpec | ARGame/ModelLoader.swift:150-152 | A name splits exactly when it contains a '.'. Then base + "." + extension gives back the name, and the extension has no '.'. |
| FileNames.LastDotBeforeExtension | ARGame/ModelLoader.swift:150 | In base + "." + ext with a dot-free ext, the last '.' is the one right after base. |
| FileNames.SplitExtensionUnique | ARGame/ModelLoader.swift:150-152 | The split is determined by the name: any base and dot-free extension that rebuild the name are the ones the split returns. |
| Geometry.VerticesCount | ARGame/ModelLoader.swift:103-118 | A whole vertex buffer yields one vertex per 8 floats: 8 × vertex count = buffer length. |
| Geometry.VertexAt | ARGame/ModelLoader.swift:109-117 | Vertex j exists and flattens back to exactly floats 8j .. 8j+7 of the buffer. |
| Geometry.VertexFields | ARGame/ModelLoader.swift:112-114 | Vertex j's position is floats 8j..8j+2, its normal 8j+3..8j+5, and its texture coordinate 8j+6 and 8j+7. |
| Geometry.VerticesRoundTrip | ARGame/ModelLoader.swift:109-117 | Re-flattening the decoded vertices in order reproduces the buffer bit for bit. |
| Geometry.FlattenVerticesRoundTrip | ARGame/ModelLoader.swift:109-117 | Decoding the flattening of any vertex sequence gives that sequence back, and its length is 8 per vertex. |
| Geometry.VerticesAppend | ARGame/ModelLoader.swift:109-117 | One more 8-float group at the end of a buffer appends exactly one vertex at the end (decode order is buffer order). |
| Geometry.Vec3sCount | ARGame/ModelLoader.swift:274-290 | A whole position or scale buffer yields one vector per 3 floats. |
| Geometry.Vec3At | ARGame/ModelLoader.swift:277-280 | Vector j is floats 3j, 3j+1 and 3j+2, in that order. |
| Geometry.Vec3sRoundTrip | ARGame/ModelLoader.swift:272-290 | Re-flattening the decoded vectors reproduces the buffer. |
| Geometry.FlattenVec3sRoundTrip | ARGame/ModelLoader.swift:272-290 | Decoding the flattening of any vector sequence gives it back. |
| Geometry.Vec3sAppend | ARGame/ModelLoader.swift:277-280 | One more 3-float group appends exactly one vector at the end. |
| Geometry.Mat3sCount | ARGame/ModelLoader.swift:294-300 | A whole rotation buffer yields one matrix per 9 floats. |
| Geometry.Mat3At | ARGame/ModelLoader.swift:297-300 | Matrix j is built from floats 9j .. 9j+8, passed to the constructor in buffer order. |
| Geometry.Mat3sRoundTrip | ARGame/ModelLoader.swift:292-300 | Re-flattening the decoded matrices reproduces the buffer. |
| Geometry.FlattenMat3sRoundTrip | ARGame/ModelLoader.swift:292-300 | Decoding the flattening of any matrix sequence gives it back. |
| Geometry.Mat3sAppend | ARGame/ModelLoader.swift:297-300 | One more 9-float group appends exactly one matrix at the end. |
| ModelLoader.DecodeVertices | ARGame/ModelLoader.swift:102-118 | The vertex loop completes exactly when the length is a multiple of 8 (otherwise it reads past the end). It then yields `VerticesOf` of the buffer. |
| ModelLoader.DecodeVec3s | ARGame/ModelLoader.swift:272-290 | A position or scale loop completes exactly when the length is a multiple of 3. It then yields `Vec3sOf` of the buffer. |
| ModelLoader.DecodeMat3s | ARGame/ModelLoader.swift:292-300 | The rotation loop completes exactly when the length is a multiple of 9. It then yields `Mat3sOf` of the buffer. |
| ModelLoader.LoadTexture | ARGame/ModelLoader.swift:137-170 | The texture variable starts as the default and is replaced only by a texture that loads. The two force-unwraps trap. The result is the texture rules' `TextureFor`. |
| ModelLoader.ExtractMesh | ARGame/ModelLoader.swift:101-225 | One mesh: it completes exactly when `DecodeMesh` does, with the same trap. Otherwise it is a new mesh object holding `DecodeMesh`'s value. |
| ModelLoader.ExtractMeshesFromLoader | ARGame/ModelLoader.swift:86-229 | It completes exactly when `DecodeMeshes` does, with the same trap. Otherwise it returns new, pairwise distinct mesh objects holding the decoded meshes in index order. |
| ModelLoader.ExtractChannel | ARGame/ModelLoader.swift:269-303 | One channel: its name, then positions, scales and rotations decoded in that order, with the first partial group trapping. |
| ModelLoader.ExtractChannels | ARGame/ModelLoader.swift:264-304 | The channel loop of animation a yields `DecodeChannels`: every channel in index order, or the first trap. |
| ModelLoader.ExtractAnimation | ARGame/ModelLoader.swift:254-307 | One animation: duration and ticks per second as read, then its channels. |
| ModelLoader.ExtractAnimationsFromLoader | ARGame/ModelLoader.swift:240-311 | The animation loop yields `DecodeAnimations`: every animation in index order, or the first trap. |
| ModelLoader.LoadStaticModelFromFile | ARGame/ModelLoader.swift:24-42 | It creates a fresh importer for the scene. It completes exactly when the static load does, with the same trap. On success its meshes hold the decoded meshes and the importer is destroyed. On a trap the importer is not destroyed. |
| ModelLoader.LoadAnimatedModelFromFile | ARGame/ModelLoader.swift:54-75 | The same as the static entry point, but the meshes are followed by the animations of the same importer. On success it returns both and the importer is destroyed. |
| ModelTypes.Mesh.constructor | ARGame/ModelLoader.swift:131 | A mesh is built from its vertices and indices, with no material yet. |
| ModelTypes.Mesh.SetMaterial | ARGame/ModelLoader.swift:217-218 | setMaterial gives the mesh exactly the assembled material. |
| Assimp.AssimpLoader.constructor | ARGame/ModelLoader.swift:33 | A new importer handle holds the imported scene and is not yet destroyed. |
| Assimp.AssimpLoader.Destroy | ARGame/ModelLoader.swift:39 | Destroying a live handle marks it destroyed. |
| LoaderProperties.TextureOutcomes | ARGame/ModelLoader.swift:137-170 | A clear flag gives the default texture whatever the name. A set flag traps on a name without a '.'. Otherwise the name is cut at its last '.': an unresolved pair traps, a file that fails to load leaves the default, and a file that loads is used. |
| LoaderProperties.TextureTraps | ARGame/ModelLoader.swift:144-160 | A texture traps exactly when its flag is set and either its name has no '.', or the name is some base + "." + dot-free extension that the bundle does not resolve. |
| LoaderProperties.DecodeMeshOutcome | ARGame/ModelLoader.swift:101-218 | The traps come in order: vertex buffer, diffuse texture, specular texture. A completed mesh has 8 floats per vertex that re-flatten to the buffer, the indices copied verbatim (never checked against the vertex count), both colours as the four floats read, the shininess as read, and each texture as the texture rules give it. |
| LoaderProperties.UntexturedMesh | ARGame/ModelLoader.swift:137-218 | With both flags clear, a mesh completes exactly when its vertex buffer is whole. It then has default textures and the colours and shininess as read. |
| LoaderProperties.MeshesInOrder | ARGame/ModelLoader.swift:95-226 | The mesh loop completes exactly when every mesh does. It then yields one mesh per index, and mesh i is the decoding of importer mesh i. |
| LoaderProperties.MeshesFirstTrap | ARGame/ModelLoader.swift:95-226 | The first mesh that traps decides the outcome, whatever later meshes hold. |
| LoaderProperties.ChannelsInOrder | ARGame/ModelLoader.swift:267-304 | The channel loop completes exactly when every channel does. It then yields one channel per index, in index order. |
| LoaderProperties.AnimationsInOrder | ARGame/ModelLoader.swift:249-308 | The animation loop completes exactly when every animation's channels do. Animation a then has importer animation a's duration and ticks per second, unchanged, and its decoded channels. |
| LoaderProperties.DecodeChannelOutcome | ARGame/ModelLoader.swift:270-303 | The traps come in order: positions, scales, rotations. A completed channel keeps its name and has 3 floats per position and scale and 9 per rotation, and each track re-flattens to its buffer. |
| LoaderProperties.StaticLoadCompletes | ARGame/ModelLoader.swift:155-168 | Suppose every vertex buffer is whole and every flagged texture name splits and resolves. Then the static load completes with one mesh per importer mesh, whether or not the texture files load. |
| LoaderProperties.AnimatedExtendsStatic | ARGame/ModelLoader.swift:66-74 | The animated load decodes the meshes as the static load does and before any animation, so a mesh trap wins over any animation trap. On success its animations are one per importer animation, with the timing copied. |
| LoaderProperties.StaticLoadExample | ARGame/ModelLoader.swift:24-42 | One untextured mesh with 16 floats, indices [0, 1, 0], diffuse colour (1, 0, 0, 1) and shininess 32 loads as one mesh. That mesh has the two vertices, those indices, default textures, and that colour and shininess. |
| LoaderProperties.RootChannelExample | ARGame/ModelLoader.swift:267-304 | A channel "root" with one position, no scales and one rotation decodes to exactly that channel. |
| LoaderProperties.AnimatedLoadExample | ARGame/ModelLoader.swift:54-75 | An importer with no meshes and one animation (duration 2.0, 24 ticks per second) and that channel loads as exactly that animation. |

## Left out

- **Finding the model file.** `Bundle.main.path` and the C-string conversion (`ModelLoader.swift:27-30, 57-60`) are I/O. Each entry point takes the imported scene instead, so a missing model resource is not modelled.
- **The importer itself.** `AssimpModelLoaderCInterface.cpp` and the `AssimpModelLoader` class behind it only forward pointers. Their outputs are modelled as the `SceneData` value. The C++ loader is not part of this model.
- **Texture resolution and loading.** `Bundle.main.path(forResource:ofType:)` and `GLKTextureLoader.texture(withContentsOfFile:options:)` are platform I/O. They are modelled by their outcomes: the bundle's `paths` map, and the `decodable` map of files that load. Because `decodable` maps a path to one texture, two loads of the same file give equal textures in the model, whereas each `GLKTextureLoader.texture` call (`ModelLoader.swift:160, 193`) returns a new `GLKTextureInfo` object. The loader option `GLKTextureLoaderGenerateMipmaps: false` has no effect on what the model observes.
- **Logging.** The `print` calls (`ModelLoader.swift:167, 199, 206, 212`) are console output.
- **Pointer plumbing.** `UnsafeBufferPointer` copies are modelled as sequences.
- **Integer widths.** Mesh, animation and channel counts are unbounded `nat`s, not `UInt32`. `Int(...)` conversions cannot overflow here.
- **Strings.** Swift `String` is a sequence of grapheme clusters, and `String(cString:)` decodes UTF-8. The model treats a name as a sequence of characters, which gives the same split for every name whose '.' is a single character.
- **Process termination.** A trap ends the process. The model stops at the first trap and reports it, but it does not model anything after that point.
- **Types defined in other files.** `Mesh`, `Material`, `Model`, `ModelAnimated`, `Animation`, `AnimationChannel` and `Vertex` are defined in files that are not part of this model. They are modelled from how the loader constructs them. A `Mesh`'s material is optional until `setMaterial` is called.
- **GLKit layout.** `GLKVector` and `GLKMatrix3` memory layout is not modelled. A matrix keeps `GLKMatrix3Make`'s argument order.
