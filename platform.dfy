/**
 * The two platform services the loader calls while resolving textures,
 * modelled by their outcomes: the app bundle's resource lookup and GLKit's
 * texture loader.
 */
module Platform {

  /** A GLKTextureInfo: the default-constructed one, or one produced by loading a file. */
  datatype Texture = DefaultTexture | LoadedTexture(glName: nat)

  /**
   * `paths` answers Bundle.main.path(forResource:ofType:) for a (name, type) pair;
   * a pair that is absent gets nil. `decodable` maps each file path that
   * GLKTextureLoader loads to the texture it returns; for any other path the
   * loader throws.
   */
  datatype AppBundle = AppBundle(paths: map<(string, string), string>, decodable: map<string, nat>)
}
