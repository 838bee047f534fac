/**
 * Splitting a texture file name such as "brick.png" at its LAST '.' into the
 * resource name and the type that the bundle lookup takes.
 */
module FileNames {
  import opened Wrappers

  /** The position of the last '.' in name, searching backwards; None when there is none. */
  function LastDot(name: string): (r: Option<nat>)
    ensures r.Some? ==> r.value < |name|
  {
    if |name| == 0 then None
    else if name[|name| - 1] == '.' then Some(|name| - 1)
    else LastDot(name[..|name| - 1])
  }

  /**
   * The base name before the last '.' and the extension after it; None for a
   * name with no '.', where the loader's force-unwrap of the search result traps.
   */
  function SplitExtension(name: string): Option<(string, string)>
  {
    match LastDot(name)
    case None => None
    case Some(i) => Some((name[..i], name[i + 1..]))
  }

  /** The backwards search finds a '.', and no '.' follows it; it finds none exactly when there is none. */
  lemma {:induction false} LastDotIsLast(name: string)
    ensures LastDot(name).None? <==> '.' !in name
    ensures LastDot(name).Some? ==>
      var i := LastDot(name).value;
      i < |name| && name[i] == '.' && '.' !in name[i + 1..]
    decreases |name|
  {
    if |name| != 0 && name[|name| - 1] != '.' {
      var prefix := name[..|name| - 1];
      LastDotIsLast(prefix);
      assert name == prefix + [name[|name| - 1]];
      if LastDot(prefix).Some? {
        var i := LastDot(prefix).value;
        assert name[i + 1..] == prefix[i + 1..] + [name[|name| - 1]];
      }
    }
  }

  /**
   * A name splits exactly when it contains a '.'; base name, '.', extension
   * give back the name, and the extension contains no '.'.
   */
  lemma SplitExtensionSpec(name: string)
    ensures SplitExtension(name).None? <==> '.' !in name
    ensures SplitExtension(name).Some? ==>
      var (base, ext) := SplitExtension(name).value;
      base + "." + ext == name && '.' !in ext
  {
    LastDotIsLast(name);
    if LastDot(name).Some? {
      var i := LastDot(name).value;
      assert name == name[..i] + "." + name[i + 1..];
    }
  }

  /** In a name whose part after some '.' has no '.', that '.' is the last one. */
  lemma {:induction false} LastDotBeforeExtension(base: string, ext: string)
    requires '.' !in ext
    ensures LastDot(base + "." + ext) == Some(|base|)
    decreases |ext|
  {
    var name := base + "." + ext;
    if ext != [] {
      assert name[|name| - 1] == ext[|ext| - 1];
      assert name[..|name| - 1] == base + "." + ext[..|ext| - 1];
      LastDotBeforeExtension(base, ext[..|ext| - 1]);
    }
  }

  /** The split is the only one with a dot-free extension: base name and extension are determined by the name. */
  lemma SplitExtensionUnique(name: string, base: string, ext: string)
    requires base + "." + ext == name && '.' !in ext
    ensures SplitExtension(name) == Some((base, ext))
  {
    LastDotBeforeExtension(base, ext);
    assert name[..|base|] == base && name[|base| + 1..] == ext;
  }
}
