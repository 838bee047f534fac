/**
 * The GLKit value types the loader builds (GLKVector2/3/4, GLKMatrix3) and the
 * Vertex record, with the stride decodings that turn flat importer buffers into
 * them and the flattenings that turn them back.
 */
module Geometry {
  /** A single-precision float, carried as its IEEE 754 bit pattern: the loader only copies floats. */
  type Float32 = bv32

  /** A double-precision float, carried as its IEEE 754 bit pattern. */
  type Float64 = bv64

  datatype Vec2 = Vec2(x: Float32, y: Float32)

  datatype Vec3 = Vec3(x: Float32, y: Float32, z: Float32)

  datatype Vec4 = Vec4(x: Float32, y: Float32, z: Float32, w: Float32)

  /** The nine arguments of GLKMatrix3Make, named and ordered as that constructor takes them. */
  datatype Mat3 = Mat3(m00: Float32, m01: Float32, m02: Float32,
                       m10: Float32, m11: Float32, m12: Float32,
                       m20: Float32, m21: Float32, m22: Float32)

  /** One interleaved vertex: position, normal and texture coordinate. */
  datatype Vertex = Vertex(position: Vec3, normal: Vec3, texCoord: Vec2)

  // ---------------------------------------------------------------------
  // One group of floats <-> one value

  function Vec3Of(g: seq<Float32>): Vec3
    requires |g| == 3
  {
    Vec3(g[0], g[1], g[2])
  }

  function Vec4Of(g: seq<Float32>): Vec4
    requires |g| == 4
  {
    Vec4(g[0], g[1], g[2], g[3])
  }

  /** The nine floats of a group handed to GLKMatrix3Make in buffer order. */
  function Mat3Of(g: seq<Float32>): Mat3
    requires |g| == 9
  {
    Mat3(g[0], g[1], g[2], g[3], g[4], g[5], g[6], g[7], g[8])
  }

  /** Floats 0-2 are the position, 3-5 the normal, 6-7 the texture coordinate. */
  function VertexOf(g: seq<Float32>): Vertex
    requires |g| == 8
  {
    Vertex(Vec3(g[0], g[1], g[2]), Vec3(g[3], g[4], g[5]), Vec2(g[6], g[7]))
  }

  function Vec3Floats(v: Vec3): (r: seq<Float32>)
    ensures |r| == 3 && Vec3Of(r) == v
  {
    [v.x, v.y, v.z]
  }

  function Vec4Floats(v: Vec4): (r: seq<Float32>)
    ensures |r| == 4 && Vec4Of(r) == v
  {
    [v.x, v.y, v.z, v.w]
  }

  function Mat3Floats(m: Mat3): (r: seq<Float32>)
    ensures |r| == 9 && Mat3Of(r) == m
  {
    [m.m00, m.m01, m.m02, m.m10, m.m11, m.m12, m.m20, m.m21, m.m22]
  }

  function VertexFloats(v: Vertex): (r: seq<Float32>)
    ensures |r| == 8 && VertexOf(r) == v
  {
    Vec3Floats(v.position) + Vec3Floats(v.normal) + [v.texCoord.x, v.texCoord.y]
  }

  /** A colour read as four floats gives back those four floats, in order. */
  lemma Vec4RoundTrip(g: seq<Float32>)
    requires |g| == 4
    ensures Vec4Floats(Vec4Of(g)) == g
  {
  }

  lemma Vec3RoundTrip(g: seq<Float32>)
    requires |g| == 3
    ensures Vec3Floats(Vec3Of(g)) == g
  {
  }

  lemma Mat3RoundTrip(g: seq<Float32>)
    requires |g| == 9
    ensures Mat3Floats(Mat3Of(g)) == g
  {
  }

  lemma VertexRoundTrip(g: seq<Float32>)
    requires |g| == 8
    ensures VertexFloats(VertexOf(g)) == g
  {
    assert VertexFloats(VertexOf(g)) == g[0..3] + g[3..6] + g[6..8];
  }

  // ---------------------------------------------------------------------
  // Whole buffers <-> sequences of values: the stride loops, as recursion

  /** The vertices of a flat vertex buffer: one per consecutive group of 8 floats, in buffer order. */
  function VerticesOf(buf: seq<Float32>): seq<Vertex>
    requires |buf| % 8 == 0
    decreases |buf|
  {
    if |buf| == 0 then [] else [VertexOf(buf[..8])] + VerticesOf(buf[8..])
  }

  /** The 3-vectors of a position or scale keyframe buffer: one per consecutive group of 3 floats. */
  function Vec3sOf(buf: seq<Float32>): seq<Vec3>
    requires |buf| % 3 == 0
    decreases |buf|
  {
    if |buf| == 0 then [] else [Vec3Of(buf[..3])] + Vec3sOf(buf[3..])
  }

  /** The matrices of a rotation keyframe buffer: one per consecutive group of 9 floats. */
  function Mat3sOf(buf: seq<Float32>): seq<Mat3>
    requires |buf| % 9 == 0
    decreases |buf|
  {
    if |buf| == 0 then [] else [Mat3Of(buf[..9])] + Mat3sOf(buf[9..])
  }

  /** The vertices laid end to end, 8 floats each. */
  function FlattenVertices(vs: seq<Vertex>): seq<Float32>
  {
    if vs == [] then [] else VertexFloats(vs[0]) + FlattenVertices(vs[1..])
  }

  function FlattenVec3s(vs: seq<Vec3>): seq<Float32>
  {
    if vs == [] then [] else Vec3Floats(vs[0]) + FlattenVec3s(vs[1..])
  }

  function FlattenMat3s(ms: seq<Mat3>): seq<Float32>
  {
    if ms == [] then [] else Mat3Floats(ms[0]) + FlattenMat3s(ms[1..])
  }

  // ---------------------------------------------------------------------
  // Vertex buffers

  /** A whole vertex buffer holds one vertex per 8 floats. */
  lemma {:induction false} VerticesCount(buf: seq<Float32>)
    requires |buf| % 8 == 0
    ensures 8 * |VerticesOf(buf)| == |buf|
    decreases |buf|
  {
    if |buf| != 0 {
      VerticesCount(buf[8..]);
    }
  }

  /** Vertex j flattens back to floats 8j .. 8j+7 of the buffer. */
  lemma {:induction false} VertexAt(buf: seq<Float32>, j: nat)
    requires |buf| % 8 == 0 && 8 * j + 8 <= |buf|
    ensures j < |VerticesOf(buf)| && VertexFloats(VerticesOf(buf)[j]) == buf[8 * j..8 * j + 8]
    decreases |buf|
  {
    VerticesCount(buf);
    if j == 0 {
      VertexRoundTrip(buf[..8]);
    } else {
      VertexAt(buf[8..], j - 1);
      var start := 8 * j;
      assert buf[8..][start - 8..start] == buf[start..start + 8];
    }
  }

  /** Vertex j: position from floats 8j..8j+2, normal from 8j+3..8j+5, texture coordinate from 8j+6, 8j+7. */
  lemma VertexFields(buf: seq<Float32>, j: nat)
    requires |buf| % 8 == 0 && 8 * j + 8 <= |buf|
    ensures j < |VerticesOf(buf)|
    ensures VerticesOf(buf)[j].position == Vec3(buf[8 * j], buf[8 * j + 1], buf[8 * j + 2])
    ensures VerticesOf(buf)[j].normal == Vec3(buf[8 * j + 3], buf[8 * j + 4], buf[8 * j + 5])
    ensures VerticesOf(buf)[j].texCoord == Vec2(buf[8 * j + 6], buf[8 * j + 7])
  {
    VertexAt(buf, j);
    var g := buf[8 * j..8 * j + 8];
    assert VertexOf(g) == VerticesOf(buf)[j];
  }

  /** Re-flattening the decoded vertices reproduces the buffer bit for bit. */
  lemma {:induction false} VerticesRoundTrip(buf: seq<Float32>)
    requires |buf| % 8 == 0
    ensures FlattenVertices(VerticesOf(buf)) == buf
    decreases |buf|
  {
    if |buf| != 0 {
      VerticesRoundTrip(buf[8..]);
      VertexRoundTrip(buf[..8]);
      assert VerticesOf(buf)[1..] == VerticesOf(buf[8..]);
      assert buf == buf[..8] + buf[8..];
    }
  }

  /** Flattening vertices and decoding the result gives back the same vertices. */
  lemma {:induction false} FlattenVerticesRoundTrip(vs: seq<Vertex>)
    ensures |FlattenVertices(vs)| == 8 * |vs|
    ensures |FlattenVertices(vs)| % 8 == 0 && VerticesOf(FlattenVertices(vs)) == vs
  {
    if vs != [] {
      FlattenVerticesRoundTrip(vs[1..]);
      var buf := FlattenVertices(vs);
      assert buf[..8] == VertexFloats(vs[0]);
      assert buf[8..] == FlattenVertices(vs[1..]);
      assert vs == [vs[0]] + vs[1..];
    }
  }

  /** Decoding a buffer extended by one group of 8 appends exactly one vertex (one step of the vertex loop). */
  lemma {:induction false} VerticesAppend(buf: seq<Float32>, g: seq<Float32>)
    requires |buf| % 8 == 0 && |g| == 8
    ensures |buf + g| % 8 == 0
    ensures VerticesOf(buf + g) == VerticesOf(buf) + [VertexOf(g)]
    decreases |buf|
  {
    if |buf| == 0 {
      assert buf + g == g && g[..8] == g && g[8..] == [];
    } else {
      VerticesAppend(buf[8..], g);
      var rest := buf[8..];
      assert (buf + g)[..8] == buf[..8];
      assert (buf + g)[8..] == rest + g;
      calc {
        VerticesOf(buf + g);
        [VertexOf(buf[..8])] + VerticesOf(rest + g);
        [VertexOf(buf[..8])] + (VerticesOf(rest) + [VertexOf(g)]);
        ([VertexOf(buf[..8])] + VerticesOf(rest)) + [VertexOf(g)];
      }
    }
  }

  /** One step of the vertex loop over a buffer: the next 8 floats give the next vertex. */
  lemma VerticesPrefixStep(buf: seq<Float32>, j: nat)
    requires j % 8 == 0 && j + 8 <= |buf|
    ensures (j + 8) % 8 == 0
    ensures VerticesOf(buf[..j + 8]) == VerticesOf(buf[..j]) + [VertexOf(buf[j..j + 8])]
  {
    VerticesAppend(buf[..j], buf[j..j + 8]);
    assert buf[..j + 8] == buf[..j] + buf[j..j + 8];
  }

  // ---------------------------------------------------------------------
  // Position and scale keyframe buffers

  /** A whole position or scale buffer holds one vector per 3 floats. */
  lemma {:induction false} Vec3sCount(buf: seq<Float32>)
    requires |buf| % 3 == 0
    ensures 3 * |Vec3sOf(buf)| == |buf|
    decreases |buf|
  {
    if |buf| != 0 {
      Vec3sCount(buf[3..]);
    }
  }

  /** Vector j is floats 3j, 3j+1, 3j+2 of the buffer. */
  lemma {:induction false} Vec3At(buf: seq<Float32>, j: nat)
    requires |buf| % 3 == 0 && 3 * j + 3 <= |buf|
    ensures j < |Vec3sOf(buf)| && Vec3sOf(buf)[j] == Vec3(buf[3 * j], buf[3 * j + 1], buf[3 * j + 2])
    decreases |buf|
  {
    Vec3sCount(buf);
    if j != 0 {
      Vec3At(buf[3..], j - 1);
    }
  }

  /** Re-flattening the decoded vectors reproduces the buffer. */
  lemma {:induction false} Vec3sRoundTrip(buf: seq<Float32>)
    requires |buf| % 3 == 0
    ensures FlattenVec3s(Vec3sOf(buf)) == buf
    decreases |buf|
  {
    if |buf| != 0 {
      Vec3sRoundTrip(buf[3..]);
      Vec3RoundTrip(buf[..3]);
      assert Vec3sOf(buf)[1..] == Vec3sOf(buf[3..]);
      assert buf == buf[..3] + buf[3..];
    }
  }

  /** Flattening vectors and decoding the result gives back the same vectors. */
  lemma {:induction false} FlattenVec3sRoundTrip(vs: seq<Vec3>)
    ensures |FlattenVec3s(vs)| == 3 * |vs|
    ensures |FlattenVec3s(vs)| % 3 == 0 && Vec3sOf(FlattenVec3s(vs)) == vs
  {
    if vs != [] {
      FlattenVec3sRoundTrip(vs[1..]);
      var buf := FlattenVec3s(vs);
      assert buf[..3] == Vec3Floats(vs[0]);
      assert buf[3..] == FlattenVec3s(vs[1..]);
      assert vs == [vs[0]] + vs[1..];
    }
  }

  /** One step of a position or scale loop. */
  lemma {:induction false} Vec3sAppend(buf: seq<Float32>, g: seq<Float32>)
    requires |buf| % 3 == 0 && |g| == 3
    ensures |buf + g| % 3 == 0
    ensures Vec3sOf(buf + g) == Vec3sOf(buf) + [Vec3Of(g)]
    decreases |buf|
  {
    if |buf| == 0 {
      assert buf + g == g && g[..3] == g && g[3..] == [];
    } else {
      Vec3sAppend(buf[3..], g);
      var rest := buf[3..];
      assert (buf + g)[..3] == buf[..3];
      assert (buf + g)[3..] == rest + g;
      calc {
        Vec3sOf(buf + g);
        [Vec3Of(buf[..3])] + Vec3sOf(rest + g);
        [Vec3Of(buf[..3])] + (Vec3sOf(rest) + [Vec3Of(g)]);
        ([Vec3Of(buf[..3])] + Vec3sOf(rest)) + [Vec3Of(g)];
      }
    }
  }

  /** One step of a position or scale loop: the next 3 floats give the next vector. */
  lemma Vec3sPrefixStep(buf: seq<Float32>, k: nat)
    requires k % 3 == 0 && k + 3 <= |buf|
    ensures (k + 3) % 3 == 0
    ensures Vec3sOf(buf[..k + 3]) == Vec3sOf(buf[..k]) + [Vec3Of(buf[k..k + 3])]
  {
    Vec3sAppend(buf[..k], buf[k..k + 3]);
    assert buf[..k + 3] == buf[..k] + buf[k..k + 3];
  }

  // ---------------------------------------------------------------------
  // Rotation keyframe buffers

  /** A whole rotation buffer holds one matrix per 9 floats. */
  lemma {:induction false} Mat3sCount(buf: seq<Float32>)
    requires |buf| % 9 == 0
    ensures 9 * |Mat3sOf(buf)| == |buf|
    decreases |buf|
  {
    if |buf| != 0 {
      Mat3sCount(buf[9..]);
    }
  }

  /** Matrix j is built from floats 9j .. 9j+8 of the buffer, in order. */
  lemma {:induction false} Mat3At(buf: seq<Float32>, j: nat)
    requires |buf| % 9 == 0 && 9 * j + 9 <= |buf|
    ensures j < |Mat3sOf(buf)| && Mat3Floats(Mat3sOf(buf)[j]) == buf[9 * j..9 * j + 9]
    decreases |buf|
  {
    Mat3sCount(buf);
    if j == 0 {
      Mat3RoundTrip(buf[..9]);
    } else {
      Mat3At(buf[9..], j - 1);
      var start := 9 * j;
      assert buf[9..][start - 9..start] == buf[start..start + 9];
    }
  }

  /** Re-flattening the decoded matrices reproduces the buffer. */
  lemma {:induction false} Mat3sRoundTrip(buf: seq<Float32>)
    requires |buf| % 9 == 0
    ensures FlattenMat3s(Mat3sOf(buf)) == buf
    decreases |buf|
  {
    if |buf| != 0 {
      Mat3sRoundTrip(buf[9..]);
      Mat3RoundTrip(buf[..9]);
      assert Mat3sOf(buf)[1..] == Mat3sOf(buf[9..]);
      assert buf == buf[..9] + buf[9..];
    }
  }

  /** Flattening matrices and decoding the result gives back the same matrices. */
  lemma {:induction false} FlattenMat3sRoundTrip(ms: seq<Mat3>)
    ensures |FlattenMat3s(ms)| == 9 * |ms|
    ensures |FlattenMat3s(ms)| % 9 == 0 && Mat3sOf(FlattenMat3s(ms)) == ms
  {
    if ms != [] {
      FlattenMat3sRoundTrip(ms[1..]);
      var buf := FlattenMat3s(ms);
      assert buf[..9] == Mat3Floats(ms[0]);
      assert buf[9..] == FlattenMat3s(ms[1..]);
      assert ms == [ms[0]] + ms[1..];
    }
  }

  /** One step of the rotation loop. */
  lemma {:induction false} Mat3sAppend(buf: seq<Float32>, g: seq<Float32>)
    requires |buf| % 9 == 0 && |g| == 9
    ensures |buf + g| % 9 == 0
    ensures Mat3sOf(buf + g) == Mat3sOf(buf) + [Mat3Of(g)]
    decreases |buf|
  {
    if |buf| == 0 {
      assert buf + g == g && g[..9] == g && g[9..] == [];
    } else {
      Mat3sAppend(buf[9..], g);
      var rest := buf[9..];
      assert (buf + g)[..9] == buf[..9];
      assert (buf + g)[9..] == rest + g;
      calc {
        Mat3sOf(buf + g);
        [Mat3Of(buf[..9])] + Mat3sOf(rest + g);
        [Mat3Of(buf[..9])] + (Mat3sOf(rest) + [Mat3Of(g)]);
        ([Mat3Of(buf[..9])] + Mat3sOf(rest)) + [Mat3Of(g)];
      }
    }
  }

  /** One step of the rotation loop: the next 9 floats give the next matrix. */
  lemma Mat3sPrefixStep(buf: seq<Float32>, k: nat)
    requires k % 9 == 0 && k + 9 <= |buf|
    ensures (k + 9) % 9 == 0
    ensures Mat3sOf(buf[..k + 9]) == Mat3sOf(buf[..k]) + [Mat3Of(buf[k..k + 9])]
  {
    Mat3sAppend(buf[..k], buf[k..k + 9]);
    assert buf[..k + 9] == buf[..k] + buf[k..k + 9];
  }
}
