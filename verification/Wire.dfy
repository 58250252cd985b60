/** The packed command structs of gravity_protocol.h as the guest lays them out, field by
    field in declaration order, and what the host reads in them. */
module Wire {
  import opened Words
  import opened Protocol
  import opened Tracker
  import opened Processor
  import opened Decoding

  type u64 = x: int | 0 <= x < 0x1_0000_0000_0000_0000

  /** A colour attachment: texture, level, slice, load and store action, clear colour. */
  datatype ColorAction = ColorAction(
    texture: u32, level: u32, slice: u32, load: u32, store: u32, red: u32, green: u32, blue: u32, alpha: u32)

  /** A depth or stencil attachment; `clear` is a float or a word. */
  datatype DepthAction = DepthAction(
    texture: u32, level: u32, slice: u32, load: u32, store: u32, clear: u32, reserved: u32)

  /** One constructor per struct the host processes, floats as their words. The shader's name
      and the pipeline's descriptors are kept as bytes; `Plain` is any other opcode. */
  datatype Written =
    | CreateBufferStruct(
        handle: u32, size: u64, storageMode: u32, usage: u32, dataOffset: u64, dataSize: u32, reserved: u32)
    | DestroyBufferStruct(handle: u32)
    | CreateTextureStruct(
        handle: u32, textureType: u32, pixelFormat: u32, width: u32, height: u32, depth: u32, mipLevels: u32,
        arrayLength: u32, samples: u32, storageMode: u32, usage: u32, dataOffset: u64, dataSize: u32, reserved: u32)
    | DestroyTextureStruct(handle: u32)
    | CreateSamplerStruct(
        handle: u32, minFilter: u32, magFilter: u32, mipFilter: u32, addressS: u32, addressT: u32, addressR: u32,
        lodMin: u32, lodMax: u32, maxAnisotropy: u32, compare: u32, reserved: u32)
    | DestroySamplerStruct(handle: u32)
    | CreateShaderStruct(
        handle: u32, shaderType: u32, sourceType: u32, sourceOffset: u64, sourceSize: u32, name: seq<byte>)
    | CreatePipelineStruct(handle: u32, vertexShader: u32, fragmentShader: u32, descriptors: seq<byte>)
    | CreateDepthStencilStruct(handle: u32, compare: u32, faces: seq<byte>)
    | CmdbufCreateStruct(handle: u32)
    | CmdbufCommitStruct(handle: u32)
    | RenderBeginStruct(
        cmdbuf: u32, count: u32, colors: seq<ColorAction>, depthAction: DepthAction, stencil: DepthAction,
        x: u32, y: u32, areaWidth: u32, areaHeight: u32)
    | RenderEndStruct(cmdbuf: u32)
    | ViewportStruct(cmdbuf: u32, vx: u32, vy: u32, vw: u32, vh: u32, near: u32, far: u32)
    | ScissorStruct(cmdbuf: u32, sx: u32, sy: u32, sw: u32, sh: u32)
    | VertexBufferStruct(cmdbuf: u32, buffer: u32, offset: u32, index: u32)
    | DrawStruct(cmdbuf: u32, primitive: u32, vertexStart: u32, vertexCount: u32, reserved: u32)
    | DrawIndexedStruct(
        cmdbuf: u32, primitive: u32, indexCount: u32, indexType: u32, indexBuffer: u32, indexOffset: u32, reserved: u32)
    | DrawInstancedStruct(
        cmdbuf: u32, primitive: u32, vertexStart: u32, vertexCount: u32, instanceCount: u32, baseInstance: u32,
        reserved: u32)
    | Plain(opcode: nat, body: seq<byte>)

  /** The opcodes with a struct above. */
  predicate HasStruct(op: nat) {
    op in {0x0200, 0x0201, 0x0210, 0x0211, 0x0220, 0x0221, 0x0300, 0x0400, 0x0420, 0x0500, 0x0501, 0x0600, 0x0601,
           0x0611, 0x0620, 0x0621, 0x0640, 0x0641, 0x0642}
  }

  /** Arrays and names have the lengths of the structs, and a RENDER_BEGIN announces no more
      attachments than its array holds. */
  predicate Fits(s: Written) {
    match s
    case CreateShaderStruct(_, _, _, _, _, name) => |name| == 68
    case CreatePipelineStruct(_, _, _, descriptors) => |descriptors| == 1280
    case CreateDepthStencilStruct(_, _, faces) => |faces| == 52
    case RenderBeginStruct(_, count, colors, _, _, _, _, _, _) => |colors| == 8 && count <= 8
    case Plain(op, body) => op < 0x0B02 && !HasStruct(op) && |body| <= 65520
    case _ => true
  }

  // ---- layout ----

  /** 32-bit fields one after another. */
  function Fields(ws: seq<u32>): (s: seq<byte>)
    ensures |s| == 4 * |ws|
  {
    if ws == [] then [] else Fields(ws[..|ws| - 1]) + Bytes32(ws[|ws| - 1])
  }

  /** A 64-bit field is its low word, then its high word. */
  function Low(x: u64): u32 { x % TWO32 }

  function High(x: u64): u32 { x / TWO32 }

  function ColorFields(c: ColorAction): (ws: seq<u32>)
    ensures |ws| == 9
  {
    [c.texture, c.level, c.slice, c.load, c.store, c.red, c.green, c.blue, c.alpha]
  }

  function AllColors(cs: seq<ColorAction>): (ws: seq<u32>)
    ensures |ws| == 9 * |cs|
    ensures forall k :: 0 <= k < |cs| ==> ws[9 * k] == cs[k].texture
  {
    if cs == [] then [] else AllColors(cs[..|cs| - 1]) + ColorFields(cs[|cs| - 1])
  }

  function DepthFields(d: DepthAction): (ws: seq<u32>)
    ensures |ws| == 7
  {
    [d.texture, d.level, d.slice, d.load, d.store, d.clear, d.reserved]
  }

  function Opcode(s: Written): (op: nat)
    requires Fits(s)
    ensures op < 0x0B02
  {
    match s
    case CreateBufferStruct(_, _, _, _, _, _, _) => 0x0200
    case DestroyBufferStruct(_) => 0x0201
    case CreateTextureStruct(_, _, _, _, _, _, _, _, _, _, _, _, _, _) => 0x0210
    case DestroyTextureStruct(_) => 0x0211
    case CreateSamplerStruct(_, _, _, _, _, _, _, _, _, _, _, _) => 0x0220
    case DestroySamplerStruct(_) => 0x0221
    case CreateShaderStruct(_, _, _, _, _, _) => 0x0300
    case CreatePipelineStruct(_, _, _, _) => 0x0400
    case CreateDepthStencilStruct(_, _, _) => 0x0420
    case CmdbufCreateStruct(_) => 0x0500
    case CmdbufCommitStruct(_) => 0x0501
    case RenderBeginStruct(_, _, _, _, _, _, _, _, _) => 0x0600
    case RenderEndStruct(_) => 0x0601
    case ViewportStruct(_, _, _, _, _, _, _) => 0x0620
    case ScissorStruct(_, _, _, _, _) => 0x0621
    case VertexBufferStruct(_, _, _, _) => 0x0611
    case DrawStruct(_, _, _, _, _) => 0x0640
    case DrawIndexedStruct(_, _, _, _, _, _, _) => 0x0641
    case DrawInstancedStruct(_, _, _, _, _, _, _) => 0x0642
    case Plain(op, _) => op
  }

  /** The fields after the header, as far as they are words. */
  function Body(s: Written): seq<u32> {
    match s
    case CreateBufferStruct(h, size, mode, usage, offset, dataSize, reserved) =>
      [h, Low(size), High(size), mode, usage, Low(offset), High(offset), dataSize, reserved]
    case CreateTextureStruct(h, tt, format, x, y, z, mips, length, samples, mode, usage, offset, size, reserved) =>
      [h, tt, format, x, y, z, mips, length, samples, mode, usage, Low(offset), High(offset), size, reserved]
    case CreateSamplerStruct(h, min, mag, mip, s, t, r, lodMin, lodMax, aniso, compare, reserved) =>
      [h, min, mag, mip, s, t, r, lodMin, lodMax, aniso, compare, reserved]
    case CreateShaderStruct(h, shaderType, sourceType, offset, size, _) =>
      [h, shaderType, sourceType, Low(offset), High(offset), size]
    case CreatePipelineStruct(h, vertex, fragment, _) => [h, vertex, fragment]
    case CreateDepthStencilStruct(h, compare, _) => [h, compare]
    case RenderBeginStruct(cb, count, colors, depth, stencil, x, y, width, height) =>
      [cb, count] + AllColors(colors) + DepthFields(depth) + DepthFields(stencil) + [x, y, width, height]
    case ViewportStruct(cb, x, y, w, h, near, far) => [cb, x, y, w, h, near, far]
    case ScissorStruct(cb, x, y, w, h) => [cb, x, y, w, h]
    case VertexBufferStruct(cb, buffer, offset, index) => [cb, buffer, offset, index]
    case DrawStruct(cb, primitive, start, count, reserved) => [cb, primitive, start, count, reserved]
    case DrawIndexedStruct(cb, primitive, count, indexType, buffer, offset, reserved) =>
      [cb, primitive, count, indexType, buffer, offset, reserved]
    case DrawInstancedStruct(cb, primitive, start, count, instances, base, reserved) =>
      [cb, primitive, start, count, instances, base, reserved]
    case RenderEndStruct(cb) => [cb]
    case Plain(_, _) => []
    case _ => [s.handle]
  }

  /** The bytes after those. */
  function Tail(s: Written): seq<byte> {
    match s
    case CreateShaderStruct(_, _, _, _, _, name) => name
    case CreatePipelineStruct(_, _, _, descriptors) => descriptors
    case CreateDepthStencilStruct(_, _, faces) => faces
    case Plain(_, body) => body
    case _ => []
  }

  /** The frame the guest writes: the header with the struct's size, then the struct. */
  function Encode(s: Written, sequence: u32): (f: seq<byte>)
    requires Fits(s)
    ensures 16 <= |f| <= 65536
  {
    BodyLength(s);
    var size := 16 + 4 * |Body(s)| + |Tail(s)|;
    InitHeader(Opcode(s), size, sequence) + Fields(Body(s)) + Tail(s)
  }

  lemma BodyLength(s: Written)
    requires Fits(s)
    ensures |Body(s)| <= 92 && 4 * |Body(s)| + |Tail(s)| <= 65520
  {
  }

  // ---- meaning ----

  /** The command a struct asks for. */
  function Meaning(s: Written): (c: Command)
    requires Fits(s)
    ensures c.RenderBegin? ==> s.RenderBeginStruct? && |c.colors| == s.count <= MAX_COLOR_ATTACHMENTS
  {
    match s
    case CreateBufferStruct(h, _, mode, _, _, _, _) => CreateBuffer(h, mode)
    case CreateTextureStruct(h, _, format, _, _, _, _, _, _, _, _, _, _, _) => CreateTexture(h, FormatSupported(format))
    case CreateSamplerStruct(h, _, _, _, _, _, _, _, _, _, _, _) => CreateSampler(h)
    case CreateShaderStruct(h, _, _, _, _, _) => CreatePlaceholder(h, Shader)
    case CreatePipelineStruct(h, _, _, _) => CreatePlaceholder(h, RenderPipeline)
    case CreateDepthStencilStruct(h, _, _) => CreatePlaceholder(h, DepthStencil)
    case CmdbufCreateStruct(h) => CmdbufCreate(h)
    case CmdbufCommitStruct(h) => CmdbufCommit(h)
    case DestroyBufferStruct(h) => Destroy(h)
    case DestroyTextureStruct(h) => Destroy(h)
    case DestroySamplerStruct(h) => Destroy(h)
    case RenderBeginStruct(cb, count, colors, depth, _, _, _, _, _) =>
      RenderBegin(cb, seq(count, k requires 0 <= k < count => colors[k].texture), depth.texture)
    case RenderEndStruct(cb) => RenderEnd(cb)
    case ViewportStruct(cb, _, _, _, _, _, _) => RenderSetViewport(cb)
    case ScissorStruct(cb, _, _, _, _) => RenderSetScissor(cb)
    case VertexBufferStruct(cb, buffer, offset, index) => RenderSetVertexBuffer(cb, buffer, offset, index)
    case DrawStruct(cb, _, start, count, _) => RenderDraw(cb, count, start)
    case DrawIndexedStruct(cb, _, count, _, buffer, offset, _) => RenderDrawIndexed(cb, count, buffer, offset)
    case DrawInstancedStruct(cb, _, start, count, instances, base, _) =>
      RenderDrawInstanced(cb, count, instances, start, base)
    case Plain(_, _) => Other
  }

  // ---- reading back ----

  lemma {:induction false} FieldAt(ws: seq<u32>, k: nat)
    requires k < |ws|
    ensures Fields(ws)[4 * k..4 * k + 4] == Bytes32(ws[k])
  {
    var n := |ws| - 1;
    if k < n {
      FieldAt(ws[..n], k);
      assert Fields(ws)[4 * k..4 * k + 4] == Fields(ws[..n])[4 * k..4 * k + 4];
    }
  }

  /** The buffer that holds nothing but the frame reads back its opcode and its words. */
  lemma WordsRead(s: Written, sequence: u32, b: HostBuffer)
    requires Fits(s) && Encode(s, sequence) <= b
    ensures ReadHeader(b).opcode == Opcode(s)
    ensures forall k :: 0 <= k < |Body(s)| ==> Le32(b, 16 + 4 * k) == Body(s)[k]
  {
    hide Body, Tail, Opcode, Fits, Fields, ReadHeader, InitHeader, Le32;
    BodyLength(s);
    var ws, f := Body(s), Encode(s, sequence);
    var size: u32 := 16 + 4 * |ws| + |Tail(s)|;
    var header := InitHeader(Opcode(s), size, sequence);
    assert f == header + (Fields(ws) + Tail(s));
    HeaderRoundTrip(Opcode(s), size, sequence, Fields(ws) + Tail(s));
    HeaderOfPrefix(f, b);
    forall k | 0 <= k < |ws| ensures Le32(b, 16 + 4 * k) == ws[k] {
      FieldAt(ws, k);
      assert b[16 + 4 * k..20 + 4 * k] == f[16 + 4 * k..20 + 4 * k] == Fields(ws)[4 * k..4 * k + 4];
      Le32At(b, 16 + 4 * k, ws[k]);
    }
  }

  /** The attachment array of a RENDER_BEGIN. */
  lemma BeginRead(s: Written, b: HostBuffer)
    requires s.RenderBeginStruct? && Fits(s)
    requires forall k :: 0 <= k < |Body(s)| ==> Le32(b, 16 + 4 * k) == Body(s)[k]
    ensures Le32(b, 16) == s.cmdbuf && Le32(b, 20) == s.count && Le32(b, 312) == s.depthAction.texture
    ensures forall k :: 0 <= k < 8 ==> Le32(b, 24 + 36 * k) == s.colors[k].texture
  {
    hide Le32;
    var ws, cs := Body(s), AllColors(s.colors);
    assert ws[0] == s.cmdbuf && ws[1] == s.count && ws[74] == s.depthAction.texture;
    assert Le32(b, 16 + 4 * 0) == ws[0] && Le32(b, 16 + 4 * 1) == ws[1] && Le32(b, 16 + 4 * 74) == ws[74];
    forall k | 0 <= k < 8 ensures Le32(b, 24 + 36 * k) == s.colors[k].texture {
      assert ws[2 + 9 * k] == cs[9 * k];
      assert Le32(b, 16 + 4 * (2 + 9 * k)) == ws[2 + 9 * k];
    }
  }

  lemma BeginDecodes(s: Written, b: HostBuffer)
    requires s.RenderBeginStruct? && Fits(s) && ReadHeader(b).opcode == Opcode(s)
    requires forall k :: 0 <= k < |Body(s)| ==> Le32(b, 16 + 4 * k) == Body(s)[k]
    ensures Decode(b) == Meaning(s)
  {
    hide Le32, ReadHeader, Body, FormatSupported;
    BeginRead(s, b);
  }

  /** Whatever the buffer held before: a frame written as its struct decodes to what the
      struct asks for. */
  lemma EncodedDecodes(s: Written, sequence: u32, b: HostBuffer)
    requires Fits(s) && Encode(s, sequence) <= b
    ensures Decode(b) == Meaning(s)
  {
    hide Le32, ReadHeader, Encode, FormatSupported, Fields;
    WordsRead(s, sequence, b);
    if s.RenderBeginStruct? {
      BeginDecodes(s, b);
    } else {
      PlainDecodes(s, b);
    }
  }

  lemma PlainDecodes(s: Written, b: HostBuffer)
    requires !s.RenderBeginStruct? && Fits(s) && ReadHeader(b).opcode == Opcode(s)
    requires forall k :: 0 <= k < |Body(s)| ==> Le32(b, 16 + 4 * k) == Body(s)[k]
    ensures Decode(b) == Meaning(s)
  {
    hide Le32, ReadHeader, FormatSupported;
    var ws := Body(s);
    assert |ws| > 0 ==> Le32(b, 16 + 4 * 0) == ws[0];
    assert |ws| > 1 ==> Le32(b, 16 + 4 * 1) == ws[1];
    assert |ws| > 2 ==> Le32(b, 16 + 4 * 2) == ws[2];
    assert |ws| > 3 ==> Le32(b, 16 + 4 * 3) == ws[3];
    assert |ws| > 4 ==> Le32(b, 16 + 4 * 4) == ws[4];
    assert |ws| > 5 ==> Le32(b, 16 + 4 * 5) == ws[5];
  }

  /** Such a frame is a well-formed command. */
  lemma EncodedIsWellFormed(s: Written, sequence: u32)
    requires Fits(s)
    ensures WellFormedCommand(Encode(s, sequence))
  {
    hide Body, Tail, Opcode, Fits, ReadHeader, InitHeader;
    BodyLength(s);
    var size: u32 := 16 + 4 * |Body(s)| + |Tail(s)|;
    var header := InitHeader(Opcode(s), size, sequence);
    assert Encode(s, sequence) == header + (Fields(Body(s)) + Tail(s));
    HeaderRoundTrip(Opcode(s), size, sequence, Fields(Body(s)) + Tail(s));
  }
}
