/** The fields process_command and the handlers read from a command: the packed structs of
    gravity_protocol.h, as byte offsets into the host's command buffer. */
module Decoding {
  import opened Words
  import opened Protocol
  import opened Tracker
  import opened Processor

  const CMD_CREATE_BUFFER: nat := 0x0200
  const CMD_DESTROY_BUFFER: nat := 0x0201
  const CMD_CREATE_TEXTURE: nat := 0x0210
  const CMD_DESTROY_TEXTURE: nat := 0x0211
  const CMD_CREATE_SAMPLER: nat := 0x0220
  const CMD_DESTROY_SAMPLER: nat := 0x0221
  const CMD_CREATE_SHADER: nat := 0x0300
  const CMD_CREATE_RENDER_PIPELINE: nat := 0x0400
  const CMD_CREATE_DEPTH_STENCIL: nat := 0x0420
  const CMD_CMDBUF_CREATE: nat := 0x0500
  const CMD_RENDER_BEGIN: nat := 0x0600
  const CMD_RENDER_END: nat := 0x0601
  const CMD_RENDER_SET_VERTEX_BUFFER: nat := 0x0611
  const CMD_RENDER_SET_VIEWPORT: nat := 0x0620
  const CMD_RENDER_SET_SCISSOR: nat := 0x0621
  const CMD_RENDER_DRAW: nat := 0x0640
  const CMD_RENDER_DRAW_INDEXED: nat := 0x0641
  const CMD_RENDER_DRAW_INSTANCED: nat := 0x0642

  /** cmd_buf of command_loop. A frame shorter than its struct is read together with what
      earlier commands left behind it. */
  type HostBuffer = b: seq<byte> | |b| == HOST_BUFFER witness seq(HOST_BUFFER, _ => 0)

  /** The pixel formats with an entry in the format table. */
  predicate FormatSupported(f: u32) {
    f in {1, 10, 12, 13, 23, 25, 30, 32, 53, 55, 63, 65, 70, 71, 72, 73, 80, 81, 90, 105, 107, 113, 115, 123, 125,
          250, 252, 253, 255, 260}
  }

  /** The enumerators of gravity_pixel_format. */
  const PIXEL_FORMATS: set<u32> := {
    0, 1, 10, 12, 13, 23, 25, 30, 32, 53, 55, 63, 65, 70, 71, 72, 73, 80, 81, 90, 105, 107, 113, 115, 123, 125,
    250, 252, 253, 255, 260}

  /** The format table covers every enumerator but INVALID, and no other number. */
  lemma FormatsAreTheEnumerators(f: u32)
    ensures FormatSupported(f) <==> f in PIXEL_FORMATS && f != 0
  {
  }

  const ATTACHMENTS: nat := 24            // color_attachments
  const ATTACHMENT_SIZE: nat := 36
  const DEPTH_TEXTURE: nat := 312         // depth_attachment.texture

  /** The texture of attachment `k`; beyond the buffer the C code reads other memory. */
  function ColorTexture(b: HostBuffer, k: nat): u32 {
    var at := ATTACHMENTS + ATTACHMENT_SIZE * k;
    if at + 4 <= HOST_BUFFER then Le32(b, at) else 0
  }

  /** The command in the buffer, as its opcode selects handler and struct. */
  function Decode(b: HostBuffer): Command {
    var op, handle := ReadHeader(b).opcode, Le32(b, 16);
    if op == CMD_CREATE_BUFFER then CreateBuffer(handle, Le32(b, 28))
    else if op == CMD_CREATE_TEXTURE then CreateTexture(handle, FormatSupported(Le32(b, 24)))
    else if op == CMD_CREATE_SAMPLER then CreateSampler(handle)
    else if op in {CMD_DESTROY_BUFFER, CMD_DESTROY_TEXTURE, CMD_DESTROY_SAMPLER} then Destroy(handle)
    else if op == CMD_CREATE_SHADER then CreatePlaceholder(handle, Shader)
    else if op == CMD_CREATE_RENDER_PIPELINE then CreatePlaceholder(handle, RenderPipeline)
    else if op == CMD_CREATE_DEPTH_STENCIL then CreatePlaceholder(handle, DepthStencil)
    else if op == CMD_CMDBUF_CREATE then CmdbufCreate(handle)
    else if op == CMD_CMDBUF_COMMIT then CmdbufCommit(handle)
    else DecodeRender(op, handle, b)
  }

  function DecodeRender(op: nat, cmdbuf: u32, b: HostBuffer): Command {
    if op == CMD_RENDER_BEGIN then
      RenderBegin(cmdbuf, seq(Le32(b, 20), k requires 0 <= k => ColorTexture(b, k)), Le32(b, DEPTH_TEXTURE))
    else if op == CMD_RENDER_END then RenderEnd(cmdbuf)
    else if op == CMD_RENDER_SET_VIEWPORT then RenderSetViewport(cmdbuf)
    else if op == CMD_RENDER_SET_SCISSOR then RenderSetScissor(cmdbuf)
    else if op == CMD_RENDER_SET_VERTEX_BUFFER then RenderSetVertexBuffer(cmdbuf, Le32(b, 20), Le32(b, 24), Le32(b, 28))
    else if op == CMD_RENDER_DRAW then RenderDraw(cmdbuf, Le32(b, 28), Le32(b, 24))
    else if op == CMD_RENDER_DRAW_INDEXED then RenderDrawIndexed(cmdbuf, Le32(b, 24), Le32(b, 32), Le32(b, 36))
    else if op == CMD_RENDER_DRAW_INSTANCED then
      RenderDrawInstanced(cmdbuf, Le32(b, 28), Le32(b, 32), Le32(b, 24), Le32(b, 36))
    else Other
  }

  /** The bytes the decoding of a frame reaches; a RENDER_BEGIN announces its attachments. */
  function Extent(f: seq<byte>): nat
    requires |f| >= HEADER_SIZE
  {
    var op := ReadHeader(f).opcode;
    if op == CMD_RENDER_BEGIN then
      if |f| < ATTACHMENTS then DEPTH_TEXTURE + 4
      else Max(DEPTH_TEXTURE + 4, ATTACHMENTS + ATTACHMENT_SIZE * Le32(f, 20))
    else if op in {CMD_RENDER_DRAW_INDEXED, CMD_RENDER_DRAW_INSTANCED} then 40
    else if op in {CMD_CREATE_BUFFER, CMD_RENDER_SET_VERTEX_BUFFER, CMD_RENDER_DRAW} then 32
    else if op == CMD_CREATE_TEXTURE then 28
    else if op in {CMD_CREATE_SAMPLER, CMD_DESTROY_BUFFER, CMD_DESTROY_TEXTURE, CMD_DESTROY_SAMPLER, CMD_CREATE_SHADER,
                   CMD_CREATE_RENDER_PIPELINE, CMD_CREATE_DEPTH_STENCIL, CMD_CMDBUF_CREATE, CMD_CMDBUF_COMMIT,
                   CMD_RENDER_END, CMD_RENDER_SET_VIEWPORT, CMD_RENDER_SET_SCISSOR} then 20
    else HEADER_SIZE
  }

  function Max(a: nat, b: nat): nat { if a < b then b else a }

  /** A frame that carries all the fields of its command. */
  predicate FullFrame(f: seq<byte>) {
    HEADER_SIZE <= |f| <= HOST_BUFFER && |f| >= Extent(f)
  }

  /** The command of a frame by itself. */
  function DecodeFrame(f: seq<byte>): Command
    requires |f| <= HOST_BUFFER
  {
    Decode(f + seq(HOST_BUFFER - |f|, _ => 0))
  }

  /** A full frame determines its command: what earlier commands left behind it in the buffer
      plays no part. */
  lemma FrameDeterminesCommand(f: seq<byte>, b: HostBuffer)
    requires FullFrame(f) && f <= b
    ensures Decode(b) == DecodeFrame(f)
  {
    hide Decode, Extent;
    var a: HostBuffer := f + seq(HOST_BUFFER - |f|, _ => 0);
    HeaderOfPrefix(f, a);
    HeaderOfPrefix(f, b);
    assert forall k :: 0 <= k < |f| ==> a[k] == f[k] == b[k];
    CommonFront(a, b, f);
  }

  lemma CommonFront(a: HostBuffer, b: HostBuffer, f: seq<byte>)
    requires FullFrame(f) && (forall k :: 0 <= k < |f| ==> a[k] == f[k] == b[k])
    requires ReadHeader(a) == ReadHeader(f) == ReadHeader(b)
    ensures Decode(a) == Decode(b)
  {
    hide ReadHeader, FormatSupported;
    if ReadHeader(a).opcode == CMD_RENDER_BEGIN {
      assert forall k :: 0 <= k < Le32(a, 20) ==> ColorTexture(a, k) == ColorTexture(b, k);
    }
  }

  /** Only the commit opcode decodes to a commit, of the handle in bytes 16 to 19. */
  lemma DecodesToCommit(b: HostBuffer)
    ensures Decode(b).CmdbufCommit? <==> ReadHeader(b).opcode == CMD_CMDBUF_COMMIT
    ensures Decode(b).CmdbufCommit? ==> Decode(b).handle == Le32(b, 16)
  {
    hide Le32, ReadHeader, FormatSupported, ColorTexture;
  }
}
