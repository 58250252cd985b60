/** The Vulkan objects the host creates, what a tracker entry stores about them, and the
    calls recorded on command buffers. Vulkan itself is an oracle: whether a call succeeds
    is an input. */
module Vulkan {
  datatype ObjectKind =
    VkBuffer | VkMemory | VkImage | VkImageView | VkSampler | VkCommandBuffer | VkFence

  datatype Object = Object(kind: ObjectKind, id: nat)

  datatype ImageLayout = Undefined | ColorAttachmentOptimal

  datatype Attachment = NoView | View(view: Object)

  /** The union inside gravity_resource_entry_t; NoPayload is the zeroed entry and the
      resources that own no Vulkan object (placeholders and depth/stencil parameters). */
  datatype Payload =
    | NoPayload
    | BufferPayload(buffer: Object, memory: Object, mapped: bool)
    | TexturePayload(image: Object, view: Object, imageMemory: Object, layout: ImageLayout)
    | SamplerPayload(sampler: Object)
    | CmdBufPayload(cmdBuf: Object, fence: Object, recording: bool, inRenderPass: bool)

  function Owned(p: Payload): set<Object> {
    match p
    case NoPayload => {}
    case BufferPayload(b, m, _) => {b, m}
    case TexturePayload(i, v, m, _) => {i, v, m}
    case SamplerPayload(s) => {s}
    case CmdBufPayload(c, f, _, _) => {c, f}
  }

  datatype Call =
    | BeginCommandBuffer(cb: Object)
    | EndCommandBuffer(cb: Object)
    | QueueSubmit(cb: Object, fence: Object)
    | WaitForFences(cb: Object, fence: Object)
    | ResetFences(cb: Object, fence: Object)
    | ResetCommandBuffer(cb: Object)
    | PipelineBarrier(cb: Object, image: Object, oldLayout: ImageLayout, newLayout: ImageLayout)
    | BeginRendering(cb: Object, colors: seq<Attachment>, depth: Attachment)
    | EndRendering(cb: Object)
    | SetViewport(cb: Object)
    | SetScissor(cb: Object)
    | BindVertexBuffer(cb: Object, index: nat, buffer: Object, offset: nat)
    | BindIndexBuffer(cb: Object, buffer: Object, offset: nat)
    | Draw(cb: Object, vertices: nat, instances: nat, firstVertex: nat, firstInstance: nat)
    | DrawIndexed(cb: Object, indices: nat)
}
