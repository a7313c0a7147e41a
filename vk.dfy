/** The slice of the Vulkan vocabulary the engine's own logic decides on:
    formats, image layouts, sample counts and the flag bits it tests or sets.
    Handles and driver calls stay outside the model. */
module Vk {

  /** Numeric interpretation of a colour format's channels. */
  datatype NumericKind = Sfloat | Sint | Uint | Unorm | Srgb

  /** `vk::Format`. Plain colour formats with equal channels are described by
      kind, bits per channel and channel count (`eR32G32Sfloat` is
      `Channels(Sfloat, 32, 2)`); the packed and depth formats the engine
      names are listed; `Other` stands for every remaining format. */
  datatype Format =
    | Undefined
    | Channels(kind: NumericKind, bits: nat, count: nat)
    | B8G8R8A8Unorm
    | B8G8R8A8Srgb
    | A2B10G10R10UnormPack32
    | D32Sfloat
    | D32SfloatS8Uint
    | D24UnormS8Uint
    | Other(code: nat)

  const R8G8B8A8Unorm: Format := Channels(Unorm, 8, 4)

  /** `vk::ImageLayout`. */
  datatype ImageLayout =
    | LayoutUndefined
    | General
    | ColorAttachmentOptimal
    | DepthStencilAttachmentOptimal
    | DepthStencilReadOnlyOptimal
    | ShaderReadOnlyOptimal
    | TransferSrcOptimal
    | TransferDstOptimal
    | Preinitialized
    | DepthReadOnlyOptimal
    | PresentSrc

  type Flags = bv32

  // vk::AccessFlagBits
  const ACCESS_NONE: Flags := 0
  const ACCESS_SHADER_READ: Flags := 0x20
  const ACCESS_COLOR_ATTACHMENT_READ: Flags := 0x80
  const ACCESS_COLOR_ATTACHMENT_WRITE: Flags := 0x100
  const ACCESS_DEPTH_STENCIL_ATTACHMENT_READ: Flags := 0x200
  const ACCESS_DEPTH_STENCIL_ATTACHMENT_WRITE: Flags := 0x400
  const ACCESS_TRANSFER_READ: Flags := 0x800
  const ACCESS_TRANSFER_WRITE: Flags := 0x1000
  const ACCESS_MEMORY_READ: Flags := 0x8000
  const ACCESS_MEMORY_WRITE: Flags := 0x10000

  // vk::PipelineStageFlagBits
  const STAGE_TOP_OF_PIPE: Flags := 0x1
  const STAGE_FRAGMENT_SHADER: Flags := 0x80
  const STAGE_EARLY_FRAGMENT_TESTS: Flags := 0x100
  const STAGE_COLOR_ATTACHMENT_OUTPUT: Flags := 0x400
  const STAGE_TRANSFER: Flags := 0x1000
  const STAGE_ALL_COMMANDS: Flags := 0x10000

  // vk::ImageAspectFlagBits
  const ASPECT_COLOR: Flags := 0x1
  const ASPECT_DEPTH: Flags := 0x2
  const ASPECT_STENCIL: Flags := 0x4

  // vk::ImageUsageFlagBits
  const USAGE_TRANSFER_SRC: Flags := 0x1
  const USAGE_TRANSFER_DST: Flags := 0x2
  const USAGE_SAMPLED: Flags := 0x4
  const USAGE_STORAGE: Flags := 0x8
  const USAGE_COLOR_ATTACHMENT: Flags := 0x10
  const USAGE_DEPTH_STENCIL_ATTACHMENT: Flags := 0x20

  // vk::ImageCreateFlagBits
  const CREATE_CUBE_COMPATIBLE: Flags := 0x10

  // vk::QueueFlagBits
  const QUEUE_GRAPHICS: Flags := 0x1
  const QUEUE_COMPUTE: Flags := 0x2
  const QUEUE_TRANSFER: Flags := 0x4

  // vk::MemoryPropertyFlagBits
  const MEMORY_DEVICE_LOCAL: Flags := 0x1
  const MEMORY_HOST_VISIBLE: Flags := 0x2

  /** `vk::SampleCountFlagBits::e1`. */
  const SAMPLES_1: nat := 1

  /** `vk::Result`, as far as the engine tells the values apart. */
  datatype VkResult = Success | NotReady | Timeout | SuboptimalKHR | ErrorOutOfDateKHR | OtherResult(code: int)

  /** A `Math::Vector3<u32>` / `vk::Extent3D`. */
  datatype Extent3 = Extent3(width: nat, height: nat, depth: nat)

  /** A `vk::Extent2D`. */
  datatype Extent2 = Extent2(width: nat, height: nat)
}
