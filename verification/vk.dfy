/** The slice of the Vulkan 1.3 API the bootstrap's decision logic touches:
    fixed-width integers, the enumerant codes it compares against, and the
    plain records the driver hands back. Enumerations are open on the wire
    (a driver may report codes this model does not name), so they are kept
    as their integer codes rather than closed datatypes. */
module Vk {

  /** Rust's `u32`. */
  type U32 = x: int | 0 <= x < 0x1_0000_0000

  /** `u32::MAX`, also the "the swapchain decides" sentinel of
      `VkSurfaceCapabilitiesKHR::currentExtent`. */
  const U32_MAX: U32 := 0xFFFF_FFFF

  /** The integer type behind every `Vk*` enumeration (`VkFormat`,
      `VkColorSpaceKHR`, `VkPresentModeKHR`, ...). */
  type I32 = x: int | -0x8000_0000 <= x < 0x8000_0000

  /** `VkBool32`. */
  const FALSE: U32 := 0
  const TRUE: U32 := 1

  /** `VkFormat` codes. */
  type Format = I32
  const FORMAT_B8G8R8_UNORM: Format := 30

  /** `VkColorSpaceKHR` codes. */
  type ColorSpace = I32
  const COLOR_SPACE_SRGB_NONLINEAR: ColorSpace := 0

  /** `VkPresentModeKHR` codes. */
  type PresentMode = I32
  const PRESENT_MODE_MAILBOX: PresentMode := 1
  const PRESENT_MODE_FIFO: PresentMode := 2

  /** `VkQueueFlagBits`. */
  const QUEUE_GRAPHICS_BIT: bv32 := 0x1

  /** `VkDebugUtilsMessageSeverityFlagBitsEXT`. */
  const SEVERITY_VERBOSE: bv32 := 0x1
  const SEVERITY_INFO: bv32 := 0x10
  const SEVERITY_WARNING: bv32 := 0x100
  const SEVERITY_ERROR: bv32 := 0x1000

  /** `VkImageUsageFlagBits::COLOR_ATTACHMENT`. */
  const IMAGE_USAGE_COLOR_ATTACHMENT: bv32 := 0x10

  /** `VkSharingMode`, reduced to the one mode the bootstrap uses. */
  datatype SharingMode = Exclusive

  /** `VkCompositeAlphaFlagBitsKHR::OPAQUE`. */
  const COMPOSITE_ALPHA_OPAQUE: bv32 := 0x1

  /** `VkImageViewType`. */
  datatype ImageViewType = Type1D | Type2D | Type3D | Cube | Type1DArray | Type2DArray | CubeArray

  /** `VkComponentSwizzle`. */
  datatype ComponentSwizzle = Identity | Zero | One | R | G | B | A

  /** `VkImageAspectFlagBits::COLOR`. */
  const IMAGE_ASPECT_COLOR: bv32 := 0x1

  /** `VkSurfaceTransformFlagBitsKHR`, carried through untouched. */
  type SurfaceTransform = bv32

  /** A non-success `VkResult` code returned by a driver query. */
  type ErrorCode = I32

  /** Opaque dispatchable and non-dispatchable handles. */
  type Handle = nat

  /** `VkExtent2D`. */
  datatype Extent2D = Extent2D(width: U32, height: U32)

  /** `VkQueueFamilyProperties`, reduced to the two fields the scan reads. */
  datatype QueueFamilyProperties = QueueFamilyProperties(queueFlags: bv32, queueCount: U32)

  /** `VkSurfaceFormatKHR`. */
  datatype SurfaceFormat = SurfaceFormat(format: Format, colorSpace: ColorSpace)

  /** `VkSurfaceCapabilitiesKHR`, minus `maxImageArrayLayers`,
      `supportedTransforms`, `supportedCompositeAlpha` and
      `supportedUsageFlags`, which the bootstrap never reads. */
  datatype SurfaceCapabilities = SurfaceCapabilities(
    minImageCount: U32,
    maxImageCount: U32,
    currentExtent: Extent2D,
    minImageExtent: Extent2D,
    maxImageExtent: Extent2D,
    currentTransform: SurfaceTransform)
}
