/** The negotiation in `src/app/swapchain.rs`: the support snapshot, the
    surface-format, present-mode, extent and image-count choices, the
    create-info they are assembled into, and one image-view descriptor per
    swap-chain image. The driver's answers (the three support queries,
    `create_swapchain` and `get_swapchain_images`) are inputs. */
module Swapchain {
  import opened Wrappers
  import opened Vk

  /** `SwapchainSupportDetails`. */
  datatype SupportDetails = SupportDetails(
    caps: SurfaceCapabilities,
    formats: seq<SurfaceFormat>,
    presentModes: seq<PresentMode>)

  /** `SwapchainSupportDetails::new`: the capability, format and present-mode
      queries, in that order; the first one to fail is the error. */
  function QuerySupportDetails(caps: Result<SurfaceCapabilities, ErrorCode>,
                               formats: Result<seq<SurfaceFormat>, ErrorCode>,
                               modes: Result<seq<PresentMode>, ErrorCode>): (r: Result<SupportDetails, ErrorCode>)
    ensures r.Success? <==> caps.Success? && formats.Success? && modes.Success?
    ensures r.Success? ==> r.value == SupportDetails(caps.value, formats.value, modes.value)
    ensures caps.Failure? ==> r == Failure(caps.error)
    ensures caps.Success? && formats.Failure? ==> r == Failure(formats.error)
    ensures caps.Success? && formats.Success? && modes.Failure? ==> r == Failure(modes.error)
  {
    var c :- caps;
    var f :- formats;
    var m :- modes;
    Success(SupportDetails(c, f, m))
  }

  /** The `for` loop of `choose_surface_format` from position `i` on: the
      preferred format if it occurs from there, else the fallback
      `formats[0]`. */
  function ScanFormats(formats: seq<SurfaceFormat>, preferred: SurfaceFormat, i: nat): (r: SurfaceFormat)
    requires 0 < |formats| && i <= |formats|
    ensures preferred in formats[i..] ==> r == preferred
    ensures preferred !in formats[i..] ==> r == formats[0]
    decreases |formats| - i
  {
    if i == |formats| then formats[0]
    else if formats[i] == preferred then formats[i]
    else
      assert formats[i..] == [formats[i]] + formats[i + 1..];
      ScanFormats(formats, preferred, i + 1)
  }

  /** `choose_surface_format`: the preferred format when the surface lists
      it, otherwise the first listed format; always a listed format. The
      list must be non-empty (`formats[0]` panics otherwise). */
  function ChooseSurfaceFormat(details: SupportDetails, preferred: SurfaceFormat): (r: SurfaceFormat)
    requires 0 < |details.formats|
    ensures preferred in details.formats ==> r == preferred
    ensures preferred !in details.formats ==> r == details.formats[0]
    ensures r in details.formats
  {
    assert details.formats[0..] == details.formats;
    ScanFormats(details.formats, preferred, 0)
  }

  /** The `for` loop of `choose_present_mode` from position `i` on. */
  function ScanPresentModes(modes: seq<PresentMode>, preferred: PresentMode, i: nat): (r: PresentMode)
    requires i <= |modes|
    ensures preferred in modes[i..] ==> r == preferred
    ensures preferred !in modes[i..] ==> r == PRESENT_MODE_FIFO
    decreases |modes| - i
  {
    if i == |modes| then PRESENT_MODE_FIFO
    else if modes[i] == preferred then modes[i]
    else
      assert modes[i..] == [modes[i]] + modes[i + 1..];
      ScanPresentModes(modes, preferred, i + 1)
  }

  /** `choose_present_mode`: the preferred mode when listed, otherwise FIFO,
      the one mode every surface must support by the Vulkan 1.3
      specification (chapter "Window System Integration", `VkPresentModeKHR`)
      — returned even if the list omits it. */
  function ChoosePresentMode(details: SupportDetails, preferred: PresentMode): (r: PresentMode)
    ensures preferred in details.presentModes ==> r == preferred
    ensures preferred !in details.presentModes ==> r == PRESENT_MODE_FIFO
    ensures r in details.presentModes || r == PRESENT_MODE_FIFO
  {
    assert details.presentModes[0..] == details.presentModes;
    ScanPresentModes(details.presentModes, preferred, 0)
  }

  /** On a surface that lists FIFO, as the Vulkan specification requires,
      the chosen mode is always one the surface supports. */
  lemma ChosenPresentModeSupported(details: SupportDetails, preferred: PresentMode)
    requires PRESENT_MODE_FIFO in details.presentModes
    ensures ChoosePresentMode(details, preferred) in details.presentModes
  {
  }

  /** `u32::clamp`, which panics unless `lo <= hi`: the point of `[lo, hi]`
      nearest to `x`. */
  function Clamp(x: U32, lo: U32, hi: U32): (r: U32)
    requires lo <= hi
    ensures lo <= r <= hi
    ensures lo <= x <= hi ==> r == x
    ensures x < lo ==> r == lo
    ensures hi < x ==> r == hi
  {
    if x < lo then lo else if x > hi then hi else x
  }

  /** The clamped value is the closest admissible value to the request. */
  lemma ClampIsNearest(x: U32, lo: U32, hi: U32, y: U32)
    requires lo <= hi && lo <= y <= hi
    ensures Distance(Clamp(x, lo, hi), x) <= Distance(y, x)
  {
  }

  function Distance(a: int, b: int): nat {
    if a < b then b - a else a - b
  }

  /** `currentExtent.width == u32::MAX`: the surface lets the swap chain
      choose its size (Vulkan 1.3, `VkSurfaceCapabilitiesKHR`). Only the
      width is tested. */
  predicate ExtentIsCallerDefined(caps: SurfaceCapabilities) {
    caps.currentExtent.width == U32_MAX
  }

  /** What `choose_extent` needs not to panic: ordered bounds whenever it
      clamps. */
  predicate ExtentClampable(caps: SurfaceCapabilities) {
    ExtentIsCallerDefined(caps) ==>
      caps.minImageExtent.width <= caps.maxImageExtent.width
      && caps.minImageExtent.height <= caps.maxImageExtent.height
  }

  /** `requested` lies within the surface's image-extent bounds. */
  predicate WithinBounds(caps: SurfaceCapabilities, e: Extent2D) {
    && caps.minImageExtent.width <= e.width <= caps.maxImageExtent.width
    && caps.minImageExtent.height <= e.height <= caps.maxImageExtent.height
  }

  /** `choose_extent`: the surface's current extent verbatim unless its width
      is the sentinel; then the requested width and height, each clamped
      into the surface's bounds on its own. */
  function ChooseExtent(caps: SurfaceCapabilities, width: U32, height: U32): (r: Extent2D)
    requires ExtentClampable(caps)
    ensures !ExtentIsCallerDefined(caps) ==> r == caps.currentExtent
    ensures ExtentIsCallerDefined(caps) ==> WithinBounds(caps, r)
    ensures ExtentIsCallerDefined(caps) && WithinBounds(caps, Extent2D(width, height)) ==>
              r == Extent2D(width, height)
    ensures ExtentIsCallerDefined(caps) ==>
              r.width == Clamp(width, caps.minImageExtent.width, caps.maxImageExtent.width)
              && r.height == Clamp(height, caps.minImageExtent.height, caps.maxImageExtent.height)
  {
    if caps.currentExtent.width != U32_MAX then caps.currentExtent
    else Extent2D(
      Clamp(width, caps.minImageExtent.width, caps.maxImageExtent.width),
      Clamp(height, caps.minImageExtent.height, caps.maxImageExtent.height))
  }

  /** Choosing again with the chosen extent as the request changes nothing. */
  lemma ChooseExtentIdempotent(caps: SurfaceCapabilities, width: U32, height: U32)
    requires ExtentClampable(caps)
    ensures var e := ChooseExtent(caps, width, height);
            ChooseExtent(caps, e.width, e.height) == e
  {
  }

  /** `optimal_min_image_count`: one image more than the surface's minimum.
      The `u32` addition overflows (a panic in debug builds) at the maximum. */
  function OptimalMinImageCount(caps: SurfaceCapabilities): (r: U32)
    requires caps.minImageCount < U32_MAX
    ensures caps.minImageCount < r
    ensures r - 1 == caps.minImageCount
  {
    caps.minImageCount + 1
  }

  /** The image count is not capped by `maxImageCount` (0 there means "no
      limit"): a surface allowing exactly its minimum of 2 images is asked
      for 3. */
  lemma ImageCountMayExceedMaximum()
    ensures var caps := SurfaceCapabilities(2, 2, Extent2D(800, 600), Extent2D(1, 1), Extent2D(4096, 4096), 0x1);
            caps.maxImageCount != 0 && OptimalMinImageCount(caps) > caps.maxImageCount
  {
  }

  /** The format `Swapchain::new` asks for. */
  const PREFERRED_FORMAT := SurfaceFormat(FORMAT_B8G8R8_UNORM, COLOR_SPACE_SRGB_NONLINEAR)

  /** The present mode `Swapchain::new` asks for. */
  const PREFERRED_PRESENT_MODE := PRESENT_MODE_MAILBOX

  /** `VkSwapchainCreateInfoKHR` as `Swapchain::new` fills it (the fields left
      at their defaults are not modelled). */
  datatype SwapchainCreateInfo = SwapchainCreateInfo(
    surface: Handle,
    minImageCount: U32,
    imageFormat: Format,
    imageColorSpace: ColorSpace,
    imageExtent: Extent2D,
    imageArrayLayers: U32,
    imageUsage: bv32,
    imageSharingMode: SharingMode,
    preTransform: SurfaceTransform,
    compositeAlpha: bv32,
    presentMode: PresentMode,
    clipped: U32)

  /** What the negotiation needs from the snapshot not to panic. */
  predicate Negotiable(details: SupportDetails) {
    && 0 < |details.formats|
    && ExtentClampable(details.caps)
    && details.caps.minImageCount < U32_MAX
  }

  /** The create-info assembled in `Swapchain::new` for the window size
      `requested`. */
  function CreateInfo(surface: Handle, details: SupportDetails, requested: Extent2D): (info: SwapchainCreateInfo)
    requires Negotiable(details)
    ensures info.surface == surface
    ensures SurfaceFormat(info.imageFormat, info.imageColorSpace) in details.formats
    ensures PREFERRED_FORMAT in details.formats ==>
              info.imageFormat == FORMAT_B8G8R8_UNORM && info.imageColorSpace == COLOR_SPACE_SRGB_NONLINEAR
    ensures PREFERRED_FORMAT !in details.formats ==>
              SurfaceFormat(info.imageFormat, info.imageColorSpace) == details.formats[0]
    ensures PREFERRED_PRESENT_MODE in details.presentModes ==> info.presentMode == PRESENT_MODE_MAILBOX
    ensures PREFERRED_PRESENT_MODE !in details.presentModes ==> info.presentMode == PRESENT_MODE_FIFO
    ensures !ExtentIsCallerDefined(details.caps) ==> info.imageExtent == details.caps.currentExtent
    ensures ExtentIsCallerDefined(details.caps) ==> WithinBounds(details.caps, info.imageExtent)
    ensures info.imageExtent == ChooseExtent(details.caps, requested.width, requested.height)
    ensures info.minImageCount == details.caps.minImageCount + 1
    ensures info.imageArrayLayers == 1
    ensures info.imageUsage == IMAGE_USAGE_COLOR_ATTACHMENT
    ensures info.imageSharingMode == Exclusive
    ensures info.preTransform == details.caps.currentTransform
    ensures info.compositeAlpha == COMPOSITE_ALPHA_OPAQUE
    ensures info.clipped == TRUE
  {
    var format := ChooseSurfaceFormat(details, PREFERRED_FORMAT);
    var presentMode := ChoosePresentMode(details, PREFERRED_PRESENT_MODE);
    var extent := ChooseExtent(details.caps, requested.width, requested.height);
    SwapchainCreateInfo(
      surface,
      OptimalMinImageCount(details.caps),
      format.format,
      format.colorSpace,
      extent,
      1,
      IMAGE_USAGE_COLOR_ATTACHMENT,
      Exclusive,
      details.caps.currentTransform,
      COMPOSITE_ALPHA_OPAQUE,
      presentMode,
      TRUE)
  }

  /** A surface listing formats `{A, preferred}`, only FIFO, and a fixed
      800x600 extent gets the preferred format, FIFO and 800x600, whatever
      size was requested. */
  lemma NegotiationScenario(surface: Handle, other: SurfaceFormat, requested: Extent2D)
    ensures var caps := SurfaceCapabilities(2, 8, Extent2D(800, 600), Extent2D(1, 1), Extent2D(4096, 4096), 0x1);
            var details := SupportDetails(caps, [other, PREFERRED_FORMAT], [PRESENT_MODE_FIFO]);
            var info := CreateInfo(surface, details, requested);
            && SurfaceFormat(info.imageFormat, info.imageColorSpace) == PREFERRED_FORMAT
            && info.presentMode == PRESENT_MODE_FIFO
            && info.imageExtent == Extent2D(800, 600)
  {
  }

  /** `VkComponentMapping`. */
  datatype ComponentMapping = ComponentMapping(r: ComponentSwizzle, g: ComponentSwizzle, b: ComponentSwizzle, a: ComponentSwizzle)

  /** `VkImageSubresourceRange`. */
  datatype SubresourceRange = SubresourceRange(
    aspectMask: bv32, baseMipLevel: U32, levelCount: U32, baseArrayLayer: U32, layerCount: U32)

  /** `VkImageViewCreateInfo`, standing for the view the driver creates
      from it. */
  datatype ImageViewCreateInfo = ImageViewCreateInfo(
    image: Handle,
    viewType: ImageViewType,
    format: Format,
    components: ComponentMapping,
    subresourceRange: SubresourceRange)

  /** A plain colour view of the whole single-level, single-layer image, in
      `format`. */
  predicate IsColorView(view: ImageViewCreateInfo, format: Format) {
    && view.viewType == Type2D
    && view.format == format
    && view.components == ComponentMapping(Identity, Identity, Identity, Identity)
    && view.subresourceRange.aspectMask == IMAGE_ASPECT_COLOR
    && view.subresourceRange.baseMipLevel == 0 && view.subresourceRange.levelCount == 1
    && view.subresourceRange.baseArrayLayer == 0 && view.subresourceRange.layerCount == 1
  }

  /** The closure of `create_image_views`, for one image. */
  function ViewInfo(image: Handle, format: Format): ImageViewCreateInfo {
    ImageViewCreateInfo(
      image, Type2D, format,
      ComponentMapping(Identity, Identity, Identity, Identity),
      SubresourceRange(IMAGE_ASPECT_COLOR, 0, 1, 0, 1))
  }

  /** `create_image_views`: one colour view per image, in image order. */
  function CreateImageViews(images: seq<Handle>, format: Format): (views: seq<ImageViewCreateInfo>)
    ensures |views| == |images|
    ensures forall i :: 0 <= i < |images| ==> views[i].image == images[i] && IsColorView(views[i], format)
  {
    if |images| == 0 then []
    else [ViewInfo(images[0], format)] + CreateImageViews(images[1..], format)
  }

  /** The images a sequence of views is for. */
  function ViewedImages(views: seq<ImageViewCreateInfo>): (images: seq<Handle>)
    ensures |images| == |views|
  {
    if |views| == 0 then [] else [views[0].image] + ViewedImages(views[1..])
  }

  /** Reading the images back from the views gives the swap chain's images,
      in order. */
  lemma {:induction false} ViewsRoundTrip(images: seq<Handle>, format: Format)
    ensures ViewedImages(CreateImageViews(images, format)) == images
  {
    if |images| > 0 {
      var views := CreateImageViews(images, format);
      assert views[1..] == CreateImageViews(images[1..], format);
      ViewsRoundTrip(images[1..], format);
    }
  }

  /** `Swapchain`. */
  datatype Swapchain = Swapchain(
    handle: Handle,
    extent: Extent2D,
    images: seq<Handle>,
    imageViews: seq<ImageViewCreateInfo>,
    details: SupportDetails)

  /** `Swapchain::new`, with the driver's answers as inputs: the three
      support queries, `createSwapchain` (the chain the driver builds from a
      create-info) and `getImages` (the images of a chain). */
  function NewSwapchain(surface: Handle, requested: Extent2D,
                        caps: Result<SurfaceCapabilities, ErrorCode>,
                        formats: Result<seq<SurfaceFormat>, ErrorCode>,
                        modes: Result<seq<PresentMode>, ErrorCode>,
                        createSwapchain: SwapchainCreateInfo -> Result<Handle, ErrorCode>,
                        getImages: Handle -> Result<seq<Handle>, ErrorCode>): (r: Result<Swapchain, ErrorCode>)
    requires QuerySupportDetails(caps, formats, modes).Success? ==>
               Negotiable(QuerySupportDetails(caps, formats, modes).value)
    ensures QuerySupportDetails(caps, formats, modes).Failure? ==>
              r == Failure(QuerySupportDetails(caps, formats, modes).error)
    ensures r.Success? ==> QuerySupportDetails(caps, formats, modes) == Success(r.value.details)
    ensures r.Success? ==>
              var info := CreateInfo(surface, r.value.details, requested);
              && createSwapchain(info) == Success(r.value.handle)
              && getImages(r.value.handle) == Success(r.value.images)
              && r.value.extent == info.imageExtent
              && |r.value.imageViews| == |r.value.images|
              && forall i :: 0 <= i < |r.value.images| ==>
                   r.value.imageViews[i].image == r.value.images[i]
                   && IsColorView(r.value.imageViews[i], info.imageFormat)
    ensures r.Failure? && QuerySupportDetails(caps, formats, modes).Success? ==>
              var info := CreateInfo(surface, QuerySupportDetails(caps, formats, modes).value, requested);
              createSwapchain(info).Failure? || getImages(createSwapchain(info).value).Failure?
    ensures QuerySupportDetails(caps, formats, modes).Success? ==>
              var info := CreateInfo(surface, QuerySupportDetails(caps, formats, modes).value, requested);
              createSwapchain(info).Failure? ==> r == Failure(createSwapchain(info).error)
    ensures QuerySupportDetails(caps, formats, modes).Success? ==>
              var info := CreateInfo(surface, QuerySupportDetails(caps, formats, modes).value, requested);
              createSwapchain(info).Success? && getImages(createSwapchain(info).value).Failure? ==>
                r == Failure(getImages(createSwapchain(info).value).error)
  {
    var details :- QuerySupportDetails(caps, formats, modes);
    var info := CreateInfo(surface, details, requested);
    var handle :- createSwapchain(info);
    var images :- getImages(handle);
    Success(Swapchain(handle, info.imageExtent, images, CreateImageViews(images, info.imageFormat), details))
  }
}
