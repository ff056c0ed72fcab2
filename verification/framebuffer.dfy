/** Framebuffer specifications and the bounds check of `resize`. */
module Framebuffer {

  /** The largest accepted width or height. */
  const MaxFramebufferSize: nat := 8192

  datatype TextureFormat = NoFormat | RGBA8 | RedInteger | Depth24Stencil8

  datatype Spec = Spec(
    width: nat,
    height: nat,
    attachments: seq<TextureFormat>,
    samples: nat,
    swapChainTarget: bool)

  /** A default specification: 0 × 0, no attachments, one sample, not a swap-chain target. */
  function DefaultSpec(): (s: Spec)
    ensures s.width == 0 && s.height == 0 && s.attachments == [] && s.samples == 1 && !s.swapChainTarget
  {
    Spec(0, 0, [], 1, false)
  }

  /** Sizes `resize` accepts: both sides positive and at most the maximum. */
  predicate ValidSize(width: nat, height: nat) {
    0 < width <= MaxFramebufferSize && 0 < height <= MaxFramebufferSize
  }

  /** `resize`: an invalid size is ignored (with a warning); a valid one becomes
      the spec's width and height, and nothing else in the spec changes. */
  function Resize(s: Spec, width: nat, height: nat): (s': Spec)
    ensures !(width == 0 || height == 0 || width > MaxFramebufferSize || height > MaxFramebufferSize) ==>
      s'.width == width && s'.height == height
    ensures width == 0 || height == 0 || width > MaxFramebufferSize || height > MaxFramebufferSize ==> s' == s
    ensures s'.attachments == s.attachments && s'.samples == s.samples && s'.swapChainTarget == s.swapChainTarget
  {
    if width == 0 || height == 0 || width > MaxFramebufferSize || height > MaxFramebufferSize then s
    else s.(width := width, height := height)
  }

  /** The bound is inclusive, a resize is idempotent, a spec with a valid size
      keeps one through any resize, and a resize is accepted exactly when the
      requested size is valid. */
  lemma ResizeBounds(s: Spec, w: nat, h: nat)
    ensures Resize(s, MaxFramebufferSize, MaxFramebufferSize).width == MaxFramebufferSize
    ensures Resize(s, MaxFramebufferSize + 1, h) == s
    ensures Resize(Resize(s, w, h), w, h) == Resize(s, w, h)
    ensures ValidSize(s.width, s.height) ==> ValidSize(Resize(s, w, h).width, Resize(s, w, h).height)
    ensures ValidSize(w, h) ==> Resize(s, w, h) == s.(width := w, height := h)
    ensures !ValidSize(w, h) ==> Resize(s, w, h) == s
  {
  }
}
