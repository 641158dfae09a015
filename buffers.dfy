/** Shared-memory buffers of the client library (src/libwlmatchapp/buffer.c):
    creation over a memfd mapping, the compositor's release event, and
    freeing, which unlinks the buffer from the window that holds it. */
module Buffers {
  import opened Common
  import opened WlmTypes

  /** The size buffer_create maps: height * stride computed in 32-bit
      unsigned arithmetic and only then widened to size_t, so it is the
      true product reduced modulo 2^32. */
  function BufferSize(height: nat, stride: nat): (size: nat)
    ensures size < U32_MODULUS
    ensures (height * stride - size) % U32_MODULUS == 0
    ensures height * stride < U32_MODULUS ==> size == height * stride
  {
    ToU32(height * stride)
  }

  /** In general the mapped size is the product less every whole 2^32 it
      holds: a product between k * 2^32 and (k + 1) * 2^32 loses exactly
      k * 2^32 bytes. */
  lemma {:induction false} BufferSizeWrapsBy(height: nat, stride: nat, k: nat)
    requires k * U32_MODULUS <= height * stride < (k + 1) * U32_MODULUS
    ensures BufferSize(height, stride) == height * stride - k * U32_MODULUS
  {
    var p := height * stride;
    var r := p - k * U32_MODULUS;
    assert 0 <= r < U32_MODULUS;
    assert p == k * U32_MODULUS + r;
    assert p % U32_MODULUS == r;
  }

  /** How the system calls of buffer_create turn out, in the order it
      makes them: memfd_create, ftruncate, mmap. */
  datatype SysOutcome = MemfdFailed | TruncateFailed | MmapFailed | Mapped

  /** buffer_create: any failing system call gives no buffer; otherwise a
      new buffer records the given geometry and format and the wrapped
      size, and starts out not busy. */
  method Create(width: nat, height: nat, stride: nat, format: nat, sys: SysOutcome) returns (b: Option<Buffer>)
    ensures sys != Mapped ==> b.None?
    ensures sys == Mapped ==> b.Some? && fresh(b.value) && !b.value.busy
    ensures sys == Mapped ==>
      && b.value.width == width && b.value.height == height && b.value.stride == stride
      && b.value.format == format && b.value.size == BufferSize(height, stride)
  {
    if sys == MemfdFailed {
      return None;
    }
    var size := BufferSize(height, stride);
    if sys == TruncateFailed {
      return None;
    }
    if sys == MmapFailed {
      return None;
    }
    var buffer := new Buffer(width, height, stride, format, size);
    return Some(buffer);
  }

  /** buffer_release: the compositor is done with the buffer. */
  method Release(b: Buffer)
    modifies b`busy
    ensures !b.busy
  {
    b.busy := false;
  }

  /** buffer_free: the buffer is unlinked from the window's buffer list and
      released; the other buffers stay in their order. */
  method Free(w: Window, b: Buffer)
    modifies w`buffers
    ensures w.buffers == Without(old(w.buffers), b)
    ensures b !in w.buffers
  {
    WithoutMembers(w.buffers, b, b);
    w.buffers := Without(w.buffers, b);
  }
}
