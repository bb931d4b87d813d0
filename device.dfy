/**
 * Device memory as `main` uses it: `cudaMalloc` hands out a fresh buffer,
 * `cudaFree` releases one. Neither return code is checked by `main`, so
 * neither can fail here. The sizes `main` computes for one image live here too.
 */
module DeviceMemory {
  import opened Images

  /** The live device buffers, by handle, with their sizes in bytes; `next` is the next fresh handle. */
  datatype Device = Device(live: map<nat, int>, next: nat)
  {
    predicate Valid()
    {
      forall p :: p in live ==> p < next
    }
  }

  const NoBuffers := Device(map[], 0)

  datatype Allocation = Allocation(device: Device, handle: nat)

  /**
   * `cudaMalloc`: a handle that was not live before becomes live with the
   * requested size. The model hands out handles in order, starting at `next`.
   */
  function Malloc(d: Device, size: int): (r: Allocation)
    requires d.Valid()
    ensures r.device.Valid() && r.handle !in d.live && r.handle == d.next
    ensures r.device.live == d.live[r.handle := size] && |r.device.live| == |d.live| + 1
    ensures r.device.next == d.next + 1
  {
    Allocation(Device(d.live[d.next := size], d.next + 1), d.next)
  }

  /** `cudaFree`: the handle is no longer live; nothing else changes. */
  function Free(d: Device, p: nat): (r: Device)
    requires d.Valid()
    ensures r.Valid() && r.next == d.next
    ensures r.live == d.live - {p}
    ensures p in d.live ==> |r.live| == |d.live| - 1
  {
    var live := d.live - {p};
    assert live.Keys == d.live.Keys - {p};
    Device(live, d.next)
  }

  /** Two buffers allocated one after the other and then both freed leave the live set as it was. */
  lemma FreeingBothRestores(d: Device, rgbBytes: int, grayBytes: int)
    requires d.Valid()
    ensures var rgb := Malloc(d, rgbBytes);
      var gray := Malloc(rgb.device, grayBytes);
      && rgb.handle != gray.handle
      && Free(Free(gray.device, rgb.handle), gray.handle) == Device(d.live, d.next + 2)
      && |gray.device.live| == |d.live| + 2 && gray.device.next == d.next + 2
      && d.live.Keys <= gray.device.live.Keys
      && gray.device.live == d.live[d.next := rgbBytes][d.next + 1 := grayBytes]
  {
    var rgb := Malloc(d, rgbBytes);
    var gray := Malloc(rgb.device, grayBytes);
    assert Free(Free(gray.device, rgb.handle), gray.handle).live == d.live;
  }

  datatype Size = Size(width: int, height: int)

  /** The byte counts, row strides and region `main` derives from an image (lines 164-165, 177-179, 190). */
  datatype TransferPlan = TransferPlan(rgbBytes: int, grayBytes: int, rgbStep: int, grayStep: int, roi: Size, hostGrayLength: int)

  /**
   * The RGB buffer holds `roi.height` rows of `rgbStep` bytes and is exactly the
   * host data uploaded; the gray buffer holds the same rows at one byte a
   * pixel, and the host gray buffer is exactly as long as what is downloaded.
   */
  function PlanTransfer(img: Image): (p: TransferPlan)
    requires |img.data| == img.width * img.height * 3
    ensures p.roi == Size(img.width, img.height)
    ensures p.rgbBytes == |img.data| == p.rgbStep * p.roi.height
    ensures p.grayBytes == p.grayStep * p.roi.height == p.hostGrayLength
    ensures p.grayStep == p.roi.width && p.rgbStep == 3 * p.grayStep
    ensures p.rgbBytes == 3 * p.grayBytes
    ensures p.hostGrayLength == img.width * img.height
  {
    var width, height := img.width, img.height;
    TransferPlan(width * height * 3, width * height * 1, width * 3, width * 1, Size(width, height), width * height)
  }
}
