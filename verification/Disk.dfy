/** What the volume keeps on its device: numbered blocks, told apart by their use. */
module Disk {
  import opened Base

  /** `len` blocks of a file from logical block `block`, at physical block `start` on. */
  datatype Extent = Extent(block: nat, len: nat, start: nat)

  /** An index entry of an extent root: the leaf holding extents from `block` on. */
  datatype ExtentIdx = ExtentIdx(block: nat, leaf: nat)

  datatype Block =
    | Bitmap(bits: seq<bool>)
    | Pointers(ptrs: seq<nat>)
    | ExtentLeaf(extents: seq<Extent>)
    | Contents(bytes: Bytes)

  type Device = map<nat, Block>
}
