/** Accelerator vendors and kinds, shared by quota, admission, placement and routing. */
module Accelerators {

  datatype Vendor = Nvidia | Ascend

  datatype Kind = Gpu | Npu
}
