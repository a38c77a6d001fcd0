/** include/ssim/analysis/types.hpp: a sample of a scan line after filtering. */
module Samples {
  datatype SampleFlag = Kept | EdgeExcluded | Outlier | Dropped

  datatype Sample = Sample(s: real, z: real, flag: SampleFlag)
}
