/** Sizes of the machine. */
module Arch {
  const MAX_CPUS := 16
  const N_EXT_IL := 5
  const N_DEV_PER_IL := 8
}
