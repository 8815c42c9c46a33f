/** The largest integer every party can represent exactly. */
module Limits {
  const MAX_SAFE := 9_007_199_254_740_991
}
