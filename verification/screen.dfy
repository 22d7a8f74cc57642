/** The design resolution shared by the water simulator and the gradient demo. */
module Screen {

  /** Internal width in pixels (`WIDTH`). */
  const Width: int := 320

  /** Internal height in pixels (`HEIGHT`). */
  const Height: int := 180

  /** Still-water line, in pixels from the top (`WATER_Y`). */
  const WaterY: int := 90

  /** Horizontal distance between two simulated surface points (`POINT_SPACING`). */
  const PointSpacing: int := 4
}
