/** The playing field of "Daruma-san ga koronda": a fixed window in world coordinates. */
module Screen {
  /** Width and height of the window, in pixels. */
  const WIDTH: int := 800
  const HEIGHT: int := 600
}
