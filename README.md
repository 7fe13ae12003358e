# Vivian frame animator

A model of the frame animator behind the "Vivian" desktop character. The character is a
window that shows a sprite cycling through two images: a neutral face, shown for a random
time between 500 and 5000 ms, then a blink, shown for 200 ms. The repository has two
versions of the animator class `ImageAnimator`:

- `main.py` draws each frame at its own size, centred on the canvas. It keeps the handle of
  the drawn canvas item and moves that item to a re-centred position when the window is
  resized.
- `test.py` first rescales each frame against the canvas, pinning one side to the canvas
  side, and then draws it centred at its new size. Its resize handler only records the new
  canvas size.

The model has three modules:

- `Animation` (`animation.dfy`) holds what both versions share. It defines frame durations
  (`Fixed` or an inclusive `Range`) and the delay computed from a duration and the drift
  correction `total_time`. It also covers the cyclic frame index and the centring offset.
- `MainAnimator` (`main_animator.dfy`) models `main.py`'s `ImageAnimator` as a class.
- `TestAnimator` (`test_animator.dfy`) models `test.py`'s `ImageAnimator` as a class, along
  with the rescaling arithmetic of `resize_image`.

Both classes keep the frame list, `current_image_index`, `total_time` and the canvas size
as fields. `main.py`'s class also keeps the last drawn canvas item as a field. Each
animation step returns what it drew and the delay it would pass to the timer. The random
draw for a ranged frame is a parameter, `sample`, constrained to the inclusive range, as
Python's `random.randint` guarantees. Python's `/` on the pixel sizes becomes exact `real`
division, and `int()` becomes truncation toward zero (`TestAnimator.Trunc`).

Both versions compute `total_time` once, as zero, and never update it. The model keeps the
field and the subtraction, and its class invariants record that the field stays zero.

The animator code has a single, fixed list of frames. It has no named animation sets, no
switching between sets, no debouncing of resize events and no padding around the sprite,
so the model has none of these either.

## Model

| member | source | states |
|---|---|---|
| `Animation.AvatarFrames` | main.py:25-28 | The loaded frame list is non-empty, and every duration in it can be scheduled: a fixed time is non-negative, and a range has non-negative bounds in order, so a draw from it exists. |
| `Animation.Delay` | main.py:46-50 | For a fixed duration the delay is the duration minus `total_time`. For a range `(lo, hi)` the delay lies in `[lo - total_time, hi - total_time]`, both ends included. |
| `Animation.DelayWithoutDrift` | test.py:53-58 | With `total_time` zero, a fixed frame's delay is exactly its duration and a ranged frame's delay lies within its range. |
| `Animation.AvatarDelaysBounded` | main.py:25-28 | With `total_time` zero, every delay the two loaded frames can produce lies in `[200, 5000]`. |
| `Animation.Advance` | main.py:53 | The next index lies in `[0, len(images))`: it is the following frame, or 0 after the last frame. |
| `Animation.IndexAfter` | main.py:53-56 | The index after `k` repeated steps (each step reschedules the next) stays in `[0, len(images))`. Its closed form is stated by `Animation.IndexAfterShifts`. |
| `Animation.IndexAfterShifts` | test.py:61 | `k` consecutive steps from a valid index `i` leave the index at `(i + k) mod len(images)`. |
| `Animation.FullCycleReturns` | main.py:53 | After `len(images)` steps, the index is back where it started. |
| `Animation.DrawnIndices` | main.py:39-53 | The frames drawn by `k` repeated steps, one per step, are all valid indices into the frame list. Which frame each is is stated by `Animation.DrawnIndexAt`. |
| `Animation.DrawnIndexAt` | main.py:39-53 | The `j`-th of consecutive steps from index `i` draws frame `(i + j) mod len(images)`. |
| `Animation.AvatarAlternates` | main.py:25-28 | Starting at the neutral frame, the two loaded frames alternate: neutral on even steps, blink on odd steps. |
| `Animation.CenterOffset` | main.py:64-65 | The gap before the image equals the gap after it, so the image is centred. |
| `Animation.CenterOffsetUnique` | test.py:47-48 | Equal gaps on both sides hold for exactly one offset, the centred one. |
| `Animation.CenterOffsetSameIff` | main.py:73-74 | In the same canvas, two images get the same offset exactly when they have the same extent. |
| `MainAnimator.ImageAnimator.constructor` | main.py:15-28 | It loads the neutral and blink frames, sets `total_time` to zero and the index to 0, and records no canvas item yet. |
| `MainAnimator.ImageAnimator.Create` | main.py:15-32 | It builds the animator and runs the first step, as `__init__` does. The neutral frame is drawn centred and recorded as the canvas item, and the index becomes 1. The first delay is exactly the neutral frame's draw. |
| `MainAnimator.ImageAnimator.GetCenteredImagePos` | main.py:58-66 | The returned position is the centring offset of the image in the canvas, with equal gaps on both sides, horizontally and vertically. It changes nothing. |
| `MainAnimator.ImageAnimator.Animate` | main.py:34-56 | It draws the frame at the entry index, centred, and records that frame as the current canvas item. The delay comes from that frame's duration, and the index moves to `(i + 1) mod len(images)`. The index stays in range, and the canvas size and `total_time` are unchanged. |
| `MainAnimator.ImageAnimator.UpdateCanvasSize` | main.py:68-74 | It records the new canvas size and moves the drawn item to the centred position of `images[current_image_index]`, which is the next frame, not the drawn one. The item ends up centred exactly when both frames have the same size. The index is unchanged. |
| `TestAnimator.Trunc` | test.py:80 | The result is the integer part of its argument, truncated toward zero: at most the argument and within 1 of it, with the same sign. |
| `TestAnimator.CanvasRatio` | test.py:71 | The result is the smaller of width/height and height/width. |
| `TestAnimator.CanvasRatioAtMostOne` | test.py:71 | For a canvas with positive sides, the canvas ratio lies in `(0, 1]`. |
| `TestAnimator.ResizeImage` | test.py:66-80 | A zero canvas side or a zero image height is a division by zero. Positive inputs never divide by zero. A zero-width image fails exactly when the canvas sides have the same sign. On success, one side equals the canvas side and the other follows the image's ratio, truncated. |
| `TestAnimator.ResizePinsOneSide` | test.py:74-80 | If the image ratio exceeds the canvas ratio, the height is pinned and the width is `int(H * ratio)`. Otherwise the width is pinned and the height is `int(W / ratio)`. |
| `TestAnimator.ResizeCoversHeight` | test.py:74-80 | With positive sizes, the rescaled image is at least as tall as the canvas. |
| `TestAnimator.ResizeKeepsAspect` | test.py:75-80 | With positive sizes, the rescaled image keeps the original proportions up to the truncated pixel. |
| `TestAnimator.ResizeCanOverflowWidth` | test.py:75-77 | On any portrait canvas, a square image becomes as wide as the canvas is tall, which is wider than the canvas. The rescaling therefore does not keep the image inside the canvas. |
| `TestAnimator.ImageAnimator.constructor` | test.py:13-27 | It loads the two frames and sets `total_time` to zero and the index to 0. |
| `TestAnimator.ImageAnimator.Create` | test.py:13-30 | It builds the animator and runs the first step, as `__init__` does. The step fails exactly when rescaling the neutral frame fails, and the index then stays 0. Otherwise the rescaled neutral frame is drawn centred, the first delay is exactly the neutral frame's draw, and the index becomes 1. |
| `TestAnimator.ImageAnimator.Animate` | test.py:32-64 | It fails exactly when rescaling the frame at the entry index fails, and then leaves the index where it was. Otherwise it draws that frame at its rescaled size, centred. The delay comes from the frame's duration, and the index moves to `(i + 1) mod len(images)`. |
| `TestAnimator.ImageAnimator.UpdateCanvasSize` | test.py:87-91 | It records the new canvas size. The frames, the index and `total_time` are unchanged. |

## Left out

- The `Window` classes and the tkinter canvas calls (`Canvas`, `pack`, `bind`, `delete`, `create_image`, `moveto`, `config`) are window glue. The model returns drawing as a value, and `main.py`'s canvas item is a field holding the frame and position it shows.
- The canvas size is modelled as the size last given to the constructor or to `UpdateCanvasSize`. The model does not capture how Tk propagates geometry, so a requested size and the size `winfo_width`/`winfo_height` report are the same here.
- `window.after` and `mainloop` are scheduling and event-loop machinery. Each step returns the delay it would schedule instead, and the model has no timers, no clock and no event order.
- Loading images from disk and Pillow's pixel resizing are foreign library calls. Image sizes are constructor parameters, and only the width and height arithmetic is modelled.
- `random.randint` becomes a `sample` parameter constrained to the inclusive range. The model does not capture the generator or its distribution.
- Python floats are modelled as exact reals, so IEEE rounding in `/` and in the centring offsets is not modelled.
- The `print` calls in both resize handlers are output only.
- `pyglet_test.py` is not part of this model. It only sets up a pyglet window and computes an unused scale.
- `MainAnimator.ImageAnimator.UpdateCanvasSize`: before the first step there is no canvas item to move, and the model then moves nothing. The model does not capture what Tk does with an empty handle.
- `TestAnimator.ImageAnimator.Create`: a `ZeroDivisionError` in the first step would leave `__init__`, so no animator would exist. The model instead returns the animator together with the failed step, and the index is still 0.
- `TestAnimator.ResizeImage`: the result is not passed through Pillow's `resize` (test.py:83). Positive inputs can yield a zero side, for example a 2 by 100 image on a 100 by 1 canvas gives 0 by 1, and Pillow rejects that size. The model reports success there.
- `TestAnimator.ImageAnimator.Animate`: a failing step has already cleared the canvas before the rescaling fails. The failure result does not record the cleared canvas, and the model does not capture Pillow's own checks on the target size.
