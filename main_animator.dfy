/** The animator of main.py: draws the frames one after the other, centred on the canvas
    at their own size, and re-centres the drawn canvas item when the window is resized. */
module MainAnimator {
  import opened Animation

  datatype Option<T> = None | Some(value: T)

  /** The image item on the canvas: which frame it shows and its top-left corner. */
  datatype Item = Item(frame: int, x: real, y: real)

  /** What one animation step produces: the frame drawn, where its top-left corner went,
      and the delay in milliseconds after which the next step is scheduled. */
  datatype Step = Step(frame: int, x: real, y: real, delay: int)

  class ImageAnimator {
    const images: seq<Frame>
    var totalTime: int
    var currentImageIndex: int
    /** The canvas item drawn last, `None` before the first step. */
    var currentImage: Option<Item>
    /** The canvas size, as the canvas reports it when asked. */
    var canvasWidth: int
    var canvasHeight: int

    /** The frame list is non-empty, the index points into it, the drift correction is
        still zero, and the item on the canvas shows the frame just before the index. */
    ghost predicate Valid()
      reads this
    {
      |images| > 0 && 0 <= currentImageIndex < |images| && totalTime == 0 &&
      (currentImage.Some? ==>
        0 <= currentImage.value.frame < |images| &&
        Advance(currentImage.value.frame, |images|) == currentImageIndex)
    }

    /** The drawn item sits in the middle of the canvas at its own frame's size. */
    ghost predicate ItemCentred()
      reads this
      requires Valid()
    {
      currentImage.Some? &&
      currentImage.value.x == CenterOffset(canvasWidth, images[currentImage.value.frame].width) &&
      currentImage.value.y == CenterOffset(canvasHeight, images[currentImage.value.frame].height)
    }

    /** Loads the neutral and the blink frames and starts at the first, with no drift
        correction and nothing drawn yet. */
    constructor (neutralWidth: int, neutralHeight: int, blinkWidth: int, blinkHeight: int,
                 width: int, height: int)
      ensures Valid()
      ensures images == AvatarFrames(neutralWidth, neutralHeight, blinkWidth, blinkHeight)
      ensures canvasWidth == width && canvasHeight == height
      ensures currentImageIndex == 0 && currentImage.None?
    {
      totalTime := 0;
      currentImageIndex := 0;
      currentImage := None;
      images := AvatarFrames(neutralWidth, neutralHeight, blinkWidth, blinkHeight);
      canvasWidth, canvasHeight := width, height;
    }

    /** Creation as the animator does it: load the frames, then run the first step at
        once. `sample` is the random draw for the neutral frame's duration; the first
        step draws the neutral frame centred and schedules the next step after
        exactly that draw, leaving the index at the blink. */
    static method Create(neutralWidth: int, neutralHeight: int, blinkWidth: int, blinkHeight: int,
                         width: int, height: int, sample: int)
      returns (a: ImageAnimator, first: Step)
      requires 500 <= sample <= 5000
      ensures fresh(a) && a.Valid() && a.ItemCentred()
      ensures a.images == AvatarFrames(neutralWidth, neutralHeight, blinkWidth, blinkHeight)
      ensures a.canvasWidth == width && a.canvasHeight == height
      ensures first == Step(0, CenterOffset(width, neutralWidth), CenterOffset(height, neutralHeight), sample)
      ensures first.delay == Delay(a.images[0].duration, sample, 0)
      ensures a.currentImageIndex == 1
      ensures a.currentImage == Some(Item(0, first.x, first.y))
    {
      a := new ImageAnimator(neutralWidth, neutralHeight, blinkWidth, blinkHeight, width, height);
      first := a.Animate(sample);
    }

    /** Where an image of the given frame's size goes so that it is centred on the
        canvas: equal gaps on both sides, in both directions. Reads the canvas size and
        changes nothing. */
    method GetCenteredImagePos(image: Frame) returns (x: real, y: real)
      ensures x == canvasWidth as real - (x + image.width as real)
      ensures y == canvasHeight as real - (y + image.height as real)
      ensures x == CenterOffset(canvasWidth, image.width) && y == CenterOffset(canvasHeight, image.height)
    {
      x := CenterOffset(canvasWidth, image.width);
      y := CenterOffset(canvasHeight, image.height);
    }

    /** One animation step: replaces the canvas contents by the frame at the current
        index, centred, computes the delay before the next step from that frame's
        duration, and moves the index on to the next frame, cyclically. */
    method Animate(sample: int) returns (step: Step)
      requires Valid()
      requires SampleFits(images[currentImageIndex].duration, sample)
      modifies this
      ensures Valid() && ItemCentred()
      ensures totalTime == old(totalTime)
      ensures canvasWidth == old(canvasWidth) && canvasHeight == old(canvasHeight)
      ensures step.frame == old(currentImageIndex)
      ensures step.x == CenterOffset(canvasWidth, images[step.frame].width)
      ensures step.y == CenterOffset(canvasHeight, images[step.frame].height)
      ensures step.delay == Delay(images[step.frame].duration, sample, totalTime)
      ensures currentImage == Some(Item(step.frame, step.x, step.y))
      ensures currentImageIndex == Advance(old(currentImageIndex), |images|)
    {
      var nextImage := images[currentImageIndex];
      var x, y := GetCenteredImagePos(nextImage);
      currentImage := Some(Item(currentImageIndex, x, y));

      var remainingTime;
      match images[currentImageIndex].duration {
        case Range(lo, hi) => remainingTime := sample - totalTime;
        case Fixed(ms) => remainingTime := ms - totalTime;
      }
      step := Step(currentImageIndex, x, y, remainingTime);

      currentImageIndex := (currentImageIndex + 1) % |images|;
    }

    /** Reacts to a new window size: records it as the canvas size and moves the drawn
        item to the centred position of the frame at the current index. That is the
        frame to be drawn next, not the one on the canvas, so the item ends up centred
        exactly when both frames have the same size. */
    method UpdateCanvasSize(width: int, height: int)
      requires Valid()
      modifies this
      ensures Valid()
      ensures canvasWidth == width && canvasHeight == height
      ensures currentImageIndex == old(currentImageIndex) && totalTime == old(totalTime)
      ensures old(currentImage).None? ==> currentImage.None?
      ensures old(currentImage).Some? ==>
        currentImage == Some(Item(old(currentImage).value.frame,
                                  CenterOffset(width, images[currentImageIndex].width),
                                  CenterOffset(height, images[currentImageIndex].height)))
      ensures currentImage.Some? ==>
        (ItemCentred() <==>
          images[currentImage.value.frame].width == images[currentImageIndex].width &&
          images[currentImage.value.frame].height == images[currentImageIndex].height)
    {
      canvasWidth, canvasHeight := width, height;
      var x, y := GetCenteredImagePos(images[currentImageIndex]);
      if currentImage.Some? {
        currentImage := Some(Item(currentImage.value.frame, x, y));
        CenterOffsetSameIff(width, images[currentImage.value.frame].width, images[currentImageIndex].width);
        CenterOffsetSameIff(height, images[currentImage.value.frame].height, images[currentImageIndex].height);
      }
    }
  }
}
