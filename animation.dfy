/** The arithmetic that both versions of the image animator share: how long a frame
    stays on screen, how the frame index moves on, and where an image goes so that it
    sits in the middle of the canvas. */
module Animation {

  /** How long a frame stays on screen, in milliseconds: a fixed value, or an inclusive
      range from which a fresh value is drawn every time the frame is shown. */
  datatype Duration = Fixed(ms: int) | Range(lo: int, hi: int)

  /** One frame of the animation: the pixel size of its image and its duration. */
  datatype Frame = Frame(width: int, height: int, duration: Duration)

  /** A duration that can be scheduled: a non-negative fixed time, or a range of
      non-negative times whose bounds are in order, so that a draw from it exists. */
  predicate WellFormed(d: Duration)
  {
    match d
    case Fixed(ms) => 0 <= ms
    case Range(lo, hi) => 0 <= lo <= hi
  }

  /** The two frames both animators load: the neutral face, shown for a random time
      between half a second and five seconds, then the blink, shown for 200 ms. */
  function AvatarFrames(neutralWidth: int, neutralHeight: int, blinkWidth: int, blinkHeight: int): (fs: seq<Frame>)
    ensures |fs| > 0
    ensures forall f :: f in fs ==> WellFormed(f.duration)
  {
    [Frame(neutralWidth, neutralHeight, Range(500, 5000)), Frame(blinkWidth, blinkHeight, Fixed(200))]
  }

  /** The random draw for a ranged frame lies within its inclusive bounds. */
  predicate SampleFits(d: Duration, sample: int)
  {
    d.Range? ==> d.lo <= sample <= d.hi
  }

  /** The delay before the next step: the frame's duration (for a ranged frame, the
      value drawn from its range) minus the drift correction `totalTime`. */
  function Delay(d: Duration, sample: int, totalTime: int): (r: int)
    requires SampleFits(d, sample)
    ensures d.Fixed? ==> r == d.ms - totalTime
    ensures d.Range? ==> d.lo - totalTime <= r <= d.hi - totalTime
  {
    match d
    case Fixed(ms) => ms - totalTime
    case Range(_, _) => sample - totalTime
  }

  /** With no drift correction, the delay is the duration itself, or a value of the
      range, both bounds included. */
  lemma DelayWithoutDrift(d: Duration, sample: int)
    requires SampleFits(d, sample)
    ensures d.Fixed? ==> Delay(d, sample, 0) == d.ms
    ensures d.Range? ==> d.lo <= Delay(d, sample, 0) <= d.hi
  {
  }

  /** Every delay the two avatar frames can produce, with no drift correction, lies
      between the blink's 200 ms and the neutral face's 5000 ms. */
  lemma AvatarDelaysBounded(neutralWidth: int, neutralHeight: int, blinkWidth: int, blinkHeight: int, i: int, sample: int)
    requires 0 <= i < 2
    requires SampleFits(AvatarFrames(neutralWidth, neutralHeight, blinkWidth, blinkHeight)[i].duration, sample)
    ensures 200 <= Delay(AvatarFrames(neutralWidth, neutralHeight, blinkWidth, blinkHeight)[i].duration, sample, 0) <= 5000
  {
  }

  /** The index after one step over `n` frames: the next frame, wrapping round to the
      first after the last. */
  function Advance(i: int, n: int): (r: int)
    requires 0 < n
    ensures 0 <= r < n
    ensures 0 <= i < n ==> r == if i == n - 1 then 0 else i + 1
  {
    (i + 1) % n
  }

  /** The index after `k` consecutive steps from index `i`. */
  function IndexAfter(i: int, k: nat, n: int): (r: int)
    requires 0 < n
    ensures 0 <= i < n || 0 < k ==> 0 <= r < n
    decreases k
  {
    if k == 0 then i else Advance(IndexAfter(i, k - 1, n), n)
  }

  lemma MulAtLeast(a: int, n: int)
    requires 1 <= a && 0 < n
    ensures a * n >= n
  {
    if a > 1 {
      MulAtLeast(a - 1, n);
      assert a * n == (a - 1) * n + n;
    }
  }

  /** A remainder is determined by any decomposition `q * n + r` with `0 <= r < n`. */
  lemma ModUnique(x: int, q: int, r: int, n: int)
    requires 0 < n && 0 <= r < n && x == q * n + r
    ensures x % n == r
  {
    var q', r' := x / n, x % n;
    assert x == q' * n + r';
    assert (q - q') * n == r' - r by {
      assert (q - q') * n == q * n - q' * n;
    }
    if q > q' {
      MulAtLeast(q - q', n);
    } else if q < q' {
      MulAtLeast(q' - q, n);
    }
  }

  lemma ModSucc(a: int, n: int)
    requires 0 < n
    ensures (a % n + 1) % n == (a + 1) % n
  {
    var q, r := a / n, a % n;
    assert a == q * n + r;
    if r + 1 < n {
      ModUnique(r + 1, 0, r + 1, n);
      ModUnique(a + 1, q, r + 1, n);
    } else {
      ModUnique(r + 1, 1, 0, n);
      assert a + 1 == (q + 1) * n + 0;
      ModUnique(a + 1, q + 1, 0, n);
    }
  }

  /** `k` steps move a valid index `k` places forward, modulo the number of frames. */
  lemma {:induction false} IndexAfterShifts(i: int, k: nat, n: int)
    requires 0 < n && 0 <= i < n
    ensures IndexAfter(i, k, n) == (i + k) % n
  {
    if k == 0 {
      ModUnique(i, 0, i, n);
    } else {
      IndexAfterShifts(i, k - 1, n);
      ModSucc(i + k - 1, n);
    }
  }

  /** After as many steps as there are frames, the index is back where it started. */
  lemma FullCycleReturns(i: int, n: int)
    requires 0 < n && 0 <= i < n
    ensures IndexAfter(i, n, n) == i
  {
    IndexAfterShifts(i, n, n);
    ModUnique(i + n, 1, i, n);
  }

  /** The indices of the frames drawn by `k` consecutive steps that start at index `i`:
      each step draws the frame at the index it finds, then moves the index on. */
  function DrawnIndices(i: int, k: nat, n: int): (s: seq<int>)
    requires 0 < n
    ensures |s| == k
    ensures 0 <= i < n ==> forall j :: 0 <= j < k ==> 0 <= s[j] < n
    decreases k
  {
    if k == 0 then [] else [i] + DrawnIndices(Advance(i, n), k - 1, n)
  }

  /** The `j`-th frame drawn is the one `j` places after the starting frame. */
  lemma {:induction false} DrawnIndexAt(i: int, k: nat, n: int, j: nat)
    requires 0 < n && 0 <= i < n && j < k
    ensures DrawnIndices(i, k, n)[j] == (i + j) % n
    decreases j
  {
    if j == 0 {
      ModUnique(i, 0, i, n);
    } else {
      DrawnIndexAt(Advance(i, n), k - 1, n, j - 1);
      ModPlus(i + 1, j - 1, n);
    }
  }

  lemma ModPlus(a: int, b: int, n: int)
    requires 0 < n
    ensures (a % n + b) % n == (a + b) % n
  {
    var q, s := a / n, a % n;
    assert a == q * n + s;
    var d, t := (s + b) / n, (s + b) % n;
    assert s + b == d * n + t;
    assert a + b == (q + d) * n + t by {
      assert (q + d) * n == q * n + d * n;
    }
    ModUnique(a + b, q + d, t, n);
  }

  /** Started at the neutral face, the two avatar frames alternate: neutral on the even
      steps, blink on the odd ones. */
  lemma AvatarAlternates(k: nat, j: nat)
    requires j < k
    ensures DrawnIndices(0, k, 2)[j] == if j % 2 == 0 then 0 else 1
  {
    DrawnIndexAt(0, k, 2, j);
  }

  /** The coordinate at which an image of extent `inner` starts so that it is centred in
      a canvas of extent `outer`: the gap before it equals the gap after it. */
  function CenterOffset(outer: int, inner: int): (r: real)
    ensures r == outer as real - (r + inner as real)
  {
    outer as real / 2.0 - inner as real / 2.0
  }

  /** Equal margins on both sides determine the offset uniquely. */
  lemma CenterOffsetUnique(outer: int, inner: int, x: real)
    ensures x == outer as real - (x + inner as real) <==> x == CenterOffset(outer, inner)
  {
  }

  /** Two images get the same offset in the same canvas exactly when they have the same
      extent. */
  lemma CenterOffsetSameIff(outer: int, a: int, b: int)
    ensures CenterOffset(outer, a) == CenterOffset(outer, b) <==> a == b
  {
  }
}
