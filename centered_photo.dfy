/**
  The cover-fit centering transform of the photo tile: a uniform scale that
  makes the image cover the frame, and a translation that brings the focal
  point as close to the frame's centre as the image's edges allow.
  Arithmetic is exact (`real`), not IEEE-754.
*/
module CenteredPhoto {

  /** The scale and translation applied to the image inside the frame. */
  datatype Placement = Placement(scale: real, tx: real, ty: real)

  function Max(a: real, b: real): real
  {
    if a >= b then a else b
  }

  function Min(a: real, b: real): real
  {
    if a <= b then a else b
  }

  /** A length or coordinate of the image, scaled by a factor. */
  function Scaled(length: real, s: real): real
  {
    length * s
  }

  /** The distance between two points on a line. */
  function Dist(a: real, b: real): real
  {
    if a >= b then a - b else b - a
  }

  /** `Math.min(hi, Math.max(lo, x))`: `x` pulled to the nearest point of `[lo, hi]` when that interval is non-empty. */
  function Clamp(lo: real, hi: real, x: real): (r: real)
    requires lo <= hi
    ensures lo <= r <= hi
    ensures lo <= x <= hi ==> r == x
    ensures forall y :: lo <= y <= hi ==> Dist(r, x) <= Dist(y, x)
  {
    Min(hi, Max(lo, x))
  }

  /** The cover-fit scale: the larger of the two ratios of frame to image. */
  function CoverScale(width: real, height: real, frameWidth: real, frameHeight: real): (s: real)
    requires width > 0.0 && height > 0.0 && frameWidth > 0.0 && frameHeight > 0.0
    ensures s > 0.0
    ensures Scaled(width, s) >= frameWidth && Scaled(height, s) >= frameHeight
    ensures Scaled(width, s) == frameWidth || Scaled(height, s) == frameHeight
  {
    var sw, sh := frameWidth / width, frameHeight / height;
    assert Scaled(width, sw) == frameWidth && Scaled(height, sh) == frameHeight;
    if sw >= sh then
      assert Scaled(height, sw) >= Scaled(height, sh);
      sw
    else
      assert Scaled(width, sh) >= Scaled(width, sw);
      sh
  }

  /**
    The translation along one axis: the focal coordinate `c` of an image of
    length `size`, scaled by `s`, brought to the centre of a frame of length
    `frame`, then clamped so that the image leaves no gap (`[frame - size*s, 0]`).
  */
  function Shift(size: real, c: real, frame: real, s: real): (d: real)
    requires Scaled(size, s) >= frame
    ensures frame - Scaled(size, s) <= d <= 0.0
  {
    var raw := frame / 2.0 - Scaled(c, s);
    var lo, hi := frame - Scaled(size, s), 0.0;
    Clamp(lo, hi, raw)
  }

  /**
    Where the image's edges allow it, the focal coordinate lands exactly on
    the frame's centre; elsewhere the shift is the allowed one that brings it
    nearest to the centre.
  */
  lemma ShiftCentres(size: real, c: real, frame: real, s: real)
    requires Scaled(size, s) >= frame
    ensures var d, raw := Shift(size, c, frame, s), frame / 2.0 - Scaled(c, s);
      && (frame - Scaled(size, s) <= raw <= 0.0 ==> d + Scaled(c, s) == frame / 2.0)
      && forall x :: frame - Scaled(size, s) <= x <= 0.0 ==> Dist(d, raw) <= Dist(x, raw)
  {
    var raw := frame / 2.0 - Scaled(c, s);
    var lo := frame - Scaled(size, s);
    assert Shift(size, c, frame, s) == Clamp(lo, 0.0, raw);
  }

  /**
    The placement of an image of `width` x `height` with focal point
    (`centerX`, `centerY`) in a frame of `frameWidth` x `frameHeight`.
  */
  function Center(width: real, height: real, centerX: real, centerY: real,
                  frameWidth: real, frameHeight: real): (t: Placement)
    requires width > 0.0 && height > 0.0 && frameWidth > 0.0 && frameHeight > 0.0
    // the scaled image covers the frame, and no smaller scale would
    ensures t.scale > 0.0
    ensures Scaled(width, t.scale) >= frameWidth && Scaled(height, t.scale) >= frameHeight
    ensures Scaled(width, t.scale) == frameWidth || Scaled(height, t.scale) == frameHeight
    // no gap inside the frame, wherever the focal point is
    ensures frameWidth - Scaled(width, t.scale) <= t.tx <= 0.0
    ensures frameHeight - Scaled(height, t.scale) <= t.ty <= 0.0
  {
    var s := CoverScale(width, height, frameWidth, frameHeight);
    var tx := Shift(width, centerX, frameWidth, s);
    var ty := Shift(height, centerY, frameHeight, s);
    Placement(s, tx, ty)
  }

  /** In both directions, a focal point the clamp does not move is mapped to the centre of the frame. */
  lemma CenterCentresFocalPoint(width: real, height: real, centerX: real, centerY: real,
                                frameWidth: real, frameHeight: real)
    requires width > 0.0 && height > 0.0 && frameWidth > 0.0 && frameHeight > 0.0
    ensures var t := Center(width, height, centerX, centerY, frameWidth, frameHeight);
      && (frameWidth - Scaled(width, t.scale) <= frameWidth / 2.0 - Scaled(centerX, t.scale) <= 0.0 ==>
            t.tx + Scaled(centerX, t.scale) == frameWidth / 2.0)
      && (frameHeight - Scaled(height, t.scale) <= frameHeight / 2.0 - Scaled(centerY, t.scale) <= 0.0 ==>
            t.ty + Scaled(centerY, t.scale) == frameHeight / 2.0)
  {
    var s := CoverScale(width, height, frameWidth, frameHeight);
    var t := Center(width, height, centerX, centerY, frameWidth, frameHeight);
    assert t == Placement(s, Shift(width, centerX, frameWidth, s), Shift(height, centerY, frameHeight, s));
    ShiftCentres(width, centerX, frameWidth, s);
    ShiftCentres(height, centerY, frameHeight, s);
  }

  /** A 200 x 100 image focused at (150, 50) in a 100 x 100 frame: scale 1, shifted 100 left, not shifted vertically. */
  lemma WideImageExample()
    ensures Center(200.0, 100.0, 150.0, 50.0, 100.0, 100.0) == Placement(1.0, -100.0, 0.0)
  {
    assert CoverScale(200.0, 100.0, 100.0, 100.0) == 1.0;
  }
}
