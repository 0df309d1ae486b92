/**
 * The integer geometry of the composed image (thumbnails.py lines 48, 56-70,
 * 83-107): a 1280x720 canvas, a 942x422 centrepiece framed by a 10-pixel
 * border and pasted centred, 40 pixels above the middle, and the fixed text
 * and line positions below it. Pixel contents are not modelled.
 */
module Layout {
  import opened Titles
  import opened Metadata

  datatype Size = Size(w: int, h: int)
  datatype Point = Point(x: int, y: int)

  /** The pixels [x, x + w) x [y, y + h). */
  datatype Rect = Rect(x: int, y: int, w: int, h: int)

  const CanvasSize: Size := Size(1280, 720)
  const CentreSize: Size := Size(942, 422)
  const BorderWidth: int := 10
  const Lift: int := 40

  /**
   * Python's `a // b`. For a positive divisor Dafny's Euclidean `/` rounds
   * toward minus infinity as Python does, which the contract pins down.
   */
  function FloorDiv(a: int, b: int): (q: int)
    requires b > 0
    ensures q * b <= a < q * b + b
  {
    a / b
  }

  /** `r` lies within a `bounds`-sized image placed at the origin. */
  predicate Within(r: Rect, bounds: Size) {
    0 <= r.x && r.x + r.w <= bounds.w && 0 <= r.y && r.y + r.h <= bounds.h
  }

  /** The white frame: `Image.new` of the centrepiece's size plus the border on each side. */
  function Framed(s: Size, border: int): (f: Size)
    ensures f.w - s.w == 2 * border && f.h - s.h == 2 * border
  {
    Size(s.w + border * 2, s.h + border * 2)
  }

  /**
   * Where a `piece` is pasted on a `canvas`: centred across, and `lift`
   * pixels above centre down the page. The gaps on the two sides differ by
   * at most one pixel (the odd one goes right), and the gap below exceeds the
   * gap above by twice the lift (plus the odd pixel).
   */
  function PasteAt(canvas: Size, piece: Size, lift: int): (p: Point)
    ensures var right := canvas.w - (p.x + piece.w);
      right - p.x == (canvas.w - piece.w) % 2
    ensures var below := canvas.h - (p.y + piece.h);
      below - p.y == 2 * lift + (canvas.h - piece.h) % 2
  {
    Point(FloorDiv(canvas.w - piece.w, 2), FloorDiv(canvas.h - piece.h, 2) - lift)
  }

  /** The rectangle a `piece` covers once pasted by `PasteAt`. */
  function Placed(canvas: Size, piece: Size, lift: int): Rect {
    var p := PasteAt(canvas, piece, lift);
    Rect(p.x, p.y, piece.w, piece.h)
  }

  /**
   * A pasted piece stays on the canvas exactly when it is no wider than the
   * canvas and the lift does not push it past the top or the bottom.
   */
  lemma PlacedWithinIff(canvas: Size, piece: Size, lift: int)
    requires piece.w >= 0 && piece.h >= 0
    ensures Within(Placed(canvas, piece, lift), canvas) <==>
      && piece.w <= canvas.w
      && FloorDiv(canvas.h - piece.h, 2) - (canvas.h - piece.h) <= lift <= FloorDiv(canvas.h - piece.h, 2)
  {
  }

  /** The frame surrounds the centrepiece with `border` pixels on every side. */
  lemma FrameSurroundsCentre(s: Size, border: int)
    requires border >= 0
    ensures var f := Framed(s, border);
      && Within(Rect(border, border, s.w, s.h), f)
      && f.w - (border + s.w) == border && f.h - (border + s.h) == border
  {
  }

  /**
   * The generator's own numbers: the frame is 962x442, it is pasted at
   * (159, 99), and it lies entirely on the 1280x720 canvas.
   */
  lemma ThumbnailGeometry()
    ensures Framed(CentreSize, BorderWidth) == Size(962, 442)
    ensures PasteAt(CanvasSize, Framed(CentreSize, BorderWidth), Lift) == Point(159, 99)
    ensures Within(Placed(CanvasSize, Framed(CentreSize, BorderWidth), Lift), CanvasSize)
  {
    PlacedWithinIff(CanvasSize, Framed(CentreSize, BorderWidth), Lift);
  }

  // ---------------------------------------------------------------------
  // Text and line overlay (lines 73-107)
  // ---------------------------------------------------------------------

  /** A font as the generator asks for it, or Pillow's built-in default. */
  datatype Font = TrueType(file: string, size: int) | DefaultFont

  datatype Fonts = Fonts(body: Font, small: Font, bold: Font)

  /** The fonts in use: the two asset files, or the default for all three roles when loading fails. */
  function LoadFonts(loaded: bool): (f: Fonts)
    ensures !loaded ==> f.body == f.small == f.bold == DefaultFont
    ensures loaded ==> f.body.TrueType? && f.small.TrueType? && f.bold.TrueType?
  {
    if loaded then
      Fonts(TrueType("AviaxMusic/assets/font.ttf", 32),
            TrueType("AviaxMusic/assets/font2.ttf", 28),
            TrueType("AviaxMusic/assets/font.ttf", 35))
    else Fonts(DefaultFont, DefaultFont, DefaultFont)
  }

  datatype DrawOp =
    | Text(at: Point, text: string, colour: string, font: Font)
    | Line(from: Point, to: Point, colour: string, width: int)

  /** Where every drawing operation starts. */
  function Anchor(op: DrawOp): Point {
    match op
    case Text(at, _, _, _) => at
    case Line(from, _, _, _) => from
  }

  /**
   * The overlay drawn on the darkened background, in order: the empty
   * watermark, "channel | views", the title cut to 60 characters, "00:00",
   * the progress line and the duration.
   */
  function Overlay(info: VideoInfo, fonts: Fonts): (ops: seq<DrawOp>)
    ensures |ops| == 6
    ensures ops[0].Text? && ops[0].text == []
    ensures ops[1].Text? && ops[1].text == info.channel + " | " + info.views
    ensures ops[2].Text? && ops[2].text == Truncate(info.title) && |ops[2].text| <= TitleLimit
    ensures ops[5].Text? && ops[5].text == info.duration
  {
    [ Text(Point(1100, 20), "", "yellow", fonts.body),
      Text(Point(60, 570), info.channel + " | " + info.views, "white", fonts.small),
      Text(Point(60, 610), Truncate(info.title), "white", fonts.body),
      Text(Point(60, 650), "00:00", "white", fonts.bold),
      Line(Point(150, 665), Point(1130, 665), "white", 4),
      Text(Point(1145, 650), info.duration, "white", fonts.bold) ]
  }

  /** Everything the composition produces, short of pixels. */
  datatype Scene = Scene(canvas: Size, frame: Rect, centre: Rect, ops: seq<DrawOp>)

  /**
   * The composed scene (lines 45-107): the 1280x720 canvas, the 962x442
   * frame pasted at (159, 99), the 942x422 centrepiece 10 pixels inside it,
   * and the overlay drawn with the fonts that loaded.
   */
  function Compose(info: VideoInfo, fontsLoaded: bool): (sc: Scene)
    ensures sc.canvas == Size(1280, 720)
    ensures sc.frame == Rect(159, 99, 962, 442)
    ensures sc.centre == Rect(169, 109, 942, 422)
    ensures sc.ops == Overlay(info, LoadFonts(fontsLoaded))
  {
    ThumbnailGeometry();
    var frame := Placed(CanvasSize, Framed(CentreSize, BorderWidth), Lift);
    Scene(CanvasSize, frame,
          Rect(frame.x + BorderWidth, frame.y + BorderWidth, CentreSize.w, CentreSize.h),
          Overlay(info, LoadFonts(fontsLoaded)))
  }

  /**
   * The composed scene is consistent: the centrepiece sits inside its frame,
   * the frame inside the canvas, and every text and the line start on the
   * canvas, the captions below the frame. Font loading moves nothing: the
   * frame and where every operation starts are the same either way.
   */
  lemma SceneLaidOut(info: VideoInfo, fontsLoaded: bool)
    ensures var sc := Compose(info, fontsLoaded);
      && Within(sc.frame, sc.canvas)
      && sc.frame.x <= sc.centre.x && sc.centre.x + sc.centre.w <= sc.frame.x + sc.frame.w
      && sc.frame.y <= sc.centre.y && sc.centre.y + sc.centre.h <= sc.frame.y + sc.frame.h
      && (forall k :: 0 <= k < |sc.ops| ==>
            0 <= Anchor(sc.ops[k]).x < sc.canvas.w && 0 <= Anchor(sc.ops[k]).y < sc.canvas.h)
      && (forall k :: 1 <= k < |sc.ops| ==> Anchor(sc.ops[k]).y >= sc.frame.y + sc.frame.h)
    ensures Compose(info, !fontsLoaded).frame == Compose(info, fontsLoaded).frame
    ensures |Compose(info, !fontsLoaded).ops| == |Compose(info, fontsLoaded).ops|
    ensures forall k :: 0 <= k < |Compose(info, fontsLoaded).ops| ==>
      Anchor(Compose(info, !fontsLoaded).ops[k]) == Anchor(Compose(info, fontsLoaded).ops[k])
  {
    ThumbnailGeometry();
  }
}
