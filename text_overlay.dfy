/** The layout rules of `backend/services/text_overlay.py`: the three-tier font
    size, the fixed wrap width, the font fallback loop, and the centring of the
    measured text block on the fixed 1080x1350 canvas. Pixel work (decode,
    resize, brightness, rasterising text, PNG encoding) belongs to the imaging
    library; here the measurement and the word wrapper are inputs. */
module TextOverlay {
  import opened Strings

  const CanvasWidth: nat := 1080
  const CanvasHeight: nat := 1350
  /** Characters per line given to the word wrapper, whatever the font size. */
  const WrapWidth: nat := 20
  /** Pixels between wrapped lines, for measuring and for drawing alike. */
  const LineSpacing: nat := 10
  /** Factor applied to the background's brightness before drawing. */
  const Brightness: real := 0.6
  const OutputDir: string := "output"

  /** Candidate font files, in the order they are tried. */
  const FontPaths: seq<string> := [
    "assets/fonts/Inter-Bold.ttf",
    "/System/Library/Fonts/Supplemental/Arial Bold.ttf"
  ]

  /** A loaded font: a TrueType file at a size, or the library's built-in
      bitmap font. */
  datatype Font = TrueType(path: string, size: nat) | BuiltinDefault

  datatype Align = Left | Center | Right

  /** Everything the imaging library is given to lay out a text block. */
  datatype TextStyle = TextStyle(text: string, font: Font, spacing: nat, align: Align)

  /** A bounding box `(left, top, right, bottom)` as the library measures it. */
  datatype BBox = BBox(left: int, top: int, right: int, bottom: int) {
    function Width(): int { right - left }
    function Height(): int { bottom - top }
  }

  datatype Point = Point(x: real, y: real)
  datatype Rgb = Rgb(r: nat, g: nat, b: nat)

  /** What `overlay_quote` renders and saves. */
  datatype Composition = Composition(
    width: nat, height: nat,    // the canvas after resizing the background
    brightness: real,           // the enhancement factor applied to it
    measured: TextStyle,        // what the bounding box was taken of
    drawn: TextStyle,           // what was drawn
    origin: Point,              // where it was drawn
    fill: Rgb,
    path: string)               // where the PNG is saved

  /** The background could not be opened: the library's exception escapes. */
  datatype Overlay = Composed(composition: Composition) | OpenFailed

  // ---------------------------------------------------------------------------
  // Font size

  /** The length of the longest line. */
  function Longest(lines: seq<string>): (m: nat)
    requires |lines| >= 1
    ensures forall i :: 0 <= i < |lines| ==> |lines[i]| <= m
    ensures exists i :: 0 <= i < |lines| && |lines[i]| == m
  {
    if |lines| == 1 then |lines[0]|
    else
      var rest := Longest(lines[1..]);
      assert forall i :: 1 <= i < |lines| ==> lines[i] == lines[1..][i - 1];
      if |lines[0]| >= rest then |lines[0]| else rest
  }

  /** `max(len(line) for line in quote.split("\n"))`: the longest line of the
      quote as given, before any wrapping. */
  function LongestLine(quote: string): (m: nat)
    ensures m <= |quote|
    ensures forall i :: 0 <= i < |Split(quote, Exactly('\n'))| ==> |Split(quote, Exactly('\n'))[i]| <= m
    ensures exists i :: 0 <= i < |Split(quote, Exactly('\n'))| && |Split(quote, Exactly('\n'))[i]| == m
  {
    Longest(Split(quote, Exactly('\n')))
  }

  /** The three tiers: under 30 characters 72, under 60 characters 60,
      otherwise 48. */
  function FontSize(quote: string): (size: nat)
    ensures size == 72 <==> LongestLine(quote) < 30
    ensures size == 60 <==> 30 <= LongestLine(quote) < 60
    ensures size == 48 <==> 60 <= LongestLine(quote)
  {
    var m := LongestLine(quote);
    if m < 30 then 72 else if m < 60 then 60 else 48
  }

  /** A longer longest line never gets a larger font. */
  lemma FontSizeMonotone(a: string, b: string)
    requires LongestLine(a) <= LongestLine(b)
    ensures FontSize(a) >= FontSize(b)
  {
  }

  /** A quote shorter than 30 characters, the empty quote included, gets the
      largest size: no line is longer than the quote. */
  lemma ShortQuoteLargestFont(quote: string)
    requires |quote| < 30
    ensures FontSize(quote) == 72
  {
    var lines := Split(quote, Exactly('\n'));
    var i :| 0 <= i < |lines| && |lines[i]| == LongestLine(quote);
  }

  /** A quote without line breaks is one line: its own length decides. */
  lemma SingleLineFontSize(quote: string)
    requires '\n' !in quote
    ensures LongestLine(quote) == |quote|
    ensures FontSize(quote) == (if |quote| < 30 then 72 else if |quote| < 60 then 60 else 48)
  {
    SplitWithoutDelimiter(quote, Exactly('\n'));
  }

  /** The size is taken from the raw quote, not from its 20-column wrap: a
      single-line quote of 30 to 59 characters gets 60, while any text whose
      lines are all at most 20 characters long would get 72. */
  lemma SizeIgnoresWrapping(quote: string, wrapped: string)
    requires '\n' !in quote && 30 <= |quote| < 60
    requires forall i :: 0 <= i < |Split(wrapped, Exactly('\n'))| ==> |Split(wrapped, Exactly('\n'))[i]| <= WrapWidth
    ensures FontSize(quote) == 60
    ensures FontSize(wrapped) == 72
  {
    SingleLineFontSize(quote);
    var lines := Split(wrapped, Exactly('\n'));
    var i :| 0 <= i < |lines| && |lines[i]| == LongestLine(wrapped);
  }

  // ---------------------------------------------------------------------------
  // Font resolution

  /** The font the fallback rule picks: the first candidate that exists and
      loads at `size`, or the built-in font when none does. */
  function FirstLoadable(paths: seq<string>, fileExists: string -> bool,
                         loads: (string, nat) -> bool, size: nat): (f: Font)
    ensures f.TrueType? ==> f.path in paths && f.size == size && fileExists(f.path) && loads(f.path, size)
    ensures (exists j :: 0 <= j < |paths| && fileExists(paths[j]) && loads(paths[j], size)) ==> f.TrueType?
  {
    if |paths| == 0 then BuiltinDefault
    else if fileExists(paths[0]) && loads(paths[0], size) then TrueType(paths[0], size)
    else FirstLoadable(paths[1..], fileExists, loads, size)
  }

  /** The rule's result is a usable candidate with every earlier candidate
      unusable, and the built-in font exactly when no candidate is usable. */
  lemma {:induction false} FirstLoadableIsFirst(paths: seq<string>, fileExists: string -> bool,
                                                loads: (string, nat) -> bool, size: nat)
    ensures var f := FirstLoadable(paths, fileExists, loads, size);
      && (f.BuiltinDefault? <==> forall j :: 0 <= j < |paths| ==> !(fileExists(paths[j]) && loads(paths[j], size)))
      && (f.TrueType? ==> exists i :: (0 <= i < |paths| && paths[i] == f.path
            && fileExists(f.path) && loads(f.path, size) && f.size == size
            && forall j :: 0 <= j < i ==> !(fileExists(paths[j]) && loads(paths[j], size))))
  {
    if |paths| > 0 {
      FirstLoadableIsFirst(paths[1..], fileExists, loads, size);
      var f := FirstLoadable(paths, fileExists, loads, size);
      if !(fileExists(paths[0]) && loads(paths[0], size)) {
        assert forall j :: 1 <= j < |paths| ==> paths[j] == paths[1..][j - 1];
        if f.TrueType? {
          var i :| 0 <= i < |paths[1..]| && paths[1..][i] == f.path
            && fileExists(f.path) && loads(f.path, size) && f.size == size
            && forall j :: 0 <= j < i ==> !(fileExists(paths[1..][j]) && loads(paths[1..][j], size));
          assert paths[i + 1] == f.path;
        }
      } else {
        assert paths[0] == f.path;
      }
    }
  }

  /** `_get_font`: try the candidates in order, skip one that is missing or
      fails to load, and fall back to the built-in font; never fails. */
  method GetFont(size: nat, fileExists: string -> bool, loads: (string, nat) -> bool)
    returns (font: Font)
    ensures font == FirstLoadable(FontPaths, fileExists, loads, size)
  {
    var i := 0;
    while i < |FontPaths|
      invariant 0 <= i <= |FontPaths|
      invariant FirstLoadable(FontPaths, fileExists, loads, size)
             == FirstLoadable(FontPaths[i..], fileExists, loads, size)
    {
      var path := FontPaths[i];
      assert FontPaths[i..][1..] == FontPaths[i + 1..];
      if fileExists(path) {
        if loads(path, size) {
          return TrueType(path, size);
        }
      }
      i := i + 1;
    }
    font := BuiltinDefault;
  }

  // ---------------------------------------------------------------------------
  // Centring

  /** `((1080 - w) / 2, (1350 - h) / 2)` in true division: a block of the
      measured width and height placed at this origin leaves as much room on
      its left as on its right, and as much above as below. */
  function CenteredOrigin(box: BBox): (p: Point)
    ensures 2.0 * p.x + box.Width() as real == CanvasWidth as real
    ensures 2.0 * p.y + box.Height() as real == CanvasHeight as real
    ensures p.x == CanvasWidth as real - (p.x + box.Width() as real)
    ensures p.y == CanvasHeight as real - (p.y + box.Height() as real)
  {
    Point((CanvasWidth as real - box.Width() as real) / 2.0,
          (CanvasHeight as real - box.Height() as real) / 2.0)
  }

  /** Where the text actually lands. The box was measured with the text
      anchored at `(0, 0)`, so its `left` and `top` are offsets from the
      anchor; drawn at the centred origin, the ink spans `x + left .. x +
      right` and `y + top .. y + bottom`. Its side margins differ by twice
      `left` and its top and bottom margins by twice `top`, so the ink is
      centred only when both offsets are zero. */
  lemma DrawnMargins(box: BBox)
    ensures var p := CenteredOrigin(box);
      var leftMargin := p.x + box.left as real;
      var rightMargin := CanvasWidth as real - (p.x + box.right as real);
      var topMargin := p.y + box.top as real;
      var bottomMargin := CanvasHeight as real - (p.y + box.bottom as real);
      && leftMargin - rightMargin == 2.0 * box.left as real
      && topMargin - bottomMargin == 2.0 * box.top as real
      && (leftMargin == rightMargin <==> box.left == 0)
      && (topMargin == bottomMargin <==> box.top == 0)
  {
  }

  /** The saved file's path, `output/<seconds>-<32 hex>.png`. */
  function OutputPath(seconds: nat, token: string): (path: string)
    ensures |path| > |OutputDir| + 1
    ensures path[..|OutputDir| + 1] == OutputDir + "/"
    ensures path[|OutputDir| + 1..] == StampedName("", seconds, token, ".png")
  {
    OutputDir + "/" + StampedName("", seconds, token, ".png")
  }

  /** The saved file's name is the stamped name itself. */
  lemma OutputPathName(seconds: nat, token: string)
    requires IsHexToken(token)
    ensures Name(OutputPath(seconds, token)) == StampedName("", seconds, token, ".png")
  {
    StampedNameIsPlain("", seconds, token, ".png");
    NameOfChild(OutputDir, StampedName("", seconds, token, ".png"));
  }

  /** `overlay_quote`: open the background (its failure escapes), resize it to
      the canvas, darken it, pick the font size from the raw quote, resolve the
      font, wrap to 20 columns, measure the block and draw it centred with the
      same text, font, spacing and alignment, and save it under a stamped name.
      `wrap` stands for `textwrap.fill`, `measure` for `multiline_textbbox`. */
  method OverlayQuote(quote: string, backgroundOpens: bool,
                      wrap: (string, nat) -> string, measure: TextStyle -> BBox,
                      fileExists: string -> bool, loads: (string, nat) -> bool,
                      seconds: nat, token: string)
    returns (result: Overlay)
    requires IsHexToken(token)
    ensures result.OpenFailed? <==> !backgroundOpens
    ensures result.Composed? ==>
      var c := result.composition;
      && c.width == CanvasWidth && c.height == CanvasHeight
      && c.brightness == Brightness
      && c.drawn == c.measured
      && c.drawn.text == wrap(quote, WrapWidth)
      && c.drawn.spacing == LineSpacing && c.drawn.align == Center
      && c.drawn.font == FirstLoadable(FontPaths, fileExists, loads, FontSize(quote))
      && 2.0 * c.origin.x + measure(c.measured).Width() as real == CanvasWidth as real
      && 2.0 * c.origin.y + measure(c.measured).Height() as real == CanvasHeight as real
      && c.fill == Rgb(255, 255, 255)
      && c.path == OutputPath(seconds, token)
      && Name(c.path) == StampedName("", seconds, token, ".png")
  {
    if !backgroundOpens {
      return OpenFailed;
    }
    var size := FontSize(quote);
    var font := GetFont(size, fileExists, loads);
    var wrapped := wrap(quote, WrapWidth);
    var style := TextStyle(wrapped, font, LineSpacing, Center);
    var box := measure(style);
    var origin := CenteredOrigin(box);
    var path := OutputPath(seconds, token);
    OutputPathName(seconds, token);
    result := Composed(Composition(CanvasWidth, CanvasHeight, Brightness, style, style,
                                   origin, Rgb(255, 255, 255), path));
  }
}
