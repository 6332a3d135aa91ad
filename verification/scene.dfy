/** The composed splash scene: the endoskeleton header at the top, the row
    of character sprites under it, the logo under the row, and the loading
    bar under the logo, each element stacked a fixed margin below the one
    before and centred on the canvas. */
module Scene {
  import opened Geometry
  import opened Row

  /** Width of the window the scene is laid out for (`windowWidth`). */
  const WindowWidth: int := 1200
  /** Height the header image is scaled to (`endoTargetH`). */
  const HeaderHeight: nat := 300
  /** The header's top edge. */
  const HeaderTop: int := 50
  /** Vertical margin between the header and the sprite row. */
  const HeaderToRow: int := 30
  /** Vertical margin between the sprite row and the logo. */
  const RowToLogo: int := 20
  /** Width the logo is scaled to (`logoDisplayW`). */
  const LogoWidth: nat := 400
  /** Vertical margin between the logo and the loading bar. */
  const LogoToBar: int := 20
  /** Size of the loading bar's background (`barW`, `barH`). */
  const BarWidth: int := 300
  const BarHeight: int := 20

  /** Every rectangle the renderer draws. `barFg` is the yellow fill of the
      loading bar as set up before the first frame. */
  datatype SceneRects = SceneRects(header: Rect, sprites: seq<Rect>, logo: Rect, barBg: Rect, barFg: Rect)

  /** The header image scaled to `HeaderHeight`, its top at `HeaderTop`. */
  function HeaderRect(canvasWidth: int, endo: Size): (r: Rect)
    requires endo.height > 0
    ensures r.h == HeaderHeight && r.y == HeaderTop
    ensures r.w * endo.height <= endo.width * HeaderHeight < (r.w + 1) * endo.height
    ensures CentredIn(r, canvasWidth)
  {
    var e := ScaleToHeight(endo, HeaderHeight);
    Rect(CenterX(canvasWidth, e.width), HeaderTop, e.width, HeaderHeight)
  }

  /** The logo scaled to `LogoWidth`, its top at `y`. */
  function LogoRect(canvasWidth: int, logo: Size, y: int): (r: Rect)
    requires logo.width > 0
    ensures r.w == LogoWidth && r.y == y
    ensures r.h * logo.width <= logo.height * LogoWidth < (r.h + 1) * logo.width
    ensures r.h >= 0
    ensures CentredIn(r, canvasWidth)
  {
    var l := ScaleToWidth(logo, LogoWidth);
    Rect(CenterX(canvasWidth, LogoWidth), y, LogoWidth, l.height)
  }

  /** The loading bar's background, its top at `y`. */
  function BarRect(canvasWidth: int, y: int): (r: Rect)
    ensures r.w == BarWidth && r.h == BarHeight && r.y == y
    ensures CentredIn(r, canvasWidth)
  {
    Rect(CenterX(canvasWidth, BarWidth), y, BarWidth, BarHeight)
  }

  /** Lays out the scene on a canvas of width `canvasWidth`, given the natural
      sizes of the header image (`endo`), of the sprite slots (`ts`) and of
      the logo: header, row, logo and bar in that order from the top, each a
      fixed margin below the bottom of the element above. */
  function LayoutScene(canvasWidth: int, endo: Size, ts: seq<Texture>, logo: Size): (sc: SceneRects)
    requires endo.height > 0 && logo.width > 0 && AllValid(ts)
    ensures sc.header == HeaderRect(canvasWidth, endo)
    ensures |sc.sprites| == |ts|
    ensures sc.sprites == RowLayout(ts, canvasWidth, sc.header.Bottom() + HeaderToRow)
    ensures forall i :: 0 <= i < |sc.sprites| ==> sc.sprites[i].y == sc.header.Bottom() + HeaderToRow
    ensures sc.logo == LogoRect(canvasWidth, logo, sc.header.Bottom() + HeaderToRow + SpriteHeight + RowToLogo)
    ensures forall i :: 0 <= i < |sc.sprites| ==> sc.logo.y == sc.sprites[i].Bottom() + RowToLogo
    ensures sc.barBg == BarRect(canvasWidth, sc.logo.Bottom() + LogoToBar)
    ensures sc.barFg == sc.barBg.(w := 0)
  {
    var header := HeaderRect(canvasWidth, endo);
    var rowY := header.y + header.h + HeaderToRow;
    var sprites := RowLayout(ts, canvasWidth, rowY);
    RowItemsScaled(ts, canvasWidth, rowY);
    var logoRect := LogoRect(canvasWidth, logo, rowY + SpriteHeight + RowToLogo);
    var bg := BarRect(canvasWidth, logoRect.y + logoRect.h + LogoToBar);
    SceneRects(header, sprites, logoRect, bg, bg.(w := 0))
  }

  /** Reading the scene top to bottom, every element starts strictly below
      the bottom of the one above it, so no two overlap vertically. */
  lemma StackedTopToBottom(canvasWidth: int, endo: Size, ts: seq<Texture>, logo: Size)
    requires endo.height > 0 && logo.width > 0 && AllValid(ts)
    ensures var sc := LayoutScene(canvasWidth, endo, ts, logo);
            && (forall i :: 0 <= i < |sc.sprites| ==>
                  sc.header.Bottom() < sc.sprites[i].y && sc.sprites[i].Bottom() < sc.logo.y)
            && sc.header.Bottom() < sc.logo.y
            && sc.logo.Bottom() < sc.barBg.y
  {
  }

  /** The scene laid out on the program's 1200-pixel window for an 800x600
      header image, five loaded 100x100 sprites and an 800x200 logo. */
  lemma ExampleScene()
    ensures var sc := LayoutScene(WindowWidth, Size(800, 600), FiveSprites(), Size(800, 200));
            && sc.header == Rect(400, 50, 400, 300)
            && sc.sprites == [Rect(185, 380, 150, 150), Rect(355, 380, 150, 150), Rect(525, 380, 150, 150),
                              Rect(695, 380, 150, 150), Rect(865, 380, 150, 150)]
            && sc.logo == Rect(400, 550, 400, 100)
            && sc.barBg == Rect(450, 670, 300, 20)
  {
    var sc := LayoutScene(WindowWidth, Size(800, 600), FiveSprites(), Size(800, 200));
    ExampleHeader();
    ExampleRow();
    assert sc.logo == Rect(400, 550, 400, 100) by {
      CentredUnique(sc.logo, WindowWidth);
    }
    assert sc.barBg == Rect(450, 670, 300, 20) by {
      CentredUnique(sc.barBg, WindowWidth);
    }
  }

  /** Five loaded sprite slots, each 100x100. */
  function FiveSprites(): seq<Texture>
  {
    var t := Loaded(Size(100, 100));
    [t, t, t, t, t]
  }

  /** The example's header: an 800x600 image scaled to 400x300, centred. */
  lemma ExampleHeader()
    ensures HeaderRect(WindowWidth, Size(800, 600)) == Rect(400, 50, 400, 300)
  {
    var r := HeaderRect(WindowWidth, Size(800, 600));
    assert r.w == 400;
    CentredUnique(r, WindowWidth);
  }

  /** The example's row: five 150-wide sprites 20 apart, centred at x = 185. */
  lemma ExampleRow()
    ensures RowLayout(FiveSprites(), WindowWidth, 380)
         == [Rect(185, 380, 150, 150), Rect(355, 380, 150, 150), Rect(525, 380, 150, 150),
             Rect(695, 380, 150, 150), Rect(865, 380, 150, 150)]
  {
    var ts := FiveSprites();
    var widths := SpriteWidths(ts);
    assert widths == [150, 150, 150, 150, 150];
    assert Sum(widths) == 750 by {
      assert widths[..0] == [];
      SumPrefix(widths, 0);
      SumPrefix(widths, 1);
      SumPrefix(widths, 2);
      SumPrefix(widths, 3);
      SumPrefix(widths, 4);
      assert widths[..5] == widths;
    }
    assert CenterX(WindowWidth, RowWidth(widths, Spacing)) == 185;
    var r := PlaceRow(widths, 185, 380, SpriteHeight, Spacing);
    GapsExact(widths, 185, 380, SpriteHeight, Spacing);
    assert widths[..0] == [];
    assert r[0] == Rect(185, 380, 150, 150);
  }
}
