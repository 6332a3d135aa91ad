/** The row of character sprites: every sprite is scaled to one height, the
    sprites are laid out left to right in their given order with a fixed gap
    between neighbours, and the row as a whole is centred on the canvas. */
module Row {
  import opened Geometry

  /** Height every sprite of the row is scaled to (`animH`). */
  const SpriteHeight: nat := 150
  /** Gap in pixels between two neighbouring sprites (`spacing`). */
  const Spacing: int := 20
  /** Natural size assumed for a sprite whose texture failed to load. */
  const FallbackSize: Size := Size(100, 100)

  /** A sprite slot: either a loaded texture with its natural size, or a
      texture that failed to load (a null pointer in the program). */
  datatype Texture = Missing | Loaded(size: Size)

  /** The natural size the layout uses for a slot: the queried size, or the
      100x100 default when the texture is missing. */
  function NaturalSize(t: Texture): Size
  {
    match t
    case Missing => FallbackSize
    case Loaded(s) => s
  }

  /** A slot the layout can scale without dividing by zero. */
  predicate ValidTexture(t: Texture)
  {
    t.Missing? || t.size.height > 0
  }

  predicate AllValid(ts: seq<Texture>)
  {
    forall i :: 0 <= i < |ts| ==> ValidTexture(ts[i])
  }

  /** The display width of each sprite after scaling to `SpriteHeight`. */
  function SpriteWidths(ts: seq<Texture>): seq<int>
    requires AllValid(ts)
  {
    seq(|ts|, i requires 0 <= i < |ts| => ScaleToHeight(NaturalSize(ts[i]), SpriteHeight).width)
  }

  /** Sum of a sequence, peeling the last element so that the sum of a prefix
      grows by exactly the next element. */
  function Sum(s: seq<int>): int
  {
    if |s| == 0 then 0 else Sum(s[..|s| - 1]) + s[|s| - 1]
  }

  lemma SumPrefix(s: seq<int>, i: nat)
    requires i < |s|
    ensures Sum(s[..i + 1]) == Sum(s[..i]) + s[i]
  {
    assert s[..i + 1][..i] == s[..i];
  }

  lemma {:induction false} SumFront(s: seq<int>)
    requires |s| > 0
    ensures Sum(s) == s[0] + Sum(s[1..])
  {
    if |s| == 1 {
      assert s[..0] == [];
      assert s[1..] == [];
    } else {
      var t := s[..|s| - 1];
      SumFront(t);
      assert t[1..] == s[1..][..|s[1..]| - 1];
    }
  }

  /** Width the whole row occupies: the sprites plus one gap between each
      pair of neighbours (`totalWidth`). */
  function RowWidth(widths: seq<int>, gap: int): int
  {
    Sum(widths) + gap * (|widths| - 1)
  }

  /** Places boxes of the given widths left to right, the first at `x` and
      each next one `gap` pixels after the previous one's right edge, all on
      row `y` with height `h`. */
  function PlaceRow(widths: seq<int>, x: int, y: int, h: int, gap: int): (r: seq<Rect>)
    ensures |r| == |widths|
    ensures forall i :: 0 <= i < |r| ==>
              r[i] == Rect(x + Sum(widths[..i]) + gap * i, y, widths[i], h)
    decreases |widths|
  {
    if |widths| == 0 then []
    else
      var rest := PlaceRow(widths[1..], x + widths[0] + gap, y, h, gap);
      PrefixSumsShift(widths);
      [Rect(x, y, widths[0], h)] + rest
  }

  /** The prefix sums of `ws` are those of `ws[1..]` shifted by `ws[0]`. */
  lemma PrefixSumsShift(ws: seq<int>)
    requires |ws| > 0
    ensures forall i :: 1 <= i <= |ws| ==> Sum(ws[..i]) == ws[0] + Sum(ws[1..][..i - 1])
  {
    forall i | 1 <= i <= |ws|
      ensures Sum(ws[..i]) == ws[0] + Sum(ws[1..][..i - 1])
    {
      SumFront(ws[..i]);
      assert ws[..i][1..] == ws[1..][..i - 1];
    }
    assert ws[..0] == [];
  }

  /** Neighbouring boxes are exactly `gap` pixels apart, in input order. */
  lemma GapsExact(widths: seq<int>, x: int, y: int, h: int, gap: int)
    ensures var r := PlaceRow(widths, x, y, h, gap);
            forall i :: 0 <= i < |r| - 1 ==> r[i + 1].x == r[i].Right() + gap
  {
    var r := PlaceRow(widths, x, y, h, gap);
    forall i | 0 <= i < |r| - 1
      ensures r[i + 1].x == r[i].Right() + gap
    {
      SumPrefix(widths, i);
    }
  }

  /** The placed boxes span exactly `RowWidth`: the last right edge is the
      first x plus the row width. */
  lemma SpanIsRowWidth(widths: seq<int>, x: int, y: int, h: int, gap: int)
    requires |widths| > 0
    ensures var r := PlaceRow(widths, x, y, h, gap);
            r[|r| - 1].Right() == x + RowWidth(widths, gap)
  {
    var n := |widths|;
    var r := PlaceRow(widths, x, y, h, gap);
    var last := r[n - 1];
    assert last.x == x + Sum(widths[..n - 1]) + gap * (n - 1);
    assert last.w == widths[n - 1];
    SumPrefix(widths, n - 1);
    assert widths[..n] == widths;
    assert Sum(widths) == Sum(widths[..n - 1]) + widths[n - 1];
  }

  /** The rectangles of the sprite row at height `y` on a canvas of width
      `canvasWidth`: the sprites scaled and placed in order, the row centred. */
  function RowLayout(ts: seq<Texture>, canvasWidth: int, y: int): seq<Rect>
    requires AllValid(ts)
  {
    var widths := SpriteWidths(ts);
    PlaceRow(widths, CenterX(canvasWidth, RowWidth(widths, Spacing)), y, SpriteHeight, Spacing)
  }

  /** Every slot gets one rectangle on row `y`, of height `SpriteHeight`,
      with the aspect ratio of the slot's natural size up to truncation. */
  lemma RowItemsScaled(ts: seq<Texture>, canvasWidth: int, y: int)
    requires AllValid(ts)
    ensures var r := RowLayout(ts, canvasWidth, y);
            && |r| == |ts|
            && forall i :: 0 <= i < |r| ==>
                 var n := NaturalSize(ts[i]);
                 && r[i].y == y && r[i].h == SpriteHeight
                 && r[i].w * n.height <= n.width * SpriteHeight < (r[i].w + 1) * n.height
                 && (ts[i].Missing? ==> r[i].w == SpriteHeight)
  {
    var widths := SpriteWidths(ts);
    var r := RowLayout(ts, canvasWidth, y);
    forall i | 0 <= i < |r|
      ensures var n := NaturalSize(ts[i]);
              && r[i].y == y && r[i].h == SpriteHeight
              && r[i].w * n.height <= n.width * SpriteHeight < (r[i].w + 1) * n.height
              && (ts[i].Missing? ==> r[i].w == SpriteHeight)
    {
      assert r[i].w == widths[i];
      SlotScaled(ts[i]);
    }
  }

  /** One slot's scaled width keeps its aspect ratio; a missing texture's
      fallback square becomes `SpriteHeight` wide. */
  lemma SlotScaled(t: Texture)
    requires ValidTexture(t)
    ensures var n := NaturalSize(t);
            var w := ScaleToHeight(n, SpriteHeight).width;
            && w * n.height <= n.width * SpriteHeight < (w + 1) * n.height
            && (t.Missing? ==> w == SpriteHeight)
  {
  }

  /** Neighbouring sprites are exactly `Spacing` apart, in slot order. */
  lemma RowSpacing(ts: seq<Texture>, canvasWidth: int, y: int)
    requires AllValid(ts)
    ensures var r := RowLayout(ts, canvasWidth, y);
            forall i :: 0 <= i < |r| - 1 ==> r[i + 1].x == r[i].Right() + Spacing
  {
    var widths := SpriteWidths(ts);
    var x := CenterX(canvasWidth, RowWidth(widths, Spacing));
    assert RowLayout(ts, canvasWidth, y) == PlaceRow(widths, x, y, SpriteHeight, Spacing);
    GapsExact(widths, x, y, SpriteHeight, Spacing);
  }

  /** The row spans `totalWidth` from the first sprite's left edge to the
      last one's right edge, and that span is centred on the canvas. */
  lemma RowCentred(ts: seq<Texture>, canvasWidth: int, y: int)
    requires AllValid(ts)
    requires |ts| > 0
    ensures var r := RowLayout(ts, canvasWidth, y);
            var span := r[|r| - 1].Right() - r[0].x;
            && span == RowWidth(SpriteWidths(ts), Spacing)
            && CentredIn(Rect(r[0].x, y, span, SpriteHeight), canvasWidth)
  {
    var widths := SpriteWidths(ts);
    var total := RowWidth(widths, Spacing);
    var x := CenterX(canvasWidth, total);
    var r := PlaceRow(widths, x, y, SpriteHeight, Spacing);
    SpanIsRowWidth(widths, x, y, SpriteHeight, Spacing);
    assert widths[..0] == [];
    assert r[0].x == x;
    assert r[|r| - 1].Right() - r[0].x == total;
    assert CentredIn(Rect(x, 0, total, 0), canvasWidth);
  }

  /** A row of one sprite sits at the centring x of that sprite alone: the
      spacing plays no part in it. */
  lemma SingleSpriteCentred(t: Texture, canvasWidth: int, y: int)
    requires ValidTexture(t)
    ensures var r := RowLayout([t], canvasWidth, y);
            r[0].x == CenterX(canvasWidth, ScaleToHeight(NaturalSize(t), SpriteHeight).width)
  {
    var widths := SpriteWidths([t]);
    assert widths[..0] == [];
    assert widths == [widths[0]];
    assert Sum(widths) == Sum(widths[..0]) + widths[0];
  }

  /** Truncation can give a sprite no width at all: a sprite more than 150
      times as tall as it is wide is scaled to width zero. */
  lemma ThinSpriteVanishes(canvasWidth: int, y: int)
    ensures RowLayout([Loaded(Size(1, 151))], canvasWidth, y)[0].w == 0
  {
    RowItemsScaled([Loaded(Size(1, 151))], canvasWidth, y);
  }

  /** The program's first loop: every slot's rectangle gets the row height
      and its scaled width, and the widths are totalled. */
  method ScaleSprites(ts: seq<Texture>) returns (rects: seq<Rect>, sumWidths: int)
    requires AllValid(ts)
    ensures |rects| == |ts|
    ensures forall j :: 0 <= j < |ts| ==>
              rects[j].h == SpriteHeight && rects[j].w == SpriteWidths(ts)[j]
    ensures sumWidths == Sum(SpriteWidths(ts))
  {
    var n := |ts|;
    ghost var widths := SpriteWidths(ts);
    rects := seq(n, _ => Rect(0, 0, 0, 0));
    sumWidths := 0;
    var i := 0;
    while i < n
      invariant 0 <= i <= n && |rects| == n
      invariant sumWidths == Sum(widths[..i])
      invariant forall j :: 0 <= j < i ==> rects[j].h == SpriteHeight && rects[j].w == widths[j]
    {
      var natural := NaturalSize(ts[i]);
      var w := TruncDiv(natural.width * SpriteHeight, natural.height);
      assert w == widths[i];
      rects := rects[i := rects[i].(h := SpriteHeight, w := w)];
      SumPrefix(widths, i);
      sumWidths := sumWidths + w;
      i := i + 1;
    }
    assert widths[..n] == widths;
  }

  /** The program's second loop: a running x starts at `startX` and moves on
      by each rectangle's width plus `Spacing`; every rectangle takes the
      running x and row `rowY` and keeps its size. */
  method PositionSprites(sized: seq<Rect>, ghost widths: seq<int>, startX: int, rowY: int) returns (rects: seq<Rect>)
    requires |sized| == |widths|
    requires forall j :: 0 <= j < |sized| ==> sized[j].h == SpriteHeight && sized[j].w == widths[j]
    ensures rects == PlaceRow(widths, startX, rowY, SpriteHeight, Spacing)
  {
    var n := |sized|;
    rects := sized;
    var currentX := startX;
    var i := 0;
    while i < n
      invariant 0 <= i <= n && |rects| == n
      invariant forall j :: i <= j < n ==> rects[j] == sized[j]
      invariant currentX == startX + Sum(widths[..i]) + Spacing * i
      invariant forall j :: 0 <= j < i ==>
                  rects[j] == Rect(startX + Sum(widths[..j]) + Spacing * j, rowY, widths[j], SpriteHeight)
    {
      rects := rects[i := rects[i].(x := currentX, y := rowY)];
      SumPrefix(widths, i);
      currentX := currentX + rects[i].w + Spacing;
      i := i + 1;
    }
    ghost var expected := PlaceRow(widths, startX, rowY, SpriteHeight, Spacing);
    assert forall j :: 0 <= j < n ==> rects[j] == expected[j];
  }

  /** The row as the program computes it: scale and total, add the gaps,
      centre, then place. The result is the row `RowLayout` describes and
      `totalWidth` is its width. */
  method LayoutRow(ts: seq<Texture>, canvasWidth: int, rowY: int) returns (rects: seq<Rect>, totalWidth: int)
    requires AllValid(ts)
    ensures totalWidth == RowWidth(SpriteWidths(ts), Spacing)
    ensures rects == RowLayout(ts, canvasWidth, rowY)
  {
    var sized;
    sized, totalWidth := ScaleSprites(ts);
    totalWidth := totalWidth + Spacing * (|ts| - 1);
    var startX := CenterX(canvasWidth, totalWidth);
    rects := PositionSprites(sized, SpriteWidths(ts), startX, rowY);
  }
}
