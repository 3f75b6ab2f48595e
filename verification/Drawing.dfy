/** The pure parts of the drawing component: which silhouette to load, the
    seven tools, the stroke styles, the shape geometry of a preview, and the
    surface itself, written as the list of drawing commands issued since it
    was last cleared. */
module Drawing {
  import opened Subject

  /** The four silhouette images. */
  datatype Asset = MaleFront | MaleBack | FemaleFront | FemaleBack

  function AssetGender(a: Asset): Gender {
    match a
    case MaleFront | MaleBack => Male
    case FemaleFront | FemaleBack => Female
  }

  function AssetView(a: Asset): View {
    match a
    case MaleFront | FemaleFront => Front
    case MaleBack | FemaleBack => Back
  }

  /** The image loaded for a selection: the one showing that gender from
      that side, so different selections load different images. */
  function ImageSource(g: Gender, v: View): (a: Asset)
    ensures AssetGender(a) == g && AssetView(a) == v
  {
    match (g, v)
    case (Male, Front) => MaleFront
    case (Male, Back) => MaleBack
    case (Female, Front) => FemaleFront
    case (Female, Back) => FemaleBack
  }

  /** Every image is the one loaded for its own selection. */
  lemma ImageSourceOnto(a: Asset)
    ensures ImageSource(AssetGender(a), AssetView(a)) == a
  {
  }

  /** The tools the palette offers. */
  datatype Tool = Pencil | Circle | Square | Triangle | Arrow | Text | Eraser

  /** Pencil and eraser paint segment by segment; every other tool previews. */
  predicate IsFreehand(t: Tool) {
    t == Pencil || t == Eraser
  }

  /** The tools that draw a shape from the stroke's start to the pointer. */
  predicate IsShape(t: Tool) {
    t == Circle || t == Square || t == Triangle || t == Arrow
  }

  datatype Point = Point(x: int, y: int)

  datatype Style = Style(color: string, width: nat)

  const EraserColor: string := "#ffffff"
  const EraserWidth: nat := 20
  const LineWidth: nat := 3

  /** The stroke of a freehand segment: the eraser paints the white page
      colour, wide, whatever colour is selected; other tools paint the
      selected colour at the standard width. */
  function FreehandStyle(tool: Tool, color: string): (s: Style)
    ensures tool == Eraser ==> s == Style(EraserColor, EraserWidth)
    ensures tool != Eraser ==> s == Style(color, LineWidth)
  {
    Style(if tool == Eraser then EraserColor else color, if tool == Eraser then EraserWidth else LineWidth)
  }

  /** One drawing command on the surface. Circle radius and arrowhead angles
      are kept as the two points they are computed from. */
  datatype Cmd =
    | BodyImage(asset: Asset)                        // the loaded silhouette, stretched over the surface
    | Outline(view: View)                            // the procedural fallback silhouette
    | Segment(from: Point, to: Point, style: Style)  // a round-capped line
    | Ring(center: Point, through: Point, style: Style)
    | Rect(corner: Point, width: int, height: int, style: Style)
    | Polygon(vertices: seq<Point>, style: Style)    // a closed path
    | ArrowShape(from: Point, to: Point, style: Style)
    | Label(text: string, at: Point, color: string)  // 16px filled text

  /** What the surface shows: the commands drawn since it was last cleared. */
  type Picture = seq<Cmd>

  /** A serialised copy of the whole surface; decoding it gives the picture back. */
  datatype Snapshot = Snapshot(picture: Picture)

  /** The square tool's rectangle: anchored at the stroke's start with signed
      sides, so its opposite corner is the pointer, in whichever quadrant. */
  function SquareRect(s: Point, p: Point, style: Style): (c: Cmd)
    ensures c.Rect? && c.corner == s && c.style == style
    ensures c.corner.x + c.width == p.x && c.corner.y + c.height == p.y
  {
    Rect(s, p.x - s.x, p.y - s.y, style)
  }

  /** The reflection of p in the vertical line through s. */
  function Mirror(s: Point, p: Point): (m: Point)
    ensures m.y == p.y && m.x - s.x == s.x - p.x
  {
    Point(s.x - (p.x - s.x), p.y)
  }

  lemma MirrorTwice(s: Point, p: Point)
    ensures Mirror(s, Mirror(s, p)) == p
  {
  }

  function SquaredDistance(a: Point, b: Point): (d: nat) {
    (a.x - b.x) * (a.x - b.x) + (a.y - b.y) * (a.y - b.y)
  }

  /** The triangle tool's vertices: the start, the pointer and the pointer's
      mirror image across the start, so both sides meeting at the start are
      equally long. */
  function TriangleVertices(s: Point, p: Point): (vs: seq<Point>)
    ensures |vs| == 3 && vs[0] == s && vs[1] == p && vs[2] == Mirror(s, p)
    ensures SquaredDistance(s, vs[1]) == SquaredDistance(s, vs[2])
  {
    [s, p, Mirror(s, p)]
  }

  /** The shape a preview frame draws on top of the restored base: one shape
      for the four shape tools, in the selected colour at the standard width,
      and nothing for the text tool (its path stays empty). */
  function Preview(tool: Tool, s: Point, p: Point, color: string): (r: Picture)
    requires !IsFreehand(tool)
    ensures |r| == (if IsShape(tool) then 1 else 0)
    ensures tool == Circle ==> r == [Ring(s, p, Style(color, LineWidth))]
    ensures tool == Square ==> r == [SquareRect(s, p, Style(color, LineWidth))]
    ensures tool == Triangle ==> r == [Polygon(TriangleVertices(s, p), Style(color, LineWidth))]
    ensures tool == Arrow ==> r == [ArrowShape(s, p, Style(color, LineWidth))]
  {
    var style := Style(color, LineWidth);
    match tool
    case Circle => [Ring(s, p, style)]
    case Square => [SquareRect(s, p, style)]
    case Triangle => [Polygon(TriangleVertices(s, p), style)]
    case Arrow => [ArrowShape(s, p, style)]
    case Text => []
  }

  /** A preview determines the shape it was drawn for: for two pointer
      positions that make the tool draw different shapes, the shape drawn for
      one is not in the preview drawn for the other. The circle depends on
      the pointer only through its distance from the start, and the closed
      triangle is the same for the pointer and its mirror image. */
  lemma PreviewDeterminesPointer(tool: Tool, s: Point, p: Point, q: Point, color: string)
    requires IsShape(tool) && p != q
    requires tool == Circle ==> SquaredDistance(s, p) != SquaredDistance(s, q)
    requires tool == Triangle ==> q != Mirror(s, p)
    ensures Preview(tool, s, p, color)[0] !in Preview(tool, s, q, color)
  {
  }

  /** The circle tool's radius is the distance from the start to the pointer;
      it is kept squared, as the square root is floating point. */
  function RingRadiusSquared(c: Cmd): (d: nat)
    requires c.Ring?
    ensures d == 0 <==> c.center == c.through
  {
    SquaredDistance(c.center, c.through)
  }
}
