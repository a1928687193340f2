/** Style properties of SVG nodes: each saves painter state in its own fields when applied and writes
    it back when reverted. */
module SvgStyles {
  import opened Wrappers
  import opened Pens

  datatype Font = Font(family: string, pointSize: real, style: int, weight: int)

  /** One coordinate of a point under an affine transformation. */
  function Along(x: real, y: real, a: real, b: real, c: real): real {
    x * a + y * b + c
  }

  /** An affine transformation. */
  datatype Transform = Transform(m11: real, m12: real, m21: real, m22: real, dx: real, dy: real)
  {
    /** Moves the origin by a vector given in the transformed coordinates. */
    function Translated(x: real, y: real): Transform {
      this.(dx := Along(x, y, m11, m21, dx), dy := Along(x, y, m12, m22, dy))
    }

    /** First `this`, then `other`. */
    function Then(other: Transform): Transform {
      Transform(
        Along(m11, m12, other.m11, other.m21, 0.0), Along(m11, m12, other.m12, other.m22, 0.0),
        Along(m21, m22, other.m11, other.m21, 0.0), Along(m21, m22, other.m12, other.m22, 0.0),
        Along(dx, dy, other.m11, other.m21, other.dx), Along(dx, dy, other.m12, other.m22, other.dy))
    }
  }

  datatype Point = Point(x: real, y: real)

  /** Where a transformation takes a point. */
  function Mapped(t: Transform, p: Point): Point {
    Point(Along(p.x, p.y, t.m11, t.m21, t.dx), Along(p.x, p.y, t.m12, t.m22, t.dy))
  }

  /** One transformation then another is what it says, for every point. */
  lemma ThenMaps(t: Transform, u: Transform, p: Point)
    ensures Mapped(t.Then(u), p) == Mapped(u, Mapped(t, p))
  {
    hide Along;
    AlongTwice(p.x, p.y, t.m11, t.m12, t.m21, t.m22, t.dx, t.dy, u.m11, u.m21, u.dx);
    AlongTwice(p.x, p.y, t.m11, t.m12, t.m21, t.m22, t.dx, t.dy, u.m12, u.m22, u.dy);
  }

  lemma AlongTwice(x: real, y: real, a: real, b: real, c: real, d: real, e: real, f: real, u: real, v: real, w: real)
    ensures Along(x, y, Along(a, b, u, v, 0.0), Along(c, d, u, v, 0.0), Along(e, f, u, v, w))
      == Along(Along(x, y, a, c, e), Along(x, y, b, d, f), u, v, w)
  {
    Sum(x, a, b, u, v);
    Sum(y, c, d, u, v);
    Total(x * a, y * c, e, u);
    Total(x * b, y * d, f, v);
  }

  lemma Sum(x: real, a: real, b: real, u: real, v: real)
    ensures x * (a * u + b * v + 0.0) == (x * a) * u + (x * b) * v
  {
    Multiplied(x, a, u);
    Multiplied(x, b, v);
  }

  lemma Multiplied(x: real, a: real, u: real)
    ensures x * (a * u) == (x * a) * u
  {}

  lemma Total(x: real, y: real, z: real, u: real)
    ensures (x + y + z) * u == x * u + y * u + z * u
  {}

  /** A translated transformation moves points before it maps them. */
  lemma TranslatedMaps(t: Transform, x: real, y: real, p: Point)
    ensures Mapped(t.Translated(x, y), p) == Mapped(t, Point(p.x + x, p.y + y))
  {
    hide Along;
    AlongMoved(p.x, p.y, x, y, t.m11, t.m21, t.dx);
    AlongMoved(p.x, p.y, x, y, t.m12, t.m22, t.dy);
  }

  lemma AlongMoved(x: real, y: real, right: real, down: real, a: real, b: real, c: real)
    ensures Along(x, y, a, b, Along(right, down, a, b, c)) == Along(x + right, y + down, a, b, c)
  {
    Total(x, right, 0.0, a);
    Total(y, down, 0.0, b);
  }

  /** What a painter remembers. */
  datatype Paints = Paints(brush: Brush, pen: Pen, font: Font, opacity: real, transform: Transform, mode: int)
  {
    predicate SameButBrush(other: Paints) {
      this == other.(brush := brush)
    }
  }

  datatype Extra = Extra(
    fillOpacity: real, strokeOpacity: real, svgFont: int, textAnchor: int, fontWeight: int,
    fillRule: int, strokeDashOffset: real, vectorEffect: bool)

  function Clamp(x: real): real {
    if x < 0.0 then 0.0 else if x > 1.0 then 1.0 else x
  }

  /** The value between zero and one that comes closest. */
  lemma ClampIsNearest(x: real, y: real)
    requires 0.0 <= y <= 1.0
    ensures 0.0 <= Clamp(x) <= 1.0 && Abs(x - Clamp(x)) <= Abs(x - y)
    ensures 0.0 <= x <= 1.0 ==> Clamp(x) == x
  {}

  function Faded(opacity: real, factor: real): real {
    Clamp(opacity * factor)
  }

  /** How one span of a text is to look. */
  datatype Format = Format(font: Font, outline: Pen, foreground: Brush)

  datatype Ink = Filling | Stroking | Picture | Writing(formats: seq<Format>)

  /** One painting command: for which figure, how, and with which state of the painter. */
  datatype Command = Command(figure: nat, ink: Ink, paints: Paints)

  class Painter {
    var state: Paints
    /** The painting commands so far. */
    var painted: seq<Command>

    /** The opacity of a painter is always between zero and one. */
    ghost predicate Valid()
      reads this
    {
      0.0 <= state.opacity <= 1.0
    }

    constructor (state: Paints)
      requires 0.0 <= state.opacity <= 1.0
      ensures Valid() && this.state == state && painted == []
    {
      this.state, painted := state, [];
    }

    /** Any painting command. */
    method Paint(figure: nat, ink: Ink)
      modifies this`painted
      ensures painted == old(painted) + [Command(figure, ink, state)]
    {
      painted := painted + [Command(figure, ink, state)];
    }

    method SetOpacity(opacity: real)
      modifies this`state
      ensures Valid() && state == old(state).(opacity := Clamp(opacity))
    {
      state := state.(opacity := Clamp(opacity));
    }

    method Fade(opacity: real, factor: real)
      modifies this`state
      ensures Valid() && state == old(state).(opacity := Faded(opacity, factor))
    {
      SetOpacity(opacity * factor);
    }

    method SetBrush(brush: Brush)
      modifies this`state
      ensures state == old(state).(brush := brush)
    {
      state := state.(brush := brush);
    }

    method SetPen(pen: Pen)
      modifies this`state
      ensures state == old(state).(pen := pen)
    {
      state := state.(pen := pen);
    }

    /** setPen for no pen, which leaves a pen without a line as it is. */
    method ClearPen()
      modifies this`state
      ensures state == old(state).(pen := Penless(old(state.pen)))
    {
      if state.pen.style == NoPen {
        return;
      }
      SetPen(NO_PEN);
    }
  }

  class States {
    var state: Extra

    constructor ()
      ensures state == Extra(1.0, 1.0, 0, 0, 400, 0, 0.0, false)
    {
      state := Extra(1.0, 1.0, 0, 0, 400, 0, 0.0, false);
    }
  }

  class FillStyle {
    const fill: Brush
    /** The brush of a gradient or solid colour, if the fill refers to one. */
    const style: Option<Brush>
    const fillSet: bool
    const fillRule: Option<int>
    const fillOpacity: Option<real>
    var oldFill: Brush
    var oldFillRule: int
    var oldFillOpacity: real

    constructor (fill: Brush, style: Option<Brush>, fillSet: bool, fillRule: Option<int>, fillOpacity: Option<real>)
      ensures this.fill == fill && this.style == style && this.fillSet == fillSet
      ensures this.fillRule == fillRule && this.fillOpacity == fillOpacity
    {
      this.fill, this.style, this.fillSet := fill, style, fillSet;
      this.fillRule, this.fillOpacity := fillRule, fillOpacity;
      oldFill, oldFillRule, oldFillOpacity := NoBrush, 0, 0.0;
    }

    function Paint(): Brush {
      if style.Some? then style.value else fill
    }

    method Apply(p: Painter, s: States)
      modifies this, p`state, s
      ensures oldFill == old(p.state.brush) && oldFillRule == old(s.state.fillRule) && oldFillOpacity == old(s.state.fillOpacity)
      ensures p.state == old(p.state).(brush := if fillSet then Paint() else old(p.state.brush))
      ensures s.state == old(s.state).(
        fillRule := if fillRule.Some? then fillRule.value else old(s.state.fillRule),
        fillOpacity := if fillOpacity.Some? then fillOpacity.value else old(s.state.fillOpacity))
    {
      oldFill := p.state.brush;
      oldFillRule := s.state.fillRule;
      oldFillOpacity := s.state.fillOpacity;
      if fillRule.Some? {
        s.state := s.state.(fillRule := fillRule.value);
      }
      if fillSet {
        if style.Some? {
          p.SetBrush(style.value);
        } else {
          p.SetBrush(fill);
        }
      }
      if fillOpacity.Some? {
        s.state := s.state.(fillOpacity := fillOpacity.value);
      }
    }

    method Revert(p: Painter, s: States)
      modifies p`state, s
      ensures p.state == old(p.state).(brush := if fillSet then oldFill else old(p.state.brush))
      ensures s.state == old(s.state).(
        fillRule := if fillRule.Some? then oldFillRule else old(s.state.fillRule),
        fillOpacity := if fillOpacity.Some? then oldFillOpacity else old(s.state.fillOpacity))
    {
      if fillOpacity.Some? {
        s.state := s.state.(fillOpacity := oldFillOpacity);
      }
      if fillSet {
        p.SetBrush(oldFill);
      }
      if fillRule.Some? {
        s.state := s.state.(fillRule := oldFillRule);
      }
    }
  }

  class ViewportFillStyle {
    const viewportFill: Brush
    var oldFill: Brush

    constructor (brush: Brush)
      ensures viewportFill == brush
    {
      viewportFill, oldFill := brush, NoBrush;
    }

    method Apply(p: Painter)
      modifies this, p`state
      ensures oldFill == old(p.state.brush) && p.state == old(p.state).(brush := viewportFill)
    {
      oldFill := p.state.brush;
      p.SetBrush(viewportFill);
    }

    method Revert(p: Painter)
      modifies p`state
      ensures p.state == old(p.state).(brush := oldFill)
    {
      p.SetBrush(oldFill);
    }
  }

  const LIGHTER := -1
  const BOLDER := 1

  /** Font weights of SVG and of Qt. */
  function QtWeight(weight: int): int {
    match weight
    case 100 => 25
    case 200 => 25
    case 500 => 63
    case 600 => 63
    case 700 => 75
    case 800 => 75
    case 900 => 87
    case _ => 50
  }

  function NewWeight(weight: int, before: int): int {
    if weight == BOLDER then (if before + 100 < 900 then before + 100 else 900)
    else if weight == LIGHTER then (if before - 100 > 100 then before - 100 else 100)
    else weight
  }

  /** Bolder is bolder and lighter is lighter, up to the ends; in between one undoes the other. */
  lemma RelativeWeights(before: int)
    requires 100 <= before <= 900
    ensures before <= NewWeight(BOLDER, before) <= 900 && 100 <= NewWeight(LIGHTER, before) <= before
    ensures before <= 800 ==> NewWeight(LIGHTER, NewWeight(BOLDER, before)) == before < NewWeight(BOLDER, before)
    ensures before >= 200 ==> NewWeight(BOLDER, NewWeight(LIGHTER, before)) == before > NewWeight(LIGHTER, before)
  {}

  /** Light up to 200, then normal, demi-bold, bold and black; whatever is no SVG weight is normal. */
  lemma WeightClasses(weight: int)
    ensures weight in [100, 200, 300, 400, 500, 600, 700, 800, 900] ==>
      QtWeight(weight) == if weight > 800 then 87 else if weight > 600 then 75 else if weight > 400 then 63
                          else if weight > 200 then 50 else 25
    ensures weight !in [100, 200, 300, 400, 500, 600, 700, 800, 900] ==> QtWeight(weight) == 50
  {}

  class FontStyle {
    const family: Option<string>
    const svgFont: int
    const size: Option<real>
    const style: Option<int>
    const weight: Option<int>
    const textAnchor: Option<int>
    var oldFont: Font
    var oldSvgFont: int
    var oldTextAnchor: int
    var oldWeight: int

    constructor (family: Option<string>, svgFont: int, size: Option<real>, style: Option<int>,
      weight: Option<int>, textAnchor: Option<int>)
      ensures this.family == family && this.svgFont == svgFont && this.size == size
      ensures this.style == style && this.weight == weight && this.textAnchor == textAnchor
    {
      this.family, this.svgFont, this.size := family, svgFont, size;
      this.style, this.weight, this.textAnchor := style, weight, textAnchor;
      oldFont, oldSvgFont, oldTextAnchor, oldWeight := Font("", 0.0, 0, 0), 0, 0, 0;
    }

    method Apply(p: Painter, s: States)
      modifies this, p`state, s
      ensures oldFont == old(p.state.font) && oldSvgFont == old(s.state.svgFont)
      ensures oldTextAnchor == old(s.state.textAnchor) && oldWeight == old(s.state.fontWeight)
      ensures p.state == old(p.state).(font := Font(
        if family.Some? then family.value else old(p.state.font.family),
        if size.Some? then size.value else old(p.state.font.pointSize),
        if style.Some? then style.value else old(p.state.font.style),
        if weight.Some? then QtWeight(NewWeight(weight.value, old(s.state.fontWeight))) else old(p.state.font.weight)))
      ensures s.state == old(s.state).(
        svgFont := if family.Some? then svgFont else old(s.state.svgFont),
        textAnchor := if textAnchor.Some? then textAnchor.value else old(s.state.textAnchor),
        fontWeight := if weight.Some? then NewWeight(weight.value, old(s.state.fontWeight)) else old(s.state.fontWeight))
      ensures 100 <= old(s.state.fontWeight) <= 900 && (weight.Some? ==> weight.value in {BOLDER, LIGHTER} || 100 <= weight.value <= 900)
        ==> 100 <= s.state.fontWeight <= 900
    {
      oldFont, oldSvgFont := p.state.font, s.state.svgFont;
      oldTextAnchor, oldWeight := s.state.textAnchor, s.state.fontWeight;
      if textAnchor.Some? {
        s.state := s.state.(textAnchor := textAnchor.value);
      }
      var font := oldFont;
      if family.Some? {
        s.state := s.state.(svgFont := svgFont);
        font := font.(family := family.value);
      }
      if size.Some? {
        font := font.(pointSize := size.value);
      }
      if style.Some? {
        font := font.(style := style.value);
      }
      if weight.Some? {
        s.state := s.state.(fontWeight := NewWeight(weight.value, s.state.fontWeight));
        font := font.(weight := QtWeight(s.state.fontWeight));
      }
      p.state := p.state.(font := font);
    }

    method Revert(p: Painter, s: States)
      modifies p`state, s
      ensures p.state == old(p.state).(font := oldFont)
      ensures s.state == old(s.state).(svgFont := oldSvgFont, textAnchor := oldTextAnchor, fontWeight := oldWeight)
    {
      p.state := p.state.(font := oldFont);
      s.state := s.state.(svgFont := oldSvgFont, textAnchor := oldTextAnchor, fontWeight := oldWeight);
    }
  }

  function Scaled(dashes: seq<real>, factor: real): seq<real> {
    seq(|dashes|, i requires 0 <= i < |dashes| => dashes[i] * factor)
  }

  function Divided(dashes: seq<real>, width: real): seq<real>
    requires width != 0.0
  {
    seq(|dashes|, i requires 0 <= i < |dashes| => dashes[i] / width)
  }

  function WidthOrOne(width: real): real {
    if width == 0.0 then 1.0 else width
  }

  /** The pen of a style with a dash array, which is given in user units: setDashArray. */
  function WithDashArray(stroke: Pen, widthSet: bool, lengths: seq<real>): Pen {
    WithPattern(stroke, if widthSet && stroke.width != 0.0 && stroke.width != 1.0 then Divided(lengths, stroke.width) else lengths)
  }

  class StrokeStyle {
    const stroke: Pen
    const style: Option<Brush>
    const strokeSet: bool
    const widthSet: bool
    const dashArraySet: bool
    const lineCapSet: bool
    const lineJoinSet: bool
    const miterLimitSet: bool
    const strokeOpacity: Option<real>
    const dashOffset: Option<real>
    const vectorEffect: Option<bool>
    var oldStroke: Pen
    var oldStrokeOpacity: real
    var oldStrokeDashOffset: real
    var oldVectorEffect: bool

    constructor (stroke: Pen, style: Option<Brush>, strokeSet: bool, widthSet: bool, dashArraySet: bool,
      lineCapSet: bool, lineJoinSet: bool, miterLimitSet: bool,
      strokeOpacity: Option<real>, dashOffset: Option<real>, vectorEffect: Option<bool>)
      ensures this.stroke == stroke && this.style == style && this.strokeSet == strokeSet && this.widthSet == widthSet
      ensures this.dashArraySet == dashArraySet && this.lineCapSet == lineCapSet && this.lineJoinSet == lineJoinSet
      ensures this.miterLimitSet == miterLimitSet && this.strokeOpacity == strokeOpacity
      ensures this.dashOffset == dashOffset && this.vectorEffect == vectorEffect
    {
      this.stroke, this.style, this.strokeSet, this.widthSet := stroke, style, strokeSet, widthSet;
      this.dashArraySet, this.lineCapSet, this.lineJoinSet := dashArraySet, lineCapSet, lineJoinSet;
      this.miterLimitSet, this.strokeOpacity := miterLimitSet, strokeOpacity;
      this.dashOffset, this.vectorEffect := dashOffset, vectorEffect;
      oldStroke, oldStrokeOpacity, oldStrokeDashOffset, oldVectorEffect := NO_PEN, 0.0, 0.0, false;
    }

    function NewBrush(before: Pen): Brush {
      if !strokeSet then before.brush else if style.Some? then style.value else stroke.brush
    }

    function NewWidth(before: Pen): real {
      if widthSet && !SameWidth(before.width, stroke.width) then stroke.width else before.width
    }

    /** The pen with its brush and width, which has lost its dashes if either has changed. */
    function Base(before: Pen): Pen {
      var pen := before.(brush := NewBrush(before), width := NewWidth(before));
      if pen == before then before else pen.(dashes := [])
    }

    /** The dash pattern to set, if any. */
    function Target(before: Pen): seq<real> {
      var oldWidth := WidthOrOne(before.width);
      var scale := oldWidth / WidthOrOne(stroke.width);
      if dashArraySet then
        if widthSet || oldWidth == 1.0 then stroke.Pattern() else Divided(stroke.Pattern(), oldWidth)
      else if widthSet && scale != 1.0 then Scaled(Base(before).Pattern(), scale)
      else []
    }

    predicate BecomesSolid() {
      dashArraySet && stroke.style == SolidLine
    }

    /** Whether the pen gets dashes of its own. */
    predicate OwnDashes(before: Pen) {
      TakesPattern(Base(before), Target(before))
    }

    predicate NeedsOffset(before: Pen) {
      || dashOffset.Some?
      || (dashArraySet && stroke.style != SolidLine)
      || (!dashArraySet && widthSet && before.style != SolidLine && WidthOrOne(before.width) / WidthOrOne(stroke.width) != 1.0)
    }

    function DashedStyle(before: Pen): PenStyle {
      if BecomesSolid() then SolidLine else if OwnDashes(before) then CustomDashLine else before.style
    }

    /** The pen after its dash pattern has been set. */
    predicate IsDashed(pen: Pen, shared: bool, before: Pen) {
      && pen == before.(brush := NewBrush(before), width := NewWidth(before), style := DashedStyle(before),
        dashes := pen.dashes, dashOffset := if BecomesSolid() && before.style != SolidLine then 0.0 else before.dashOffset)
      && HasDashes(pen, shared, before)
    }

    predicate HasDashes(pen: Pen, shared: bool, before: Pen) {
      if OwnDashes(before) then pen.dashes == Even(Target(before)) && !shared && pen.style == CustomDashLine
      else Follows(pen, shared, before)
    }

    method SetBase(copy: CopiedPen)
      requires copy.shared
      modifies copy
      ensures copy.pen == Base(old(copy.pen)) && (copy.shared <==> Base(old(copy.pen)) == old(copy.pen))
    {
      if strokeSet {
        if style.Some? {
          copy.SetBrush(style.value);
        } else {
          copy.SetBrush(stroke.brush);
        }
      }
      if widthSet {
        copy.SetWidth(stroke.width);
      }
    }

    method SetDashes(copy: CopiedPen, before: Pen) returns (needed: bool)
      requires copy.pen == Base(before) && (copy.shared <==> Base(before) == before)
      modifies copy
      ensures IsDashed(copy.pen, copy.shared, before) && needed == NeedsOffset(before)
    {
      var oldWidth := WidthOrOne(before.width);
      var scale := oldWidth / WidthOrOne(stroke.width);
      needed := dashOffset.Some?;
      if dashArraySet {
        if stroke.style == SolidLine {
          copy.SetSolid();
        } else if widthSet || oldWidth == 1.0 {
          copy.SetDashPattern(stroke.Pattern());
          needed := true;
        } else {
          copy.SetDashPattern(Divided(stroke.Pattern(), oldWidth));
          needed := true;
        }
      } else if widthSet && copy.pen.style != SolidLine && scale != 1.0 {
        copy.SetDashPattern(Scaled(copy.pen.Pattern(), scale));
        needed := true;
      }
    }

    method SetEnds(copy: CopiedPen, ghost before: Pen)
      requires HasDashes(copy.pen, copy.shared, before)
      requires copy.pen.cap == before.cap && copy.pen.join == before.join && copy.pen.miterLimit == before.miterLimit
      modifies copy
      ensures copy.pen == old(copy.pen).(
        dashes := copy.pen.dashes,
        cap := if lineCapSet then stroke.cap else before.cap,
        join := if lineJoinSet then stroke.join else before.join,
        miterLimit := if miterLimitSet then stroke.miterLimit else before.miterLimit)
      ensures HasDashes(copy.pen, copy.shared, before)
    {
      hide Target, OwnDashes;
      if lineCapSet {
        copy.SetCap(stroke.cap);
      }
      if lineJoinSet {
        copy.SetJoin(stroke.join);
      }
      if miterLimitSet {
        copy.SetMiterLimit(stroke.miterLimit);
      }
    }

    method SetOffset(copy: CopiedPen, needed: bool, ghost before: Pen, extra: Extra)
      requires HasDashes(copy.pen, copy.shared, before) && needed == NeedsOffset(before)
      requires copy.pen.style == DashedStyle(before)
      requires copy.pen.dashOffset == if BecomesSolid() && before.style != SolidLine then 0.0 else before.dashOffset
      modifies copy
      ensures copy.pen == old(copy.pen).(dashes := copy.pen.dashes, style := copy.pen.style, dashOffset := copy.pen.dashOffset)
      ensures OffsetIs(copy.pen, before, extra)
      ensures HasDashes(copy.pen, copy.shared, before)
    {
      hide Target, OwnDashes, NeedsOffset;
      if needed && copy.pen.style != SolidLine {
        copy.SetDashOffset(extra.strokeDashOffset / WidthOrOne(copy.pen.width));
      }
    }

    method Apply(p: Painter, s: States)
      modifies this, p`state, s
      ensures oldStroke == old(p.state.pen) && oldStrokeOpacity == old(s.state.strokeOpacity)
      ensures oldStrokeDashOffset == old(s.state.strokeDashOffset) && oldVectorEffect == old(s.state.vectorEffect)
      ensures p.state == old(p.state).(pen := p.state.pen)
      ensures s.state == old(s.state).(
        strokeOpacity := if strokeOpacity.Some? then strokeOpacity.value else old(s.state.strokeOpacity),
        strokeDashOffset := if dashOffset.Some? then dashOffset.value else old(s.state.strokeDashOffset),
        vectorEffect := if vectorEffect.Some? then vectorEffect.value else old(s.state.vectorEffect))
      ensures IsStyled(p.state.pen, old(p.state.pen), s.state)
    {
      oldStroke, oldStrokeOpacity := p.state.pen, s.state.strokeOpacity;
      oldStrokeDashOffset, oldVectorEffect := s.state.strokeDashOffset, s.state.vectorEffect;
      s.state := s.state.(
        strokeOpacity := if strokeOpacity.Some? then strokeOpacity.value else s.state.strokeOpacity,
        strokeDashOffset := if dashOffset.Some? then dashOffset.value else s.state.strokeDashOffset,
        vectorEffect := if vectorEffect.Some? then vectorEffect.value else s.state.vectorEffect);
      var pen := StyledPen(p.state.pen, s.state);
      p.SetPen(pen);
    }

    /** Everything about the pen after the style has been applied. It has the dashes set for it; or else
        the old ones if nothing has changed, and none if anything has. */
    predicate IsStyled(pen: Pen, before: Pen, extra: Extra) {
      && pen.brush == NewBrush(before) && pen.width == NewWidth(before)
      && pen.cap == (if lineCapSet then stroke.cap else before.cap)
      && pen.join == (if lineJoinSet then stroke.join else before.join)
      && pen.miterLimit == (if miterLimitSet then stroke.miterLimit else before.miterLimit)
      && pen.cosmetic == extra.vectorEffect
      && OffsetIs(pen, before, extra)
      && pen.dashes == if OwnDashes(before) then Even(Target(before)) else if pen.SameButDashes(before) then before.dashes else []
    }

    /** The only pen for which this holds. */
    function NewPen(before: Pen, extra: Extra): Pen {
      var width := NewWidth(before);
      var offset := extra.strokeDashOffset / WidthOrOne(width);
      var moved := NeedsOffset(before) && DashedStyle(before) != SolidLine && !Close(offset, before.dashOffset);
      var solid := BecomesSolid() && before.style != SolidLine;
      var pen := Pen(NewBrush(before), width,
        if solid then SolidLine else if moved then CustomDashLine else DashedStyle(before), [],
        if solid then 0.0 else if moved then offset else before.dashOffset,
        if lineCapSet then stroke.cap else before.cap,
        if lineJoinSet then stroke.join else before.join,
        if miterLimitSet then stroke.miterLimit else before.miterLimit,
        extra.vectorEffect);
      pen.(dashes := if OwnDashes(before) then Even(Target(before)) else if pen.SameButDashes(before) then before.dashes else [])
    }

    lemma StyledIsNew(pen: Pen, before: Pen, extra: Extra)
      requires IsStyled(pen, before, extra)
      ensures pen == NewPen(before, extra)
    {
      hide Target, OwnDashes, NeedsOffset, Close;
    }

    /** Style and dash offset. */
    predicate OffsetIs(pen: Pen, before: Pen, extra: Extra) {
      var offset := extra.strokeDashOffset / WidthOrOne(pen.width);
      if BecomesSolid() && before.style != SolidLine then pen.style == SolidLine && pen.dashOffset == 0.0
      else if NeedsOffset(before) && DashedStyle(before) != SolidLine && !Close(offset, before.dashOffset) then
        pen.style == CustomDashLine && pen.dashOffset == offset
      else pen.style == DashedStyle(before) && pen.dashOffset == before.dashOffset
    }

    method StyledPen(before: Pen, extra: Extra) returns (pen: Pen)
      ensures IsStyled(pen, before, extra)
    {
      hide Target, OwnDashes, NeedsOffset, Base, NewBrush, NewWidth, DashedStyle, OffsetIs;
      var copy := new CopiedPen(before);
      SetBase(copy);
      var needed := SetDashes(copy, before);
      SetEnds(copy, before);
      SetOffset(copy, needed, before, extra);
      OffsetStays(copy.pen, before, extra);
      copy.SetCosmetic(extra.vectorEffect);
      pen := copy.pen;
    }

    // ---------- what becomes of dashes ----------

    /** The style has been given a dash array, and its pen had no dashes before. */
    predicate GivenArray(lengths: seq<real>) {
      && dashArraySet && lengths != [] && |lengths| % 2 == 0
      && stroke == WithDashArray(stroke.(style := SolidLine, dashes := []), widthSet, lengths)
    }

    /** The width that dashes are measured in. */
    function Unit(before: Pen): real {
      WidthOrOne(if widthSet then stroke.width else before.width)
    }

    predicate DrawnAs(pattern: seq<real>, unit: real, lengths: seq<real>) {
      |pattern| == |lengths| && forall i | 0 <= i < |lengths| :: pattern[i] * unit == lengths[i]
    }

    /** Whatever the widths, the pattern to set comes to the array given. */
    lemma TargetIsArray(before: Pen, lengths: seq<real>)
      requires GivenArray(lengths)
      ensures !BecomesSolid()
      ensures DrawnAs(Target(before), Unit(before), lengths) && Even(Target(before)) == Target(before) != []
    {
      hide Base;
    }

    /** Applying the style would leave every attribute of the pen as it is, dashes aside. */
    predicate ChangesNothing(before: Pen, extra: Extra) {
      && NewBrush(before) == before.brush && NewWidth(before) == before.width
      && (lineCapSet ==> stroke.cap == before.cap)
      && (lineJoinSet ==> stroke.join == before.join)
      && (miterLimitSet ==> stroke.miterLimit == before.miterLimit)
      && before.cosmetic == extra.vectorEffect
      && OffsetIs(before, before, extra)
    }

    /** A pen that gets no dashes of its own keeps those it has if and only if nothing changes. */
    lemma KeptIfNothingChanges(pen: Pen, before: Pen, extra: Extra)
      requires IsStyled(pen, before, extra) && !OwnDashes(before)
      ensures pen == before <==> ChangesNothing(before, extra)
      ensures pen != before ==> pen.dashes == []
    {
      hide Target, Close;
      CloseToItself(before.dashOffset);
    }

    /** A dash array is drawn as given if and only if its pattern is set, or it is already there and
        nothing changes. It is not set where the pen has the same pattern already; and if the pen then
        changes in some other way, it has no dashes any more. */
    lemma GivenDashesAreDrawn(pen: Pen, before: Pen, extra: Extra, lengths: seq<real>)
      requires IsStyled(pen, before, extra) && GivenArray(lengths)
      ensures DrawnAs(pen.Pattern(), Unit(before), lengths)
        <==> OwnDashes(before) || (ChangesNothing(before, extra) && before.Pattern() != [])
    {
      hide Target, GivenArray, ChangesNothing;
      TargetIsArray(before, lengths);
      if !OwnDashes(before) {
        KeptIfNothingChanges(pen, before, extra);
      }
    }

    /** Without a dash array, a pen loses the dashes it had if and only if anything changes. The one
        exception is a width so close to the old one that it is not taken over: only then are the
        dashes rescaled to keep their lengths. */
    lemma InheritedDashes(pen: Pen, before: Pen, extra: Extra)
      requires IsStyled(pen, before, extra) && !dashArraySet && before.dashes != []
      ensures pen.dashes == [] <==> !OwnDashes(before) && !ChangesNothing(before, extra)
      ensures !OwnDashes(before) ==> (pen == before <==> ChangesNothing(before, extra))
      ensures OwnDashes(before) ==>
        && widthSet && before.width != stroke.width && SameWidth(before.width, stroke.width)
        && KeepsLengths(before.dashes, WidthOrOne(before.width), pen.dashes, WidthOrOne(stroke.width))
    {
      hide KeepsLengths, ChangesNothing;
      if OwnDashes(before) {
        OnlyCloseWidths(before);
        KeptByScaling(before.dashes, WidthOrOne(before.width), WidthOrOne(stroke.width));
      } else {
        KeptIfNothingChanges(pen, before, extra);
      }
    }

    predicate KeepsLengths(dashes: seq<real>, width: real, dashes': seq<real>, width': real) {
      |dashes| <= |dashes'| && forall i | 0 <= i < |dashes| :: dashes'[i] * width' == dashes[i] * width
    }

    lemma OnlyCloseWidths(before: Pen)
      requires !dashArraySet && OwnDashes(before)
      ensures widthSet && before.width != stroke.width && SameWidth(before.width, stroke.width)
      ensures Target(before) == Scaled(before.dashes, WidthOrOne(before.width) / WidthOrOne(stroke.width))
    {
      SameScale(before.width, stroke.width);
    }

    lemma KeptByScaling(dashes: seq<real>, width: real, width': real)
      requires width' != 0.0
      ensures KeepsLengths(dashes, width, Even(Scaled(dashes, width / width')), width')
    {
      forall i | 0 <= i < |dashes| ensures dashes[i] * (width / width') * width' == dashes[i] * width {
        assert width / width' * width' == width;
      }
    }

    lemma SameScale(x: real, y: real)
      ensures x == y ==> WidthOrOne(x) / WidthOrOne(y) == 1.0
    {}

    lemma OffsetStays(pen: Pen, before: Pen, extra: Extra)
      ensures forall other: Pen | other.width == pen.width && other.style == pen.style && other.dashOffset == pen.dashOffset ::
        OffsetIs(other, before, extra) <==> OffsetIs(pen, before, extra)
    {}

    method Revert(p: Painter, s: States)
      modifies p`state, s
      ensures p.state == old(p.state).(pen := oldStroke)
      ensures s.state == old(s.state).(
        strokeOpacity := oldStrokeOpacity, strokeDashOffset := oldStrokeDashOffset, vectorEffect := oldVectorEffect)
    {
      p.SetPen(oldStroke);
      s.state := s.state.(
        strokeOpacity := oldStrokeOpacity, strokeDashOffset := oldStrokeDashOffset, vectorEffect := oldVectorEffect);
    }
  }

  /** So a dash array is lost when it is given again below the node that has it, with another line cap. */
  lemma GivenAgainIsLost(outer: StrokeStyle, inner: StrokeStyle, lengths: seq<real>,
    before: Pen, first: Pen, second: Pen, extra: Extra, extra': Extra)
    requires outer.GivenArray(lengths) && !outer.strokeSet && !outer.widthSet
    requires inner.GivenArray(lengths) && !inner.strokeSet && !inner.widthSet
    requires before.dashes == []
    requires outer.IsStyled(first, before, extra) && inner.IsStyled(second, first, extra')
    requires inner.lineCapSet && inner.stroke.cap != first.cap
    ensures outer.DrawnAs(first.Pattern(), WidthOrOne(first.width), lengths) && second.Pattern() == []
  {
    outer.TargetIsArray(before, lengths);
    outer.GivenDashesAreDrawn(first, before, extra, lengths);
    assert inner.Target(first) == outer.Target(before) == first.dashes;
  }

  /** So a line that is dashed is drawn without dashes below a node that sets nothing but another width. */
  method WidthAloneLosesDashes(dashes: seq<real>, width: real, other: real) returns (before: Pen, after: Pen)
    requires dashes != [] && !SameWidth(width, other)
    ensures before.Pattern() == dashes && before.width == width && after == before.(width := other, dashes := [])
  {
    before := Pen(BLACK, width, CustomDashLine, dashes, 0.0, 0, 0, 2.0, false);
    var p := new Painter(Paints(NoBrush, before, Font("", 0.0, 0, 0), 1.0, Transform(1.0, 0.0, 0.0, 1.0, 0.0, 0.0), 0));
    var s := new States();
    var pen := Pen(BLACK, other, SolidLine, [], 0.0, 0, 0, 2.0, false);
    var st := new StrokeStyle(pen, None, false, true, false, false, false, false, None, None, None);
    CloseToItself(0.0);
    st.Apply(p, s);
    after := p.state.pen;
  }

  class TransformStyle {
    const transform: Transform
    var oldWorldTransform: Transform

    constructor (transform: Transform)
      ensures this.transform == transform
    {
      this.transform := transform;
      oldWorldTransform := transform;
    }

    method Apply(p: Painter)
      modifies this, p`state
      ensures oldWorldTransform == old(p.state.transform)
      ensures p.state == old(p.state).(transform := transform.Then(old(p.state.transform)))
    {
      oldWorldTransform := p.state.transform;
      p.state := p.state.(transform := transform.Then(p.state.transform));
    }

    method Revert(p: Painter)
      modifies p`state
      ensures p.state == old(p.state).(transform := oldWorldTransform)
    {
      p.state := p.state.(transform := oldWorldTransform);
    }
  }

  class OpacityStyle {
    const opacity: real
    var oldOpacity: real

    constructor (opacity: real)
      ensures this.opacity == opacity
    {
      this.opacity, oldOpacity := opacity, 0.0;
    }

    method Apply(p: Painter)
      modifies this, p`state
      ensures oldOpacity == old(p.state.opacity)
      ensures p.Valid() && p.state == old(p.state).(opacity := Faded(opacity, old(p.state.opacity)))
    {
      oldOpacity := p.state.opacity;
      p.SetOpacity(opacity * oldOpacity);
    }

    method Revert(p: Painter)
      modifies p`state
      ensures p.Valid() && p.state == old(p.state).(opacity := Clamp(oldOpacity))
    {
      p.SetOpacity(oldOpacity);
    }
  }

  class CompOpStyle {
    const mode: int
    var oldMode: int

    constructor (mode: int)
      ensures this.mode == mode
    {
      this.mode, oldMode := mode, 0;
    }

    method Apply(p: Painter)
      modifies this, p`state
      ensures oldMode == old(p.state.mode) && p.state == old(p.state).(mode := mode)
    {
      oldMode := p.state.mode;
      p.state := p.state.(mode := mode);
    }

    method Revert(p: Painter)
      modifies p`state
      ensures p.state == old(p.state).(mode := oldMode)
    {
      p.state := p.state.(mode := oldMode);
    }
  }
}
