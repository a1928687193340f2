/** Drawing a tree of SVG nodes with one painter. Every node applies its style, draws, and reverts
    its style; the question is what this leaves in the painter. */
module SvgDrawing {
  import opened Wrappers
  import opened Pens
  import opened SvgStyles

  /** The style properties of a node. */
  datatype Style = Style(
    fill: FillStyle?, viewportFill: ViewportFillStyle?, font: FontStyle?, stroke: StrokeStyle?,
    transform: TransformStyle?, opacity: OpacityStyle?, compop: CompOpStyle?)

  ghost function Objects(st: Style): set<object> {
    (if st.fill != null then {st.fill} else {})
    + (if st.viewportFill != null then {st.viewportFill} else {})
    + (if st.font != null then {st.font} else {})
    + (if st.stroke != null then {st.stroke} else {})
    + (if st.transform != null then {st.transform} else {})
    + (if st.opacity != null then {st.opacity} else {})
    + (if st.compop != null then {st.compop} else {})
  }

  predicate SetsFill(st: Style) {
    st.fill != null && st.fill.fillSet
  }

  /** The brush after a style has been applied. */
  function AppliedBrush(st: Style, brush: Brush): Brush {
    if st.viewportFill != null then st.viewportFill.viewportFill
    else if SetsFill(st) then st.fill.Paint()
    else brush
  }

  /** The brush after it has been reverted: reverting runs in the order of applying, so the viewport
      fill has the last word, with the brush it found. */
  function RevertedBrush(st: Style, entry: Brush, brush: Brush): Brush {
    if st.viewportFill != null then (if SetsFill(st) then st.fill.Paint() else entry)
    else if SetsFill(st) then entry
    else brush
  }

  // ---------- the bracket of one node ----------

  ghost predicate FillsSaved(st: Style, paints: Paints, extra: Extra)
    reads st.fill, st.viewportFill
  {
    && (st.fill != null ==>
          st.fill.oldFill == paints.brush && st.fill.oldFillRule == extra.fillRule && st.fill.oldFillOpacity == extra.fillOpacity)
    && (st.viewportFill != null ==> st.viewportFill.oldFill == if SetsFill(st) then st.fill.Paint() else paints.brush)
  }

  ghost predicate FontSaved(st: Style, paints: Paints, extra: Extra)
    reads st.font
  {
    st.font != null ==>
      st.font.oldFont == paints.font && st.font.oldSvgFont == extra.svgFont
      && st.font.oldTextAnchor == extra.textAnchor && st.font.oldWeight == extra.fontWeight
  }

  ghost predicate StrokeSaved(st: Style, paints: Paints, extra: Extra)
    reads st.stroke
  {
    st.stroke != null ==>
      st.stroke.oldStroke == paints.pen && st.stroke.oldStrokeOpacity == extra.strokeOpacity
      && st.stroke.oldStrokeDashOffset == extra.strokeDashOffset && st.stroke.oldVectorEffect == extra.vectorEffect
  }

  ghost predicate RestSaved(st: Style, paints: Paints)
    reads st.transform, st.opacity, st.compop
  {
    && (st.transform != null ==> st.transform.oldWorldTransform == paints.transform)
    && (st.opacity != null ==> st.opacity.oldOpacity == paints.opacity)
    && (st.compop != null ==> st.compop.oldMode == paints.mode)
  }

  /** The style objects remember the painter and the states from before they were applied. */
  ghost predicate Saved(st: Style, paints: Paints, extra: Extra)
    reads Objects(st)
  {
    FillsSaved(st, paints, extra) && FontSaved(st, paints, extra) && StrokeSaved(st, paints, extra) && RestSaved(st, paints)
  }

  /** What the style does not set is as it was. */
  predicate Untouched(st: Style, paints: Paints, extra: Extra, paints': Paints, extra': Extra) {
    && FillStatesUntouched(st, extra, extra')
    && (st.font == null ==> paints'.font == paints.font && FontStates(extra', extra) == extra')
    && (st.stroke == null ==> paints'.pen == paints.pen && StrokeStates(extra', extra) == extra')
    && RestUntouched(st, paints, paints')
  }

  predicate FillStatesUntouched(st: Style, extra: Extra, extra': Extra) {
    && (st.fill == null || st.fill.fillRule.None? ==> extra'.fillRule == extra.fillRule)
    && (st.fill == null || st.fill.fillOpacity.None? ==> extra'.fillOpacity == extra.fillOpacity)
  }

  predicate RestUntouched(st: Style, paints: Paints, paints': Paints) {
    && (st.transform == null ==> paints'.transform == paints.transform)
    && (st.opacity == null ==> paints'.opacity == paints.opacity)
    && (st.compop == null ==> paints'.mode == paints.mode)
  }

  // Parts of the states, taken from another.

  function FillStates(extra: Extra, other: Extra): Extra {
    extra.(fillRule := other.fillRule, fillOpacity := other.fillOpacity)
  }

  function FontStates(extra: Extra, other: Extra): Extra {
    extra.(svgFont := other.svgFont, textAnchor := other.textAnchor, fontWeight := other.fontWeight)
  }

  function StrokeStates(extra: Extra, other: Extra): Extra {
    extra.(strokeOpacity := other.strokeOpacity, strokeDashOffset := other.strokeDashOffset, vectorEffect := other.vectorEffect)
  }

  // ---------- what applying a style makes of painter and states ----------

  datatype Look = Look(paints: Paints, extra: Extra)

  function FillsOn(st: Style, look: Look): Look {
    var extra := if st.fill == null then look.extra else look.extra.(
      fillRule := if st.fill.fillRule.Some? then st.fill.fillRule.value else look.extra.fillRule,
      fillOpacity := if st.fill.fillOpacity.Some? then st.fill.fillOpacity.value else look.extra.fillOpacity);
    Look(look.paints.(brush := AppliedBrush(st, look.paints.brush)), extra)
  }

  function FontOn(st: Style, look: Look): Look {
    if st.font == null then look
    else
      var f, font, extra := st.font, look.paints.font, look.extra;
      var weight := if f.weight.Some? then NewWeight(f.weight.value, extra.fontWeight) else extra.fontWeight;
      Look(
        look.paints.(font := Font(
          if f.family.Some? then f.family.value else font.family,
          if f.size.Some? then f.size.value else font.pointSize,
          if f.style.Some? then f.style.value else font.style,
          if f.weight.Some? then QtWeight(weight) else font.weight)),
        extra.(
          svgFont := if f.family.Some? then f.svgFont else extra.svgFont,
          textAnchor := if f.textAnchor.Some? then f.textAnchor.value else extra.textAnchor,
          fontWeight := weight))
  }

  function StrokeOn(st: Style, look: Look): Look {
    if st.stroke == null then look
    else
      var k := st.stroke;
      var extra := look.extra.(
        strokeOpacity := if k.strokeOpacity.Some? then k.strokeOpacity.value else look.extra.strokeOpacity,
        strokeDashOffset := if k.dashOffset.Some? then k.dashOffset.value else look.extra.strokeDashOffset,
        vectorEffect := if k.vectorEffect.Some? then k.vectorEffect.value else look.extra.vectorEffect);
      Look(look.paints.(pen := k.NewPen(look.paints.pen, extra)), extra)
  }

  function RestOn(st: Style, paints: Paints): Paints {
    paints.(
      transform := if st.transform == null then paints.transform else st.transform.transform.Then(paints.transform),
      opacity := if st.opacity == null then paints.opacity else Faded(st.opacity.opacity, paints.opacity),
      mode := if st.compop == null then paints.mode else st.compop.mode)
  }

  /** Fill and viewport fill, font, stroke, and then transformation, opacity and composition. */
  function StyleOn(st: Style, look: Look): Look {
    var coloured := StrokeOn(st, FontOn(st, FillsOn(st, look)));
    coloured.(paints := RestOn(st, coloured.paints))
  }

  method ApplyFills(st: Style, p: Painter, s: States)
    modifies p`state, s, st.fill, st.viewportFill
    ensures FillsSaved(st, old(p.state), old(s.state))
    ensures p.state == old(p.state).(brush := AppliedBrush(st, old(p.state.brush)))
    ensures s.state == FillStates(old(s.state), s.state) && FillStatesUntouched(st, old(s.state), s.state)
    ensures Look(p.state, s.state) == FillsOn(st, old(Look(p.state, s.state)))
  {
    if st.fill != null {
      st.fill.Apply(p, s);
    }
    if st.viewportFill != null {
      st.viewportFill.Apply(p);
    }
  }

  method ApplyFont(st: Style, p: Painter, s: States, ghost paints: Paints, ghost extra: Extra)
    requires p.state.font == paints.font && FontStates(s.state, extra) == s.state
    modifies p`state, s, st.font
    ensures FontSaved(st, paints, extra)
    ensures p.state == old(p.state).(font := p.state.font) && s.state == FontStates(old(s.state), s.state)
    ensures st.font == null ==> p.state == old(p.state) && s.state == old(s.state)
    ensures Look(p.state, s.state) == FontOn(st, old(Look(p.state, s.state)))
  {
    if st.font != null {
      st.font.Apply(p, s);
    }
  }

  method ApplyStroke(st: Style, p: Painter, s: States, ghost paints: Paints, ghost extra: Extra)
    requires p.state.pen == paints.pen && StrokeStates(s.state, extra) == s.state
    modifies p`state, s, st.stroke
    ensures StrokeSaved(st, paints, extra)
    ensures p.state == old(p.state).(pen := p.state.pen) && s.state == StrokeStates(old(s.state), s.state)
    ensures st.stroke == null ==> p.state == old(p.state) && s.state == old(s.state)
    ensures Look(p.state, s.state) == StrokeOn(st, old(Look(p.state, s.state)))
  {
    ghost var before := p.state.pen;
    if st.stroke != null {
      st.stroke.Apply(p, s);
      st.stroke.StyledIsNew(p.state.pen, before, s.state);
    }
  }

  method ApplyRest(st: Style, p: Painter, ghost paints: Paints)
    requires p.Valid()
    requires p.state.transform == paints.transform && p.state.opacity == paints.opacity && p.state.mode == paints.mode
    modifies p`state, st.transform, st.opacity, st.compop
    ensures p.Valid() && RestSaved(st, paints) && RestUntouched(st, paints, p.state)
    ensures p.state == old(p.state).(transform := p.state.transform, opacity := p.state.opacity, mode := p.state.mode)
    ensures p.state == RestOn(st, old(p.state))
  {
    hide Faded;
    if st.transform != null {
      st.transform.Apply(p);
    }
    if st.opacity != null {
      st.opacity.Apply(p);
    }
    if st.compop != null {
      st.compop.Apply(p);
    }
  }

  /** What a style does to the brush, the font and the pen. */
  predicate Coloured(st: Style, paints: Paints, extra: Extra, paints': Paints, extra': Extra) {
    && paints'.brush == AppliedBrush(st, paints.brush)
    && paints' == paints.(brush := paints'.brush, font := paints'.font, pen := paints'.pen)
    && FillStatesUntouched(st, extra, extra')
    && (st.font == null ==> paints'.font == paints.font && FontStates(extra', extra) == extra')
    && (st.stroke == null ==> paints'.pen == paints.pen && StrokeStates(extra', extra) == extra')
  }

  lemma ColouredInStages(st: Style, paints: Paints, extra: Extra, paints1: Paints, extra1: Extra,
    paints2: Paints, extra2: Extra, paints3: Paints, extra3: Extra)
    requires paints1 == paints.(brush := AppliedBrush(st, paints.brush))
    requires extra1 == FillStates(extra, extra1) && FillStatesUntouched(st, extra, extra1)
    requires paints2 == paints1.(font := paints2.font) && extra2 == FontStates(extra1, extra2)
    requires st.font == null ==> paints2 == paints1 && extra2 == extra1
    requires paints3 == paints2.(pen := paints3.pen) && extra3 == StrokeStates(extra2, extra3)
    requires st.stroke == null ==> paints3 == paints2 && extra3 == extra2
    ensures Coloured(st, paints, extra, paints3, extra3)
  {}

  lemma UntouchedInTheEnd(st: Style, paints: Paints, extra: Extra, paints': Paints, extra': Extra, paints'': Paints)
    requires Coloured(st, paints, extra, paints', extra') && RestUntouched(st, paints, paints'')
    requires paints'' == paints'.(transform := paints''.transform, opacity := paints''.opacity, mode := paints''.mode)
    ensures Untouched(st, paints, extra, paints'', extra')
    ensures paints''.brush == AppliedBrush(st, paints.brush)
  {}

  method ApplyColours(st: Style, p: Painter, s: States)
    modifies p`state, s, st.fill, st.viewportFill, st.font, st.stroke
    ensures FillsSaved(st, old(p.state), old(s.state))
    ensures FontSaved(st, old(p.state), old(s.state)) && StrokeSaved(st, old(p.state), old(s.state))
    ensures Coloured(st, old(p.state), old(s.state), p.state, s.state)
    ensures Look(p.state, s.state) == StrokeOn(st, FontOn(st, FillsOn(st, old(Look(p.state, s.state)))))
  {
    hide AppliedBrush, FillsSaved, FontSaved, StrokeSaved, FillStatesUntouched, Coloured, FillsOn, FontOn, StrokeOn;
    ghost var paints, extra := p.state, s.state;
    ApplyFills(st, p, s);
    ghost var paints1, extra1 := p.state, s.state;
    ApplyFont(st, p, s, paints, extra);
    ghost var paints2, extra2 := p.state, s.state;
    ApplyStroke(st, p, s, paints, extra);
    ColouredInStages(st, paints, extra, paints1, extra1, paints2, extra2, p.state, s.state);
  }

  /** QSvgStyle::apply. */
  method ApplyStyle(st: Style, p: Painter, s: States)
    requires p.Valid()
    modifies p`state, s, Objects(st)
    ensures p.Valid() && Saved(st, old(p.state), old(s.state))
    ensures Untouched(st, old(p.state), old(s.state), p.state, s.state)
    ensures p.state.brush == AppliedBrush(st, old(p.state.brush))
    ensures Look(p.state, s.state) == StyleOn(st, old(Look(p.state, s.state)))
  {
    hide AppliedBrush, FillsSaved, FontSaved, StrokeSaved, RestSaved, Untouched, RestUntouched, FillStatesUntouched,
      FillsOn, FontOn, StrokeOn, RestOn;
    ghost var paints, extra := p.state, s.state;
    ApplyColours(st, p, s);
    ghost var paints' := p.state;
    ApplyRest(st, p, paints);
    assert FillsSaved(st, paints, extra) && FontSaved(st, paints, extra) && StrokeSaved(st, paints, extra);
    UntouchedInTheEnd(st, paints, extra, paints', s.state, p.state);
  }

  method RevertFills(st: Style, p: Painter, s: States, ghost paints: Paints, ghost extra: Extra)
    requires FillsSaved(st, paints, extra) && FillStatesUntouched(st, extra, s.state)
    modifies p`state, s
    ensures p.state == old(p.state).(brush := RevertedBrush(st, paints.brush, old(p.state.brush)))
    ensures s.state == FillStates(old(s.state), extra)
  {
    if st.fill != null {
      st.fill.Revert(p, s);
    }
    if st.viewportFill != null {
      st.viewportFill.Revert(p);
    }
  }

  method RevertFontAndStroke(st: Style, p: Painter, s: States, ghost paints: Paints, ghost extra: Extra)
    requires FontSaved(st, paints, extra) && StrokeSaved(st, paints, extra)
    requires st.font == null ==> p.state.font == paints.font && FontStates(s.state, extra) == s.state
    requires st.stroke == null ==> p.state.pen == paints.pen && StrokeStates(s.state, extra) == s.state
    modifies p`state, s
    ensures p.state == old(p.state).(font := paints.font, pen := paints.pen)
    ensures s.state == StrokeStates(FontStates(old(s.state), extra), extra)
  {
    if st.font != null {
      st.font.Revert(p, s);
    }
    if st.stroke != null {
      st.stroke.Revert(p, s);
    }
  }

  method RevertRest(st: Style, p: Painter, ghost paints: Paints)
    requires p.Valid() && 0.0 <= paints.opacity <= 1.0 && RestSaved(st, paints) && RestUntouched(st, paints, p.state)
    modifies p`state
    ensures p.Valid()
    ensures p.state == old(p.state).(transform := paints.transform, opacity := paints.opacity, mode := paints.mode)
  {
    if st.transform != null {
      st.transform.Revert(p);
    }
    if st.opacity != null {
      st.opacity.Revert(p);
    }
    if st.compop != null {
      st.compop.Revert(p);
    }
  }

  /** QSvgStyle::revert, which runs through the properties in the same order. */
  method RevertStyle(st: Style, p: Painter, s: States, ghost paints: Paints, ghost extra: Extra)
    requires p.Valid() && 0.0 <= paints.opacity <= 1.0
    requires Saved(st, paints, extra) && Untouched(st, paints, extra, p.state, s.state)
    modifies p`state, s
    ensures p.Valid() && p.state.SameButBrush(paints) && s.state == extra
    ensures p.state.brush == RevertedBrush(st, paints.brush, old(p.state.brush))
  {
    hide RevertedBrush;
    RevertFills(st, p, s, paints, extra);
    RevertFontAndStroke(st, p, s, paints, extra);
    RevertRest(st, p, paints);
  }

  // ---------- nodes ----------

  datatype Span = LineBreak | Tspan(style: Style)

  /** What a switch asks before it draws a child. */
  datatype Conditions = Conditions(
    features: seq<string>, extensions: seq<string>, languages: seq<string>, formats: seq<string>, fonts: seq<string>)

  datatype Content =
    | Shape(figure: nat)
    | Line(figure: nat)
    | Polyline(figure: nat)
    | Image(figure: nat)
    | Text(figure: nat, spans: seq<Span>)
    | Group(children: seq<Node>)
    | Switch(children: seq<Node>)
    | Defs
    | Use(x: real, y: real, link: Node)

  datatype Node = Node(style: Style, shown: bool, conditions: Conditions, content: Content)

  /** The features this renderer supports and the prefix of the system language. */
  datatype Environment = Environment(features: set<string>, languagePrefix: string)

  predicate OkToRender(c: Conditions, env: Environment) {
    && (forall f | f in c.features :: f in env.features)
    && c.extensions == [] && c.formats == [] && c.fonts == []
    && (c.languages == [] || exists l :: l in c.languages && env.languagePrefix <= l)
  }

  /** The child a switch draws, if any. */
  function Chosen(children: seq<Node>, env: Environment): (i: nat)
    ensures i <= |children|
  {
    if children == [] || (children[0].shown && OkToRender(children[0].conditions, env)) then 0
    else 1 + Chosen(children[1..], env)
  }

  ghost function Footprint(node: Node): set<object>
    decreases node, 1
  {
    Objects(node.style) + ContentFootprint(node.content)
  }

  ghost function ContentFootprint(content: Content): set<object>
    decreases content, 0
  {
    match content
    case Text(_, spans) => SpanFootprint(spans)
    case Group(children) => set i, o | 0 <= i < |children| && o in Footprint(children[i]) :: o
    case Switch(children) => set i, o | 0 <= i < |children| && o in Footprint(children[i]) :: o
    case Use(_, _, link) => Footprint(link)
    case _ => {}
  }

  ghost function SpanFootprint(spans: seq<Span>): set<object> {
    set i, o | 0 <= i < |spans| && spans[i].Tspan? && o in Objects(spans[i].style) :: o
  }

  /** The style objects of a node are not used again below it. */
  ghost predicate WellOwned(node: Node) {
    && Objects(node.style) !! ContentFootprint(node.content)
    && match node.content
       case Group(children) => forall i | 0 <= i < |children| :: WellOwned(children[i])
       case Switch(children) => forall i | 0 <= i < |children| :: WellOwned(children[i])
       case Use(_, _, link) => WellOwned(link)
       case _ => true
  }

  // ---------- what drawing leaves ----------

  function BrushAfter(node: Node, env: Environment, brush: Brush): Brush
    decreases node, 1
  {
    if node.content.Defs? then brush
    else RevertedBrush(node.style, brush, ContentBrush(node.content, env, AppliedBrush(node.style, brush)))
  }

  function ContentBrush(content: Content, env: Environment, brush: Brush): Brush
    decreases content, 0
  {
    match content
    case Text(_, spans) => SpansBrush(spans, brush)
    case Group(children) => ChildrenBrush(children, env, brush)
    case Switch(children) =>
      var i := Chosen(children, env);
      if i == |children| then brush else BrushAfter(children[i], env, brush)
    case Use(_, _, link) => BrushAfter(link, env, brush)
    case _ => brush
  }

  function ChildrenBrush(children: seq<Node>, env: Environment, brush: Brush): Brush
    decreases children, 0
  {
    if children == [] then brush
    else
      var n := |children| - 1;
      var before := ChildrenBrush(children[..n], env, brush);
      if children[n].shown then BrushAfter(children[n], env, before) else before
  }

  function SpansBrush(spans: seq<Span>, brush: Brush): Brush {
    if spans == [] then brush
    else
      var n := |spans| - 1;
      var before := SpansBrush(spans[..n], brush);
      if spans[n].Tspan? then RevertedBrush(spans[n].style, before, AppliedBrush(spans[n].style, before)) else before
  }

  /** Both a fill and a viewport fill: the case in which reverting does not undo applying. */
  predicate FillsTwice(st: Style) {
    SetsFill(st) && st.viewportFill != null
  }

  /** The brush that a tree leaves behind whatever it found, if any. A node that fills twice leaves its
      fill; one that sets the brush once leaves nothing, whatever happens below; of several nodes the
      last that leaves something counts. */
  function Leaves(node: Node, env: Environment): Option<Brush>
    decreases node, 1
  {
    if node.content.Defs? then None
    else if FillsTwice(node.style) then Some(node.style.fill.Paint())
    else if SetsFill(node.style) || node.style.viewportFill != null then None
    else ContentLeaves(node.content, env)
  }

  function ContentLeaves(content: Content, env: Environment): Option<Brush>
    decreases content, 0
  {
    match content
    case Text(_, spans) => SpansLeave(spans)
    case Group(children) => ChildrenLeave(children, env)
    case Switch(children) =>
      var i := Chosen(children, env);
      if i == |children| then None else Leaves(children[i], env)
    case Use(_, _, link) => Leaves(link, env)
    case _ => None
  }

  function ChildrenLeave(children: seq<Node>, env: Environment): Option<Brush>
    decreases children, 0
  {
    if children == [] then None
    else
      var n := |children| - 1;
      var last := if children[n].shown then Leaves(children[n], env) else None;
      if last.Some? then last else ChildrenLeave(children[..n], env)
  }

  function SpansLeave(spans: seq<Span>): Option<Brush> {
    if spans == [] then None
    else
      var n := |spans| - 1;
      if spans[n].Tspan? && FillsTwice(spans[n].style) then Some(spans[n].style.fill.Paint())
      else SpansLeave(spans[..n])
  }

  function Left(left: Option<Brush>, brush: Brush): Brush {
    if left.Some? then left.value else brush
  }

  /** What is left behind replaces the brush, and otherwise the brush stays. */
  lemma {:induction false} LeavesBrush(node: Node, env: Environment, brush: Brush)
    ensures BrushAfter(node, env, brush) == Left(Leaves(node, env), brush)
    decreases node
  {
    match node.content
    case Text(_, spans) => SpansLeaveBrush(spans, brush);
    case Group(children) => ChildrenLeaveBrush(node, children, env, brush);
    case Switch(children) =>
      var i := Chosen(children, env);
      if i < |children| {
        LeavesBrush(children[i], env, brush);
      }
    case Use(_, _, link) => LeavesBrush(link, env, brush);
    case _ =>
  }

  lemma {:induction false} ChildrenLeaveBrush(node: Node, children: seq<Node>, env: Environment, brush: Brush)
    requires forall i | 0 <= i < |children| :: children[i] < node
    ensures ChildrenBrush(children, env, brush) == Left(ChildrenLeave(children, env), brush)
    decreases node, |children|
  {
    if children != [] {
      var n := |children| - 1;
      ChildrenLeaveBrush(node, children[..n], env, brush);
      LeavesBrush(children[n], env, ChildrenBrush(children[..n], env, brush));
    }
  }

  lemma {:induction false} SpansLeaveBrush(spans: seq<Span>, brush: Brush)
    ensures SpansBrush(spans, brush) == Left(SpansLeave(spans), brush)
  {
    if spans != [] {
      SpansLeaveBrush(spans[..|spans| - 1], brush);
    }
  }

  /** The brush comes back if and only if the tree leaves nothing behind, or the same brush. */
  lemma BrushComesBack(node: Node, env: Environment, brush: Brush)
    ensures BrushAfter(node, env, brush) == brush <==> Leaves(node, env).None? || Leaves(node, env) == Some(brush)
  {
    LeavesBrush(node, env, brush);
  }

  /** No node that can be drawn, and no span, fills twice. */
  predicate FillsOnce(node: Node) {
    node.content.Defs?
    || (&& !FillsTwice(node.style)
        && match node.content
           case Text(_, spans) => forall i | 0 <= i < |spans| && spans[i].Tspan? :: !FillsTwice(spans[i].style)
           case Group(children) => forall i | 0 <= i < |children| :: FillsOnce(children[i])
           case Switch(children) => forall i | 0 <= i < |children| :: FillsOnce(children[i])
           case Use(_, _, link) => FillsOnce(link)
           case _ => true)
  }

  /** Then nothing is left behind. */
  lemma {:induction false} FillsOnceLeavesNothing(node: Node, env: Environment)
    requires FillsOnce(node)
    ensures Leaves(node, env).None?
    decreases node
  {
    match node.content
    case Text(_, spans) => SpansLeaveNothing(spans);
    case Group(children) => ChildrenLeaveNothing(node, children, env);
    case Switch(children) =>
      var i := Chosen(children, env);
      if i < |children| {
        FillsOnceLeavesNothing(children[i], env);
      }
    case Use(_, _, link) => FillsOnceLeavesNothing(link, env);
    case _ =>
  }

  lemma {:induction false} ChildrenLeaveNothing(node: Node, children: seq<Node>, env: Environment)
    requires forall i | 0 <= i < |children| :: children[i] < node && FillsOnce(children[i])
    ensures ChildrenLeave(children, env).None?
    decreases node, |children|
  {
    if children != [] {
      var n := |children| - 1;
      ChildrenLeaveNothing(node, children[..n], env);
      FillsOnceLeavesNothing(children[n], env);
    }
  }

  lemma {:induction false} SpansLeaveNothing(spans: seq<Span>)
    requires forall i | 0 <= i < |spans| && spans[i].Tspan? :: !FillsTwice(spans[i].style)
    ensures SpansLeave(spans).None?
  {
    if spans != [] {
      SpansLeaveNothing(spans[..|spans| - 1]);
    }
  }

  /** Exactly what one node does to the brush: if it fills twice, its fill stays behind; if it sets the
      brush once, the brush comes back whatever happens below; otherwise it is left as the content
      left it. */
  lemma BrushOfNode(node: Node, env: Environment, brush: Brush)
    requires !node.content.Defs?
    ensures FillsTwice(node.style) ==>
      (BrushAfter(node, env, brush) == brush <==> node.style.fill.Paint() == brush)
    ensures !FillsTwice(node.style) && (SetsFill(node.style) || node.style.viewportFill != null) ==>
      BrushAfter(node, env, brush) == brush
    ensures !SetsFill(node.style) && node.style.viewportFill == null ==>
      BrushAfter(node, env, brush) == ContentBrush(node.content, env, brush)
  {}

  // ---------- drawing ----------

  // ---------- what is painted ----------

  /** Where there is something to stroke with. */
  predicate Strokes(pen: Pen) {
    pen != NO_PEN && pen.brush != NoBrush && pen.width != 0.0
  }

  function WithBrush(look: Look, brush: Brush): Look {
    look.(paints := look.paints.(brush := brush))
  }

  function WithOpacity(look: Look, factor: real): Paints {
    look.paints.(opacity := Faded(look.paints.opacity, factor))
  }

  /** Filled without a pen, and stroked without a brush where the pen strokes. */
  function ShapeCommands(figure: nat, look: Look): seq<Command> {
    [Command(figure, Filling, WithOpacity(look, look.extra.fillOpacity).(pen := Penless(look.paints.pen)))]
    + if Strokes(look.paints.pen) then [Command(figure, Stroking, WithOpacity(look, look.extra.strokeOpacity).(brush := NoBrush))]
      else []
  }

  function LineCommands(figure: nat, look: Look): seq<Command> {
    if look.paints.pen.width == 0.0 then [] else [Command(figure, Stroking, WithOpacity(look, look.extra.strokeOpacity))]
  }

  /** Filled only with a brush, and stroked only with a width. */
  function PolylineCommands(figure: nat, look: Look): seq<Command> {
    (if look.paints.brush == NoBrush then []
     else [Command(figure, Filling, WithOpacity(look, look.extra.fillOpacity).(pen := NO_PEN))])
    + LineCommands(figure, look)
  }

  /** A text is laid out with its font scaled up and the painter scaled down. */
  function TextLook(look: Look): Look {
    var factor := look.paints.font.pointSize / 100.0;
    look.(paints := WithOpacity(look, look.extra.fillOpacity).(
      transform := Transform(factor, 0.0, 0.0, factor, 0.0, 0.0).Then(look.paints.transform)))
  }

  function FormatWith(look: Look): Format {
    Format(look.paints.font, look.paints.pen, look.paints.brush)
  }

  /** Each span with its own style on top of that of the text. */
  function Formats(spans: seq<Span>, look: Look): seq<Format> {
    if spans == [] then []
    else
      var n := |spans| - 1;
      Formats(spans[..n], look)
      + if spans[n].Tspan? then
          [FormatWith(StyleOn(spans[n].style, WithBrush(look, SpansBrush(spans[..n], look.paints.brush))))]
        else []
  }

  function TextCommands(figure: nat, spans: seq<Span>, look: Look): seq<Command> {
    var written := TextLook(look);
    [Command(figure, Writing(Formats(spans, written)), WithBrush(written, SpansBrush(spans, look.paints.brush)).paints)]
  }

  /** What drawing a tree paints: its content, with the style of the node on. */
  function Painting(node: Node, env: Environment, look: Look): seq<Command>
    decreases node, 1
  {
    if node.content.Defs? then [] else ContentPainting(node.content, env, StyleOn(node.style, look))
  }

  function ContentPainting(content: Content, env: Environment, look: Look): seq<Command>
    decreases content, 0
  {
    match content
    case Shape(figure) => ShapeCommands(figure, look)
    case Line(figure) => LineCommands(figure, look)
    case Polyline(figure) => PolylineCommands(figure, look)
    case Image(figure) => [Command(figure, Picture, look.paints)]
    case Text(figure, spans) => TextCommands(figure, spans, look)
    case Group(children) => ChildrenPainting(children, env, look)
    case Switch(children) =>
      var i := Chosen(children, env);
      if i == |children| then [] else Painting(children[i], env, look)
    case Use(x, y, link) => Painting(link, env, Moved(look, x, y))
    case Defs => []
  }

  /** The shown children one after the other, each with the brush the ones before have left. */
  function ChildrenPainting(children: seq<Node>, env: Environment, look: Look): seq<Command>
    decreases children, 0
  {
    if children == [] then []
    else
      var n := |children| - 1;
      ChildrenPainting(children[..n], env, look)
      + if children[n].shown then
          Painting(children[n], env, WithBrush(look, ChildrenBrush(children[..n], env, look.paints.brush)))
        else []
  }

  function Moved(look: Look, x: real, y: real): Look {
    if x == 0.0 && y == 0.0 then look else look.(paints := look.paints.(transform := look.paints.transform.Translated(x, y)))
  }

  // ---------- each figure once, in document order ----------

  /** The figures that drawing a tree comes to, in document order. */
  function Figures(node: Node, env: Environment): seq<Content>
    decreases node, 1
  {
    ContentFigures(node.content, env)
  }

  function ContentFigures(content: Content, env: Environment): seq<Content>
    decreases content, 0
  {
    match content
    case Group(children) => ChildrenFigures(children, env)
    case Switch(children) =>
      var i := Chosen(children, env);
      if i == |children| then [] else Figures(children[i], env)
    case Use(_, _, link) => Figures(link, env)
    case Defs => []
    case _ => [content]
  }

  function ChildrenFigures(children: seq<Node>, env: Environment): seq<Content>
    decreases children, 0
  {
    if children == [] then []
    else (if children[0].shown then Figures(children[0], env) else []) + ChildrenFigures(children[1..], env)
  }

  /** The commands are those of one figure: a shape is filled and then perhaps stroked, a line is stroked
      or not at all, a polyline is filled or not and stroked or not, and an image or a text is painted. */
  predicate PaintsFigure(figure: Content, commands: seq<Command>) {
    match figure
    case Shape(f) => Inks(f, commands, [Filling]) || Inks(f, commands, [Filling, Stroking])
    case Line(f) => Inks(f, commands, []) || Inks(f, commands, [Stroking])
    case Polyline(f) =>
      Inks(f, commands, []) || Inks(f, commands, [Filling]) || Inks(f, commands, [Stroking]) || Inks(f, commands, [Filling, Stroking])
    case Image(f) => Inks(f, commands, [Picture])
    case Text(f, _) => |commands| == 1 && commands[0].figure == f && commands[0].ink.Writing?
    case _ => false
  }

  predicate Inks(figure: nat, commands: seq<Command>, inks: seq<Ink>) {
    |commands| == |inks| && forall i | 0 <= i < |inks| :: commands[i].figure == figure && commands[i].ink == inks[i]
  }

  function Flat(parts: seq<seq<Command>>): seq<Command> {
    if parts == [] then [] else parts[0] + Flat(parts[1..])
  }

  lemma {:induction false} FlatAppend(a: seq<seq<Command>>, b: seq<seq<Command>>)
    ensures Flat(a + b) == Flat(a) + Flat(b)
  {
    if a == [] {
      assert a + b == b;
    } else {
      FlatAppend(a[1..], b);
      assert (a + b)[1..] == a[1..] + b;
    }
  }

  predicate PaintsEach(figures: seq<Content>, parts: seq<seq<Command>>) {
    |parts| == |figures| && forall i | 0 <= i < |figures| :: PaintsFigure(figures[i], parts[i])
  }

  /** Drawing a tree paints each figure it comes to once, in document order, and nothing else. */
  lemma {:induction false} PaintsInOrder(node: Node, env: Environment, look: Look) returns (parts: seq<seq<Command>>)
    ensures PaintsEach(Figures(node, env), parts) && Flat(parts) == Painting(node, env, look)
    decreases node
  {
    hide StyleOn, ShapeCommands, LineCommands, PolylineCommands, TextCommands, PaintsFigure, Moved;
    var styled := StyleOn(node.style, look);
    parts := [];
    match node.content
    case Group(children) => parts := PaintsChildren(node, children, env, styled);
    case Switch(children) =>
      var i := Chosen(children, env);
      if i < |children| {
        parts := PaintsInOrder(children[i], env, styled);
      }
    case Use(x, y, link) => parts := PaintsInOrder(link, env, Moved(styled, x, y));
    case Defs =>
    case _ =>
      parts := [ContentPainting(node.content, env, styled)];
      FigureIsPainted(node.content, env, styled);
      assert parts[1..] == [] && Flat(parts) == parts[0] + [];
  }

  lemma FigureIsPainted(content: Content, env: Environment, look: Look)
    requires !content.Group? && !content.Switch? && !content.Use? && !content.Defs?
    ensures PaintsFigure(content, ContentPainting(content, env, look))
  {
    hide WithOpacity, TextLook, Formats, SpansBrush;
  }

  lemma {:induction false} PaintsChildren(node: Node, children: seq<Node>, env: Environment, look: Look)
    returns (parts: seq<seq<Command>>)
    requires forall i | 0 <= i < |children| :: children[i] < node
    ensures PaintsEach(ChildrenFigures(children, env), parts) && Flat(parts) == ChildrenPainting(children, env, look)
    decreases node, |children|
  {
    hide Painting, Figures, ChildrenBrush, PaintsFigure;
    parts := [];
    if children != [] {
      var n := |children| - 1;
      parts := PaintsChildren(node, children[..n], env, look);
      FiguresAppend(children, n, env);
      if children[n].shown {
        var last := PaintsInOrder(children[n], env, WithBrush(look, ChildrenBrush(children[..n], env, look.paints.brush)));
        FlatAppend(parts, last);
        parts := parts + last;
      }
    }
  }

  lemma {:induction false} FiguresAppend(children: seq<Node>, n: nat, env: Environment)
    requires n == |children| - 1
    ensures ChildrenFigures(children, env) ==
      ChildrenFigures(children[..n], env) + if children[n].shown then Figures(children[n], env) else []
    decreases n
  {
    hide Figures;
    if n > 0 {
      FiguresAppend(children[1..], n - 1, env);
      assert children[..n][1..] == children[1..][..n - 1];
    } else {
      assert children[1..] == [] && children[..0] == [];
    }
  }

  /** Nothing in the painter has changed but the brush, which is as stated, and what has been painted. */
  twostate predicate Drawn(p: Painter, s: States, brush: Brush, commands: seq<Command>)
    reads p, s
  {
    && p.Valid() && p.state.SameButBrush(old(p.state)) && s.state == old(s.state) && p.state.brush == brush
    && p.painted == old(p.painted) + commands
  }

  /** QT_SVG_DRAW_SHAPE: fills without a pen, then strokes without a brush, each with its own opacity. */
  method DrawShape(figure: nat, p: Painter, s: States)
    requires p.Valid()
    modifies p
    ensures Drawn(p, s, old(p.state.brush), ShapeCommands(figure, old(Look(p.state, s.state))))
  {
    hide Faded;
    var oldOpacity := p.state.opacity;
    var oldBrush := p.state.brush;
    var oldPen := p.state.pen;
    p.ClearPen();
    p.Fade(oldOpacity, s.state.fillOpacity);
    p.Paint(figure, Filling);
    p.SetPen(oldPen);
    if oldPen != NO_PEN && oldPen.brush != NoBrush && oldPen.width != 0.0 {
      p.Fade(oldOpacity, s.state.strokeOpacity);
      p.SetBrush(NoBrush);
      p.Paint(figure, Stroking);
      p.SetBrush(oldBrush);
    }
    p.SetOpacity(oldOpacity);
    assert p.state == old(p.state);
  }

  method DrawLine(figure: nat, p: Painter, s: States)
    requires p.Valid()
    modifies p
    ensures Drawn(p, s, old(p.state.brush), LineCommands(figure, old(Look(p.state, s.state))))
  {
    hide Faded;
    if p.state.pen.width != 0.0 {
      var oldOpacity := p.state.opacity;
      p.Fade(oldOpacity, s.state.strokeOpacity);
      p.Paint(figure, Stroking);
      p.SetOpacity(oldOpacity);
    }
  }

  method DrawPolyline(figure: nat, p: Painter, s: States)
    requires p.Valid()
    modifies p
    ensures Drawn(p, s, old(p.state.brush), PolylineCommands(figure, old(Look(p.state, s.state))))
  {
    hide Faded;
    var oldOpacity := p.state.opacity;
    if p.state.brush != NoBrush {
      var save := p.state.pen;
      p.SetPen(NO_PEN);
      p.Fade(oldOpacity, s.state.fillOpacity);
      p.Paint(figure, Filling);
      p.SetPen(save);
    }
    if p.state.pen.width != 0.0 {
      p.Fade(oldOpacity, s.state.strokeOpacity);
      p.Paint(figure, Stroking);
    }
    p.SetOpacity(oldOpacity);
  }

  /** A style is applied and reverted around something that changes the brush at most. */
  lemma Bracketed(st: Style, before: Paints, extra: Extra, applied: Paints, extra': Extra, after: Paints)
    requires Untouched(st, before, extra, applied, extra') && after.SameButBrush(applied)
    ensures Untouched(st, before, extra, after, extra')
  {}

  /** A span only leaves the format it will have; the text is painted afterwards. */
  method MeasureSpan(st: Style, p: Painter, s: States) returns (format: Format)
    requires p.Valid()
    modifies p`state, s, Objects(st)
    ensures Drawn(p, s, RevertedBrush(st, old(p.state.brush), AppliedBrush(st, old(p.state.brush))), [])
    ensures format == FormatWith(StyleOn(st, old(Look(p.state, s.state))))
  {
    hide Saved, Untouched, AppliedBrush, RevertedBrush, Objects, StyleOn;
    PainterIsNoStyle(st, p, s);
    ghost var paints, extra := p.state, s.state;
    ApplyStyle(st, p, s);
    format := Format(p.state.font, p.state.pen, p.state.brush);
    RevertStyle(st, p, s, paints, extra);
  }

  method DrawSpans(spans: seq<Span>, p: Painter, s: States) returns (formats: seq<Format>)
    requires p.Valid()
    modifies p`state, s, SpanFootprint(spans)
    ensures Drawn(p, s, SpansBrush(spans, old(p.state.brush)), [])
    ensures formats == Formats(spans, old(Look(p.state, s.state)))
  {
    hide AppliedBrush, RevertedBrush, Objects, SpanFootprint, StyleOn;
    formats := [];
    var i := 0;
    while i < |spans|
      invariant 0 <= i <= |spans|
      invariant Drawn(p, s, SpansBrush(spans[..i], old(p.state.brush)), [])
      invariant formats == Formats(spans[..i], old(Look(p.state, s.state)))
    {
      if spans[i].Tspan? {
        SpanObjects(spans, i);
        assert Look(p.state, s.state) == WithBrush(old(Look(p.state, s.state)), SpansBrush(spans[..i], old(p.state.brush)));
        var format := MeasureSpan(spans[i].style, p, s);
        formats := formats + [format];
      }
      assert spans[..i + 1][..i] == spans[..i];
      i := i + 1;
    }
    assert spans[..i] == spans;
  }

  lemma SpanObjects(spans: seq<Span>, i: nat)
    requires i < |spans| && spans[i].Tspan?
    ensures Objects(spans[i].style) <= SpanFootprint(spans)
  {
    hide Objects;
  }

  /** The text scales its font up and the painter down, and restores both. */
  method DrawText(figure: nat, spans: seq<Span>, p: Painter, s: States)
    requires p.Valid()
    modifies p, s, SpanFootprint(spans)
    ensures Drawn(p, s, SpansBrush(spans, old(p.state.brush)), TextCommands(figure, spans, old(Look(p.state, s.state))))
  {
    hide SpanFootprint, Formats, SpansBrush, Faded;
    var oldOpacity := p.state.opacity;
    p.Fade(oldOpacity, s.state.fillOpacity);
    var oldTransform := p.state.transform;
    var factor := p.state.font.pointSize / 100.0;
    p.state := p.state.(transform := Transform(factor, 0.0, 0.0, factor, 0.0, 0.0).Then(oldTransform));
    assert Look(p.state, s.state) == TextLook(old(Look(p.state, s.state)));
    var formats := DrawSpans(spans, p, s);
    p.Paint(figure, Writing(formats));
    p.state := p.state.(transform := oldTransform);
    p.SetOpacity(oldOpacity);
  }

  lemma PainterIsNoStyle(st: Style, p: Painter, s: States)
    ensures p !in Objects(st) && s !in Objects(st)
  {}

  method Draw(node: Node, env: Environment, p: Painter, s: States)
    requires p.Valid() && WellOwned(node)
    modifies p, s, Footprint(node)
    ensures Drawn(p, s, BrushAfter(node, env, old(p.state.brush)), Painting(node, env, old(Look(p.state, s.state))))
    decreases node, 1
  {
    hide Untouched, AppliedBrush, RevertedBrush, StyleOn, ContentPainting, ContentBrush;
    if node.content.Defs? {
      return;
    }
    ghost var paints, extra := p.state, s.state;
    ApplyStyle(node.style, p, s);
    ghost var applied := p.state;
    PainterIsNoStyle(node.style, p, s);
    DrawContent(node.content, env, p, s);
    Bracketed(node.style, paints, extra, applied, s.state, p.state);
    RevertStyle(node.style, p, s, paints, extra);
  }

  method DrawContent(content: Content, env: Environment, p: Painter, s: States)
    requires p.Valid() && !content.Defs?
    requires match content
      case Group(children) => forall i | 0 <= i < |children| :: WellOwned(children[i])
      case Switch(children) => forall i | 0 <= i < |children| :: WellOwned(children[i])
      case Use(_, _, link) => WellOwned(link)
      case _ => true
    modifies p, s, ContentFootprint(content)
    ensures Drawn(p, s, ContentBrush(content, env, old(p.state.brush)), ContentPainting(content, env, old(Look(p.state, s.state))))
    decreases content, 0
  {
    match content
    case Shape(figure) => DrawShape(figure, p, s);
    case Line(figure) => DrawLine(figure, p, s);
    case Polyline(figure) => DrawPolyline(figure, p, s);
    case Image(figure) => p.Paint(figure, Picture);
    case Text(figure, spans) => DrawText(figure, spans, p, s);
    case Group(children) => DrawChildren(children, env, p, s);
    case Switch(children) => DrawChosen(children, env, p, s);
    case Use(x, y, link) => DrawLink(x, y, link, env, p, s);
  }

  method DrawChildren(children: seq<Node>, env: Environment, p: Painter, s: States)
    requires p.Valid() && forall i | 0 <= i < |children| :: WellOwned(children[i])
    modifies p, s, ContentFootprint(Group(children))
    ensures Drawn(p, s, ChildrenBrush(children, env, old(p.state.brush)),
      ChildrenPainting(children, env, old(Look(p.state, s.state))))
    decreases children, 2
  {
    hide WellOwned, BrushAfter, Footprint, Painting;
    var i := 0;
    while i < |children|
      invariant 0 <= i <= |children|
      invariant Drawn(p, s, ChildrenBrush(children[..i], env, old(p.state.brush)),
        ChildrenPainting(children[..i], env, old(Look(p.state, s.state))))
    {
      if children[i].shown {
        assert Look(p.state, s.state) ==
          WithBrush(old(Look(p.state, s.state)), ChildrenBrush(children[..i], env, old(p.state.brush)));
        assert Footprint(children[i]) <= ContentFootprint(Group(children));
        Draw(children[i], env, p, s);
      }
      assert children[..i + 1][..i] == children[..i];
      i := i + 1;
    }
    assert children[..i] == children;
  }

  method DrawChosen(children: seq<Node>, env: Environment, p: Painter, s: States)
    requires p.Valid() && forall i | 0 <= i < |children| :: WellOwned(children[i])
    modifies p, s, ContentFootprint(Switch(children))
    ensures var i := Chosen(children, env);
      Drawn(p, s, if i == |children| then old(p.state.brush) else BrushAfter(children[i], env, old(p.state.brush)),
        if i == |children| then [] else Painting(children[i], env, old(Look(p.state, s.state))))
    decreases children, 2
  {
    hide WellOwned, BrushAfter, Footprint, Painting;
    var i := 0;
    while i < |children|
      invariant 0 <= i <= |children| && p.Valid()
      invariant p.state == old(p.state) && s.state == old(s.state) && p.painted == old(p.painted)
      invariant Chosen(children, env) == i + Chosen(children[i..], env)
    {
      assert children[i..][0] == children[i] && children[i..][1..] == children[i + 1..];
      if children[i].shown {
        var okToRender := IsOkToRender(children[i].conditions, env);
        if okToRender {
          assert Footprint(children[i]) <= ContentFootprint(Switch(children));
          Draw(children[i], env, p, s);
          return;
        }
      }
      i := i + 1;
    }
  }

  method IsOkToRender(c: Conditions, env: Environment) returns (ok: bool)
    ensures ok == OkToRender(c, env)
  {
    ok := true;
    var i := 0;
    while ok && i < |c.features|
      invariant 0 <= i <= |c.features|
      invariant ok <==> forall j | 0 <= j < i :: c.features[j] in env.features
    {
      if c.features[i] !in env.features {
        ok := false;
      }
      i := i + 1;
    }
    assert ok <==> forall f | f in c.features :: f in env.features;
    if ok && c.extensions != [] {
      ok := false;
    }
    if ok && c.languages != [] {
      ok := false;
      i := 0;
      while !ok && i < |c.languages|
        invariant 0 <= i <= |c.languages|
        invariant ok <==> exists j :: 0 <= j < i && env.languagePrefix <= c.languages[j]
      {
        if env.languagePrefix <= c.languages[i] {
          ok := true;
        }
        i := i + 1;
      }
      assert forall j | 0 <= j < |c.languages| :: c.languages[j] in c.languages;
      assert (exists l :: l in c.languages && env.languagePrefix <= l)
        <==> (exists j :: 0 <= j < |c.languages| && env.languagePrefix <= c.languages[j]);
    }
    if ok && c.formats != [] {
      ok := false;
    }
    if ok && c.fonts != [] {
      ok := false;
    }
  }

  /** QSvgUse: moves the painter, draws the link, and moves it back. */
  method DrawLink(x: real, y: real, link: Node, env: Environment, p: Painter, s: States)
    requires p.Valid() && WellOwned(link)
    modifies p, s, Footprint(link)
    ensures Drawn(p, s, BrushAfter(link, env, old(p.state.brush)), Painting(link, env, Moved(old(Look(p.state, s.state)), x, y)))
    decreases link, 2
  {
    hide WellOwned, BrushAfter, Footprint, Painting;
    var before := p.state.transform;
    if x != 0.0 || y != 0.0 {
      p.state := p.state.(transform := p.state.transform.Translated(x, y));
    }
    Draw(link, env, p, s);
    if x != 0.0 || y != 0.0 {
      MovedBack(before, x, y);
      p.state := p.state.(transform := p.state.transform.Translated(-x, -y));
    }
  }

  /** In exact arithmetic, moving forth and back is nothing. */
  lemma MovedBack(t: Transform, x: real, y: real)
    ensures t.Translated(x, y).Translated(-x, -y) == t
  {
    hide Along;
    AlongMoved(-x, -y, x, y, t.m11, t.m21, t.dx);
    AlongMoved(-x, -y, x, y, t.m12, t.m22, t.dy);
    Nowhere(t.m11, t.m21, t.dx);
    Nowhere(t.m12, t.m22, t.dy);
  }

  lemma Nowhere(a: real, b: real, c: real)
    ensures Along(0.0, 0.0, a, b, c) == c
  {}

  /** Drawing a tree leaves painter and states as they were if and only if it leaves no other brush. */
  method DrawCleanly(node: Node, env: Environment, p: Painter, s: States)
    requires p.Valid() && WellOwned(node)
    modifies p, s, Footprint(node)
    ensures p.Valid() && s.state == old(s.state)
    ensures p.state == old(p.state) <==> Leaves(node, env).None? || Leaves(node, env) == Some(old(p.state.brush))
    ensures FillsOnce(node) ==> p.state == old(p.state)
  {
    ghost var brush := p.state.brush;
    BrushComesBack(node, env, brush);
    if FillsOnce(node) {
      FillsOnceLeavesNothing(node, env);
    }
    Draw(node, env, p, s);
  }
}
