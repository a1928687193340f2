/** Pens, which share their data until one of them changes. */
module Pens {

  datatype Brush = NoBrush | Paint(id: int)

  datatype PenStyle = NoPen | SolidLine | CustomDashLine | Predefined(kind: nat)

  datatype Pen = Pen(
    brush: Brush, width: real, style: PenStyle, dashes: seq<real>, dashOffset: real,
    cap: int, join: int, miterLimit: real, cosmetic: bool)
  {
    /** The pattern that is drawn. */
    function Pattern(): seq<real> {
      if style == SolidLine || style == NoPen then [] else dashes
    }

    /** Whether the pens agree in everything but the dashes. */
    predicate SameButDashes(other: Pen) {
      this.(dashes := other.dashes) == other
    }
  }

  const BLACK := Paint(0)
  const NO_PEN := Pen(BLACK, 0.0, NoPen, [], 0.0, 0, 0, 2.0, false)

  function Penless(pen: Pen): Pen {
    if pen.style == NoPen then pen else NO_PEN
  }

  function Abs(x: real): real {
    if x < 0.0 then -x else x
  }

  /** qFuzzyCompare. */
  predicate Close(x: real, y: real) {
    Abs(x - y) <= 0.000000000001 * if Abs(x) < Abs(y) then Abs(x) else Abs(y)
  }

  /** The difference is within the tolerance of either number. */
  lemma CloseToBoth(x: real, y: real)
    ensures Close(x, y) <==>
      -0.000000000001 * Abs(x) <= x - y <= 0.000000000001 * Abs(x)
      && -0.000000000001 * Abs(y) <= x - y <= 0.000000000001 * Abs(y)
    ensures Abs(x) >= 0.0 && (Abs(x) == x || Abs(x) == -x)
  {}

  lemma CloseToItself(x: real)
    ensures Close(x, x)
  {}

  /** Whether setting a width changes anything. */
  predicate SameWidth(x: real, y: real) {
    Abs(x - y) < 0.00000001
  }

  /** What detaching leaves: a copy of the data is made without the dashes. */
  function Detached(pen: Pen, shared: bool): Pen {
    if shared then pen.(dashes := []) else pen
  }

  /** Patterns have an even length. */
  function Even(pattern: seq<real>): seq<real> {
    if |pattern| % 2 == 1 then pattern + [1.0] else pattern
  }

  predicate TakesPattern(pen: Pen, pattern: seq<real>) {
    pattern != [] && pen.dashes != pattern
  }

  /** setDashPattern, which leaves the style alone if the pattern is the one the pen has. */
  function WithPattern(pen: Pen, pattern: seq<real>): Pen {
    if TakesPattern(pen, pattern) then pen.(dashes := Even(pattern), style := CustomDashLine) else pen
  }

  /** A pen whose dashes are those of the pen it was copied from as long as they share their data, which
      is as long as nothing has changed; and which has none afterwards. */
  predicate Follows(pen: Pen, shared: bool, before: Pen) {
    && pen.dashes == (if shared then before.dashes else [])
    && (shared <==> pen.SameButDashes(before))
  }

  /** A copy of a pen. */
  class CopiedPen {
    var pen: Pen
    var shared: bool

    constructor (pen: Pen)
      ensures this.pen == pen && shared
    {
      this.pen, shared := pen, true;
    }

    /** qAtomicDetach. */
    method Detach()
      modifies this
      ensures pen == Detached(old(pen), old(shared)) && !shared
    {
      if !shared {
        return;
      }
      pen, shared := pen.(dashes := []), false;
    }

    method SetBrush(brush: Brush)
      modifies this
      ensures if old(pen.brush) == brush then pen == old(pen) && shared == old(shared)
              else pen == Detached(old(pen), old(shared)).(brush := brush) && !shared
    {
      if pen.brush == brush {
        return;
      }
      Detach();
      pen := pen.(brush := brush);
    }

    method SetWidth(width: real)
      modifies this
      ensures if SameWidth(old(pen.width), width) then pen == old(pen) && shared == old(shared)
              else pen == Detached(old(pen), old(shared)).(width := width) && !shared
    {
      if Abs(pen.width - width) < 0.00000001 {
        return;
      }
      Detach();
      pen := pen.(width := width);
    }

    /** setStyle for a solid line. */
    method SetSolid()
      modifies this
      ensures if old(pen.style) == SolidLine then pen == old(pen) && shared == old(shared)
              else pen == Detached(old(pen), old(shared)).(style := SolidLine, dashOffset := 0.0) && !shared
    {
      if pen.style == SolidLine {
        return;
      }
      Detach();
      pen := pen.(style := SolidLine, dashOffset := 0.0);
    }

    method SetDashPattern(pattern: seq<real>)
      modifies this
      ensures pen == WithPattern(old(pen), pattern) && shared == (old(shared) && !TakesPattern(old(pen), pattern))
    {
      if pattern == [] || pen.dashes == pattern {
        return;
      }
      Detach();
      pen := pen.(dashes := pattern, style := CustomDashLine);
      if |pen.dashes| % 2 == 1 {
        pen := pen.(dashes := pen.dashes + [1.0]);
      }
    }

    method SetDashOffset(offset: real)
      modifies this
      ensures if Close(offset, old(pen.dashOffset)) then pen == old(pen) && shared == old(shared)
              else
                var own := Detached(old(pen), old(shared));
                pen == own.(dashOffset := offset, style := CustomDashLine,
                  dashes := if own.style == CustomDashLine then own.dashes else own.Pattern()) && !shared
    {
      if Close(offset, pen.dashOffset) {
        return;
      }
      Detach();
      pen := pen.(dashOffset := offset);
      if pen.style != CustomDashLine {
        pen := pen.(dashes := pen.Pattern());
        pen := pen.(style := CustomDashLine);
      }
    }

    method SetCap(cap: int)
      modifies this
      ensures if old(pen.cap) == cap then pen == old(pen) && shared == old(shared)
              else pen == Detached(old(pen), old(shared)).(cap := cap) && !shared
    {
      if pen.cap == cap {
        return;
      }
      Detach();
      pen := pen.(cap := cap);
    }

    method SetJoin(join: int)
      modifies this
      ensures if old(pen.join) == join then pen == old(pen) && shared == old(shared)
              else pen == Detached(old(pen), old(shared)).(join := join) && !shared
    {
      if pen.join == join {
        return;
      }
      Detach();
      pen := pen.(join := join);
    }

    method SetMiterLimit(limit: real)
      modifies this
      ensures if old(pen.miterLimit) == limit then pen == old(pen) && shared == old(shared)
              else pen == Detached(old(pen), old(shared)).(miterLimit := limit) && !shared
    {
      if pen.miterLimit == limit {
        return;
      }
      Detach();
      pen := pen.(miterLimit := limit);
    }

    method SetCosmetic(cosmetic: bool)
      modifies this
      ensures if old(pen.cosmetic) == cosmetic then pen == old(pen) && shared == old(shared)
              else pen == Detached(old(pen), old(shared)).(cosmetic := cosmetic) && !shared
    {
      if pen.cosmetic == cosmetic {
        return;
      }
      Detach();
      pen := pen.(cosmetic := cosmetic);
    }
  }
}
