/**
 The falling-glyph rain (matrix_style.py): columns of glyph slots at a fixed
 (x, z), whose head falls by a per-column speed each tick, and the system that
 recycles a column to the top once its head passes the bottom of the bounds.
 Every random draw of the source is a parameter constrained to the range the
 source draws it from.
 */
module MatrixRain {
  import opened Numeric
  import opened Geometry

  /** The glyph palette `MatrixColumn.CHARS`. */
  const Chars: string := "ｱｲｳｴｵｶｷｸｹｺｻｼｽｾｿﾀﾁﾂﾃﾄﾅﾆﾇﾈﾉﾊﾋﾌﾍﾎﾏﾐﾑﾒﾓﾔﾕﾖﾗﾘﾙﾚﾛﾜﾝ0123456789ABCDEFZ"

  /** Vertical distance between consecutive slots of a trail. */
  const CharSpacing: real := 0.5
  const MinSpeed: real := 0.08
  const MaxSpeed: real := 0.18
  /** Brightness of the head slot. */
  const HeadBrightness: int := 255
  /** Brightness the tail fades toward. */
  const TailBrightness: int := 50
  /** How far past the bounds the head may travel before it is recycled. */
  const Margin: real := 2.0
  const MinTrail: int := 6
  const MaxTrail: int := 12

  /** One trail position: the `{'char', 'y', 'brightness'}` record. */
  datatype Slot = Slot(glyph: char, y: real, brightness: int)

  /** A `MatrixColumn`; `slots` is its `characters` list. */
  datatype Column = Column(x: real, z: real, trailLength: nat, headY: real, speed: real, slots: seq<Slot>)

  /** The per-slot random decision of one update tick: keep the glyph, or
      replace it with a freshly drawn one. */
  datatype GlyphDraw = Keep | Redraw(glyph: char)

  predicate AllGlyphs(glyphs: string)
  {
    forall i :: 0 <= i < |glyphs| ==> glyphs[i] in Chars
  }

  /** `_calculate_brightness(index)` for a column of the given trail length:
      255 at the head, then a linear fade from 200 toward 50 truncated to an
      integer. Python raises on a non-head index of a zero-length trail. */
  function Brightness(index: nat, trailLength: nat): (r: int)
    requires index == 0 || trailLength != 0
    ensures index == 0 ==> r == HeadBrightness
    ensures 1 <= index < trailLength ==> TailBrightness <= r < 200
    ensures 0 < index == trailLength ==> r == TailBrightness
    ensures 0 < index ==> r <= 200
    ensures 0 < index <= trailLength ==> r == TailBrightness + (150 * (trailLength - index)) / trailLength
  {
    if index == 0 then HeadBrightness
    else
      var fade := 1.0 - index as real / trailLength as real;
      FadeBounds(index, trailLength);
      FadeIsIntegerFade(index, trailLength);
      Trunc(50.0 + fade * 150.0)
  }

  /** On the trail the truncated real fade equals an integer one: 50 plus
      150 times the fraction of the trail still ahead, rounded down. */
  lemma FadeIsIntegerFade(index: nat, trailLength: nat)
    requires 0 < index && 0 < trailLength
    ensures index <= trailLength ==>
              Trunc(50.0 + (1.0 - index as real / trailLength as real) * 150.0)
              == TailBrightness + (150 * (trailLength - index)) / trailLength
  {
    if index <= trailLength {
      IntegerFadeOnTrail(index, trailLength);
    }
  }

  lemma IntegerFadeOnTrail(index: nat, trailLength: nat)
    requires 0 < index <= trailLength
    ensures Trunc(50.0 + (1.0 - index as real / trailLength as real) * 150.0)
            == TailBrightness + (150 * (trailLength - index)) / trailLength
  {
    var t := trailLength as real;
    var n := 150 * (trailLength - index);
    var q := n / trailLength;
    var rem := n % trailLength;
    FadeAsQuotient(index, trailLength);
    QuotientSplit(n, trailLength);
    assert n as real / t == q as real + rem as real / t;
    DivideMonotone(rem as real, t, t);
    TruncOfSplit(50 + q, rem as real / t);
  }

  /** The real fade is `150 * (L - i) / L` above 50. */
  lemma FadeAsQuotient(index: nat, trailLength: nat)
    requires 0 < index <= trailLength
    ensures 50.0 + (1.0 - index as real / trailLength as real) * 150.0
            == 50.0 + (150 * (trailLength - index)) as real / trailLength as real
  {
    var t := trailLength as real;
    var a := index as real / t;
    var b := (150 * (trailLength - index)) as real / t;
    assert a * t == index as real;
    assert b * t == 150.0 * (t - index as real);
    var gap := (1.0 - a) * 150.0 - b;
    assert gap * t == 0.0;
    assert gap == (gap * t) / t;
  }

  /** Real division by a positive integer splits into quotient and remainder. */
  lemma QuotientSplit(n: int, d: nat)
    requires 0 < d
    ensures n as real / d as real == (n / d) as real + (n % d) as real / d as real
  {
    var t := d as real;
    assert n as real == (n / d) as real * t + (n % d) as real;
  }

  /** Truncating a non-negative integer plus a fraction gives the integer. */
  lemma TruncOfSplit(k: int, frac: real)
    requires 0 <= k && 0.0 <= frac < 1.0
    ensures Trunc(k as real + frac) == k
  {
  }

  /** Where the linear fade of a non-head slot lies. */
  lemma FadeBounds(index: nat, trailLength: nat)
    requires 0 < index && 0 < trailLength
    ensures var v := 50.0 + (1.0 - index as real / trailLength as real) * 150.0;
      && (index < trailLength ==> 50.0 < v < 200.0)
      && (index == trailLength ==> v == 50.0)
      && v <= 200.0
  {
    var q := index as real / trailLength as real;
    assert q * trailLength as real == index as real;
    assert 0.0 < q;
    if index < trailLength {
      assert q < 1.0;
    }
  }

  /** A trail of 8: the head at 255, then `int(50 + (1 - i/8) * 150)`, so
      index 1 at 181 (181.25), index 3 at 143 (143.75) and index 8 at 50. */
  lemma BrightnessExamples()
    ensures Brightness(0, 8) == 255
    ensures Brightness(1, 8) == 181
    ensures Brightness(3, 8) == 143
    ensures Brightness(8, 8) == 50
  {
  }

  /** The fade is non-increasing along the trail: the head is brightest and
      every slot is at most as bright as the one before it. */
  lemma BrightnessNonIncreasing(i: nat, j: nat, trailLength: nat)
    requires i <= j
    requires j == 0 || trailLength != 0
    ensures Brightness(j, trailLength) <= Brightness(i, trailLength)
  {
    if 0 < i {
      var t := trailLength as real;
      DivideMonotone(i as real, j as real, t);
      TruncMonotone(50.0 + (1.0 - j as real / t) * 150.0, 50.0 + (1.0 - i as real / t) * 150.0);
    }
  }

  /** Slot i sits `i * 0.5` below the head: the trail is rigid. */
  predicate Aligned(c: Column)
  {
    forall i :: 0 <= i < |c.slots| ==> c.slots[i].y == c.headY - i as real * CharSpacing
  }

  /** Every slot carries the brightness of its trail index. */
  predicate Shaded(c: Column)
    requires |c.slots| == c.trailLength
  {
    forall i :: 0 <= i < |c.slots| ==> c.slots[i].brightness == Brightness(i, c.trailLength)
  }

  /** What holds of every column from construction on. */
  predicate WellFormed(c: Column)
  {
    && |c.slots| == c.trailLength
    && MinSpeed <= c.speed <= MaxSpeed
    && Aligned(c)
    && Shaded(c)
    && forall i :: 0 <= i < |c.slots| ==> c.slots[i].glyph in Chars
  }

  /** `MatrixColumn.__init__`: `headY` and `speed` are the two uniform draws,
      `glyphs` the per-slot choices from the palette. */
  function NewColumn(x: real, z: real, trailLength: nat, headY: real, speed: real, glyphs: string): (c: Column)
    requires -10.0 <= headY <= 0.0
    requires MinSpeed <= speed <= MaxSpeed
    requires |glyphs| == trailLength && AllGlyphs(glyphs)
    ensures WellFormed(c)
    ensures |c.slots| == trailLength
    ensures c.x == x && c.z == z && c.trailLength == trailLength
    ensures -10.0 <= c.headY <= 0.0 && c.headY == headY
    ensures forall i :: 0 <= i < trailLength ==> c.slots[i].glyph == glyphs[i]
  {
    Column(x, z, trailLength, headY, speed,
           seq(trailLength, i requires 0 <= i < trailLength =>
             Slot(glyphs[i], headY - i as real * CharSpacing, Brightness(i, trailLength))))
  }

  predicate UpdateDraws(c: Column, draws: seq<GlyphDraw>)
  {
    && |draws| == |c.slots|
    && forall i :: 0 <= i < |draws| && draws[i].Redraw? ==> draws[i].glyph in Chars
  }

  function NextGlyph(s: Slot, d: GlyphDraw): char
  {
    match d
    case Keep => s.glyph
    case Redraw(g) => g
  }

  /** `MatrixColumn.update`: the head falls by `speed`, every slot is
      re-aligned behind it, and some glyphs are re-drawn. */
  function Update(c: Column, draws: seq<GlyphDraw>): (r: Column)
    requires UpdateDraws(c, draws)
    ensures r.headY == c.headY + c.speed
    ensures Aligned(r)
    ensures r.x == c.x && r.z == c.z && r.trailLength == c.trailLength && r.speed == c.speed
    ensures |r.slots| == |c.slots|
    ensures forall i :: 0 <= i < |c.slots| ==> r.slots[i].brightness == c.slots[i].brightness
    ensures forall i :: 0 <= i < |c.slots| ==>
              r.slots[i].glyph == c.slots[i].glyph || r.slots[i].glyph in Chars
  {
    var head := c.headY + c.speed;
    c.(headY := head,
       slots := seq(|c.slots|, i requires 0 <= i < |c.slots| =>
         Slot(NextGlyph(c.slots[i], draws[i]), head - i as real * CharSpacing, c.slots[i].brightness)))
  }

  /** An update moves an aligned trail rigidly: every slot falls by exactly
      the column's speed, which is positive for a well-formed column. */
  lemma UpdateIsRigid(c: Column, draws: seq<GlyphDraw>)
    requires UpdateDraws(c, draws)
    requires Aligned(c)
    ensures forall i :: 0 <= i < |c.slots| ==> Update(c, draws).slots[i].y == c.slots[i].y + c.speed
    ensures WellFormed(c) ==> Update(c, draws).headY > c.headY
  {
  }

  /** An update keeps a column well-formed. */
  lemma UpdatePreservesWellFormed(c: Column, draws: seq<GlyphDraw>)
    requires UpdateDraws(c, draws)
    requires WellFormed(c)
    ensures WellFormed(Update(c, draws))
  {
  }

  /** A reset regenerates brightnesses, which divides by the trail length for
      every slot past the head. */
  predicate Resettable(c: Column)
  {
    |c.slots| <= 1 || c.trailLength != 0
  }

  predicate ResetDraws(c: Column, speed: real, glyphs: string)
  {
    MinSpeed <= speed <= MaxSpeed && |glyphs| == |c.slots| && AllGlyphs(glyphs)
  }

  /** `MatrixColumn.reset(y_min)`: the column is recycled in place above the
      bounds with a new speed and new glyphs. */
  function Reset(c: Column, yMin: real, speed: real, glyphs: string): (r: Column)
    requires Resettable(c)
    requires ResetDraws(c, speed, glyphs)
    ensures r.headY == yMin - Margin
    ensures MinSpeed <= r.speed <= MaxSpeed
    ensures Aligned(r)
    ensures |r.slots| == |c.slots|
    ensures forall i :: 0 <= i < |r.slots| ==> r.slots[i].brightness == Brightness(i, c.trailLength)
    ensures r.x == c.x && r.z == c.z && r.trailLength == c.trailLength
    ensures |c.slots| == c.trailLength ==> WellFormed(r)
  {
    var head := yMin - Margin;
    c.(headY := head, speed := speed,
       slots := seq(|c.slots|, i requires 0 <= i < |c.slots| =>
         Slot(glyphs[i], head - i as real * CharSpacing, Brightness(i, c.trailLength))))
  }

  /** Two columns agree on everything a reset determines: head, slot count,
      slot positions and slot brightnesses. */
  predicate SameShape(a: Column, b: Column)
  {
    && a.headY == b.headY
    && |a.slots| == |b.slots|
    && forall i :: 0 <= i < |a.slots| ==>
         a.slots[i].y == b.slots[i].y && a.slots[i].brightness == b.slots[i].brightness
  }

  /** Resetting twice to the same `y_min` leaves positions and brightnesses
      where the first reset put them; only speed and glyphs are re-drawn. */
  lemma ResetIdempotent(c: Column, yMin: real, s1: real, g1: string, s2: real, g2: string)
    requires Resettable(c) && ResetDraws(c, s1, g1)
    requires ResetDraws(Reset(c, yMin, s1, g1), s2, g2)
    ensures Resettable(Reset(c, yMin, s1, g1))
    ensures SameShape(Reset(Reset(c, yMin, s1, g1), yMin, s2, g2), Reset(c, yMin, s1, g1))
  {
  }

  /** A rendering tuple `(x, y, z, char, brightness)`. */
  datatype Glyph = Glyph(x: real, y: real, z: real, glyph: char, brightness: int)

  /** `MatrixColumn.get_characters`. */
  function GetCharacters(c: Column): (r: seq<Glyph>)
    ensures |r| == |c.slots|
    ensures forall i :: 0 <= i < |r| ==> r[i].x == c.x && r[i].z == c.z
    ensures forall i :: 0 <= i < |r| ==>
              r[i].y == c.slots[i].y && r[i].glyph == c.slots[i].glyph && r[i].brightness == c.slots[i].brightness
  {
    seq(|c.slots|, i requires 0 <= i < |c.slots| =>
      Glyph(c.x, c.slots[i].y, c.z, c.slots[i].glyph, c.slots[i].brightness))
  }

  /** For a well-formed column the rendered tuples descend from the head in
      steps of the slot spacing and fade from 255 toward 50. */
  lemma GetCharactersOfWellFormed(c: Column)
    requires WellFormed(c)
    ensures forall i :: 0 <= i < |GetCharacters(c)| ==>
              GetCharacters(c)[i].y == c.headY - i as real * CharSpacing
    ensures forall i, j :: 0 <= i <= j < |GetCharacters(c)| ==>
              GetCharacters(c)[j].brightness <= GetCharacters(c)[i].brightness
    ensures |c.slots| > 0 ==> GetCharacters(c)[0].brightness == HeadBrightness
  {
    var r := GetCharacters(c);
    forall i, j | 0 <= i <= j < |r|
      ensures r[j].brightness <= r[i].brightness
    {
      BrightnessNonIncreasing(i, j, c.trailLength);
    }
  }

  /** A `MatrixRainSystem`. */
  datatype Rain = Rain(bounds: Bounds, columns: seq<Column>)

  /** The draws `MatrixRainSystem.__init__` makes for one column: its
      placement and trail length, then the draws of `MatrixColumn.__init__`. */
  datatype ColumnDraw = ColumnDraw(x: real, z: real, trailLength: int, headY: real, speed: real, glyphs: string)

  predicate ColumnDrawOk(b: Bounds, d: ColumnDraw)
  {
    && Uniform(d.x, b.minX, b.maxX)
    && Uniform(d.z, b.minZ, b.maxZ)
    && MinTrail <= d.trailLength <= MaxTrail
    && -10.0 <= d.headY <= 0.0
    && MinSpeed <= d.speed <= MaxSpeed
    && |d.glyphs| == d.trailLength
    && AllGlyphs(d.glyphs)
  }

  /** `MatrixRainSystem.__init__` without the font: `numColumns` columns
      placed at uniform (x, z) inside the bounds. */
  function NewRain(numColumns: nat, b: Bounds, draws: seq<ColumnDraw>): (r: Rain)
    requires |draws| == numColumns
    requires forall k :: 0 <= k < |draws| ==> ColumnDrawOk(b, draws[k])
    ensures r.bounds == b
    ensures |r.columns| == numColumns
    ensures forall k :: 0 <= k < numColumns ==> WellFormed(r.columns[k])
    ensures forall k :: 0 <= k < numColumns ==>
              MinTrail <= r.columns[k].trailLength <= MaxTrail && -10.0 <= r.columns[k].headY <= 0.0
    ensures b.minX <= b.maxX ==> forall k :: 0 <= k < numColumns ==> b.minX <= r.columns[k].x <= b.maxX
    ensures b.minZ <= b.maxZ ==> forall k :: 0 <= k < numColumns ==> b.minZ <= r.columns[k].z <= b.maxZ
  {
    Rain(b, seq(numColumns, k requires 0 <= k < numColumns => PlaceColumn(b, draws[k])))
  }

  /** One iteration of the construction loop. */
  function PlaceColumn(b: Bounds, d: ColumnDraw): (c: Column)
    requires ColumnDrawOk(b, d)
    ensures WellFormed(c)
    ensures MinTrail <= c.trailLength <= MaxTrail && -10.0 <= c.headY <= 0.0
    ensures b.minX <= b.maxX ==> b.minX <= c.x <= b.maxX
    ensures b.minZ <= b.maxZ ==> b.minZ <= c.z <= b.maxZ
  {
    NewColumn(d.x, d.z, d.trailLength, d.headY, d.speed, d.glyphs)
  }

  /** The head height past which a column is recycled. */
  function Ceiling(b: Bounds): real
  {
    b.maxY + Margin
  }

  /** The draws `reset` would make for one column in a tick. */
  datatype ResetDraw = ResetDraw(speed: real, glyphs: string)

  predicate TickDraws(c: Column, b: Bounds, move: seq<GlyphDraw>, reset: ResetDraw)
  {
    && UpdateDraws(c, move)
    && (Update(c, move).headY > Ceiling(b) ==> Resettable(c) && ResetDraws(c, reset.speed, reset.glyphs))
  }

  /** One column's share of `MatrixRainSystem.update`. */
  function Tick(c: Column, b: Bounds, move: seq<GlyphDraw>, reset: ResetDraw): (r: Column)
    requires TickDraws(c, b, move, reset)
    ensures b.minY <= b.maxY ==> r.headY <= Ceiling(b)
    ensures Update(c, move).headY > Ceiling(b) ==> SameShape(r, Reset(c, b.minY, reset.speed, reset.glyphs))
    ensures Update(c, move).headY <= Ceiling(b) ==> r == Update(c, move)
    ensures WellFormed(c) ==> WellFormed(r)
  {
    var moved := Update(c, move);
    if moved.headY > Ceiling(b) then Reset(moved, b.minY, reset.speed, reset.glyphs) else moved
  }

  /** `MatrixRainSystem.update`: every column falls one tick, and a column
      whose head has passed `max_y + 2` is reset to `min_y - 2`. */
  function RainUpdate(rain: Rain, moves: seq<seq<GlyphDraw>>, resets: seq<ResetDraw>): (r: Rain)
    requires |moves| == |rain.columns| && |resets| == |rain.columns|
    requires forall k :: 0 <= k < |rain.columns| ==> UpdateDraws(rain.columns[k], moves[k])
    requires forall k :: 0 <= k < |rain.columns| ==>
               Update(rain.columns[k], moves[k]).headY > Ceiling(rain.bounds) ==>
                 Resettable(rain.columns[k]) && ResetDraws(rain.columns[k], resets[k].speed, resets[k].glyphs)
    ensures r.bounds == rain.bounds
    ensures |r.columns| == |rain.columns|
    ensures forall k :: 0 <= k < |rain.columns| ==>
              Update(rain.columns[k], moves[k]).headY > Ceiling(rain.bounds) ==>
                r.columns[k].headY == rain.bounds.minY - Margin
    ensures forall k :: 0 <= k < |rain.columns| ==>
              Update(rain.columns[k], moves[k]).headY <= Ceiling(rain.bounds) ==>
                r.columns[k] == Update(rain.columns[k], moves[k])
    ensures rain.bounds.minY <= rain.bounds.maxY ==>
              forall k :: 0 <= k < |r.columns| ==> r.columns[k].headY <= Ceiling(rain.bounds)
    ensures (forall k :: 0 <= k < |rain.columns| ==> WellFormed(rain.columns[k])) ==>
              forall k :: 0 <= k < |r.columns| ==> WellFormed(r.columns[k])
    ensures forall k :: 0 <= k < |r.columns| ==>
              r.columns[k].x == rain.columns[k].x && r.columns[k].z == rain.columns[k].z
  {
    Rain(rain.bounds, seq(|rain.columns|, k requires 0 <= k < |rain.columns| =>
      Tick(rain.columns[k], rain.bounds, moves[k], resets[k])))
  }
}
