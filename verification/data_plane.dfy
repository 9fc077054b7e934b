/**
 One data plane of the tunnel (the `DataPlane` class of data_planes.py): a
 wireframe rectangle at a fixed depth with 5 to 10 error messages scattered
 over it. Each message counts down to a re-label and carries a small
 horizontal glitch offset that is re-drawn every 0.1 time units. Random draws
 are parameters; the sine-driven colour factor is an input.
 */
module DataPlane {
  import opened Numeric
  import opened Geometry

  /** `DataPlane.ERROR_MESSAGES`. */
  const ErrorMessages: seq<string> := [
    "CRITICAL ERROR", "ACCESS DENIED", "SYSTEM FAILURE", "DATA CORRUPT",
    "CONNECTION LOST", "BREACH DETECTED", "WARNING", "ALERT", "FIREWALL DOWN",
    "UNAUTHORIZED", "TIMEOUT", "FATAL ERROR", "!", "!!", "ERROR CODE: 0x8F4A",
    "BUFFER OVERFLOW", "STACK TRACE", "SEGFAULT", "CORE DUMPED"
  ]

  const MinMessages: int := 5
  const MaxMessages: int := 10
  /** Messages keep this distance from the plane's edges. */
  const Inset: real := 0.5
  const MinChangeTimer: int := 60
  const MaxChangeTimer: int := 180
  /** Glitch clock increment per tick, and the period after which it fires. */
  const GlitchStep: real := 0.016
  const GlitchPeriod: real := 0.1
  const MaxGlitchOffset: real := 3.0
  const FrameColorSpeed: real := 0.05
  const MinPulseSpeed: real := 0.03
  const MaxPulseSpeed: real := 0.06
  /** `math.pi * 2` as a double. */
  const TwoPi: real := 6.283185307179586

  /** An RGB triple of integer channels. */
  datatype Rgb = Rgb(r: int, g: int, b: int)

  const Cyan: Rgb := Rgb(0, 255, 255)
  const Magenta: Rgb := Rgb(255, 0, 255)
  const Yellow: Rgb := Rgb(255, 255, 0)

  /** The names `random.choice` picks a message colour from. */
  datatype Hue = CyanHue | MagentaHue | YellowHue
  {
    function Color(): (c: Rgb)
      ensures c in {Cyan, Magenta, Yellow}
    {
      match this
      case CyanHue => Cyan
      case MagentaHue => Magenta
      case YellowHue => Yellow
    }
  }

  /** A message record `{'pos', 'text', 'color', 'brightness', 'change_timer',
      'glitch_timer', 'glitch_offset'}`. */
  datatype Message = Message(pos: Point3, text: string, color: Rgb, brightness: real,
                             changeTimer: int, glitchTimer: real, glitchOffset: real)

  datatype Plane = Plane(z: real, width: real, height: real, corners: seq<Point3>, messages: seq<Message>,
                         frameColorTime: real, frameColorSpeed: real,
                         pulseOffset: real, pulseSpeed: real, pulseTime: real)

  /** The four corners bottom-left, bottom-right, top-right, top-left of a
      `width` by `height` rectangle centred on the axis at depth `z`. */
  function Corners(width: real, height: real, z: real): (cs: seq<Point3>)
    ensures |cs| == 4
    ensures forall i :: 0 <= i < 4 ==> cs[i].z == z
    ensures forall i :: 0 <= i < 4 ==> Abs(cs[i].x) == Abs(width / 2.0) && Abs(cs[i].y) == Abs(height / 2.0)
    ensures cs[0].x == cs[3].x == -width / 2.0 && cs[1].x == cs[2].x == width / 2.0
    ensures cs[0].y == cs[1].y == -height / 2.0 && cs[2].y == cs[3].y == height / 2.0
  {
    [Point3(-width / 2.0, -height / 2.0, z), Point3(width / 2.0, -height / 2.0, z),
     Point3(width / 2.0, height / 2.0, z), Point3(-width / 2.0, height / 2.0, z)]
  }

  /** What holds of every message of a plane at depth `z` from construction on. */
  predicate MessageOk(m: Message, z: real)
  {
    && m.pos.z == z
    && m.text in ErrorMessages
    && m.color in {Cyan, Magenta, Yellow}
    && 0.5 <= m.brightness <= 1.0
    && 1 <= m.changeTimer <= MaxChangeTimer
    && 0.0 <= m.glitchTimer <= GlitchPeriod
    && -MaxGlitchOffset <= m.glitchOffset <= MaxGlitchOffset
  }

  /** What holds of every plane from construction on. */
  predicate WellFormed(p: Plane)
  {
    && p.corners == Corners(p.width, p.height, p.z)
    && MinMessages <= |p.messages| <= MaxMessages
    && (forall i :: 0 <= i < |p.messages| ==> MessageOk(p.messages[i], p.z))
    && p.frameColorSpeed == FrameColorSpeed
    && MinPulseSpeed <= p.pulseSpeed <= MaxPulseSpeed
  }

  /** The draws the constructor makes for one message. */
  datatype MessageDraw = MessageDraw(x: real, y: real, text: string, hue: Hue, brightness: real, changeTimer: int)

  /** The draws the constructor makes for one plane. */
  datatype PlaneDraw = PlaneDraw(messages: seq<MessageDraw>, frameColorTime: real, pulseOffset: real, pulseSpeed: real)

  predicate MessageDrawOk(width: real, height: real, d: MessageDraw)
  {
    && Uniform(d.x, -width / 2.0 + Inset, width / 2.0 - Inset)
    && Uniform(d.y, -height / 2.0 + Inset, height / 2.0 - Inset)
    && d.text in ErrorMessages
    && 0.5 <= d.brightness <= 1.0
    && MinChangeTimer <= d.changeTimer <= MaxChangeTimer
  }

  predicate PlaneDrawOk(width: real, height: real, d: PlaneDraw)
  {
    && MinMessages <= |d.messages| <= MaxMessages
    && (forall i :: 0 <= i < |d.messages| ==> MessageDrawOk(width, height, d.messages[i]))
    && 0.0 <= d.frameColorTime <= TwoPi
    && 0.0 <= d.pulseOffset <= TwoPi
    && MinPulseSpeed <= d.pulseSpeed <= MaxPulseSpeed
  }

  /** One iteration of the constructor's message loop. */
  function NewMessage(z: real, width: real, height: real, d: MessageDraw): (m: Message)
    requires MessageDrawOk(width, height, d)
    ensures MessageOk(m, z)
    ensures MinChangeTimer <= m.changeTimer <= MaxChangeTimer
    ensures m.glitchTimer == 0.0 && m.glitchOffset == 0.0
    ensures 1.0 <= width ==> -width / 2.0 + Inset <= m.pos.x <= width / 2.0 - Inset
    ensures 1.0 <= height ==> -height / 2.0 + Inset <= m.pos.y <= height / 2.0 - Inset
  {
    Message(Point3(d.x, d.y, z), d.text, d.hue.Color(), d.brightness, d.changeTimer, 0.0, 0.0)
  }

  /** `DataPlane.__init__`. */
  function NewPlane(z: real, width: real, height: real, d: PlaneDraw): (p: Plane)
    requires PlaneDrawOk(width, height, d)
    ensures WellFormed(p)
    ensures p.z == z && p.width == width && p.height == height
    ensures p.corners[0] == Point3(-width / 2.0, -height / 2.0, z)
    ensures p.corners[1] == Point3(width / 2.0, -height / 2.0, z)
    ensures p.corners[2] == Point3(width / 2.0, height / 2.0, z)
    ensures p.corners[3] == Point3(-width / 2.0, height / 2.0, z)
    ensures |p.messages| == |d.messages|
    ensures forall i :: 0 <= i < |p.messages| ==>
              && MinChangeTimer <= p.messages[i].changeTimer <= MaxChangeTimer
              && p.messages[i].glitchTimer == 0.0 && p.messages[i].glitchOffset == 0.0
    ensures 1.0 <= width ==> forall i :: 0 <= i < |p.messages| ==>
              -width / 2.0 + Inset <= p.messages[i].pos.x <= width / 2.0 - Inset
    ensures 1.0 <= height ==> forall i :: 0 <= i < |p.messages| ==>
              -height / 2.0 + Inset <= p.messages[i].pos.y <= height / 2.0 - Inset
    ensures p.pulseTime == 0.0
  {
    Plane(z, width, height, Corners(width, height, z),
          seq(|d.messages|, i requires 0 <= i < |d.messages| => NewMessage(z, width, height, d.messages[i])),
          d.frameColorTime, FrameColorSpeed, d.pulseOffset, d.pulseSpeed, 0.0)
  }

  /** The draws one update tick makes for one message: a new text and timer
      (used only if the timer runs out), and whether a firing glitch jumps
      (`random() < 0.2`) and by how much. */
  datatype MessageTick = MessageTick(newText: string, newTimer: int, jump: bool, offset: real)

  predicate MessageTickOk(t: MessageTick)
  {
    && t.newText in ErrorMessages
    && MinChangeTimer <= t.newTimer <= MaxChangeTimer
    && -MaxGlitchOffset <= t.offset <= MaxGlitchOffset
  }

  /** One message's share of `DataPlane.update`. */
  function TickMessage(m: Message, t: MessageTick): (r: Message)
    requires MessageTickOk(t)
    ensures r.pos == m.pos && r.color == m.color && r.brightness == m.brightness
    ensures m.changeTimer - 1 <= 0 ==> r.text == t.newText && r.changeTimer == t.newTimer
    ensures m.changeTimer - 1 > 0 ==> r.text == m.text && r.changeTimer == m.changeTimer - 1
    ensures m.glitchTimer + GlitchStep > GlitchPeriod ==>
              r.glitchTimer == 0.0 && (if t.jump then r.glitchOffset == t.offset else r.glitchOffset == 0.0)
    ensures m.glitchTimer + GlitchStep <= GlitchPeriod ==>
              r.glitchTimer == m.glitchTimer + GlitchStep && r.glitchOffset == m.glitchOffset
    ensures forall z :: MessageOk(m, z) ==> MessageOk(r, z)
  {
    var timer := m.changeTimer - 1;
    var relabel := m.
      (text := if timer <= 0 then t.newText else m.text,
       changeTimer := if timer <= 0 then t.newTimer else timer);
    var clock := m.glitchTimer + GlitchStep;
    if clock > GlitchPeriod then
      relabel.(glitchTimer := 0.0, glitchOffset := if t.jump then t.offset else 0.0)
    else
      relabel.(glitchTimer := clock)
  }

  /** `DataPlane.update`: the pulse and frame-colour clocks advance and every
      message ticks. */
  function Update(p: Plane, ticks: seq<MessageTick>): (r: Plane)
    requires |ticks| == |p.messages|
    requires forall i :: 0 <= i < |ticks| ==> MessageTickOk(ticks[i])
    ensures r.pulseTime == p.pulseTime + p.pulseSpeed
    ensures r.frameColorTime == p.frameColorTime + p.frameColorSpeed
    ensures r.z == p.z && r.width == p.width && r.height == p.height && r.corners == p.corners
    ensures |r.messages| == |p.messages|
    ensures forall i :: 0 <= i < |p.messages| ==> r.messages[i] == TickMessage(p.messages[i], ticks[i])
    ensures forall i :: 0 <= i < |p.messages| ==>
              && r.messages[i].pos == p.messages[i].pos
              && r.messages[i].color == p.messages[i].color
              && r.messages[i].brightness == p.messages[i].brightness
    ensures WellFormed(p) ==> WellFormed(r)
  {
    p.(pulseTime := p.pulseTime + p.pulseSpeed,
       frameColorTime := p.frameColorTime + p.frameColorSpeed,
       messages := seq(|p.messages|, i requires 0 <= i < |p.messages| => TickMessage(p.messages[i], ticks[i])))
  }

  /** A re-label timer that runs out is re-drawn in the same tick, so a
      timer never rests at zero; otherwise it counts down by one. */
  lemma ChangeTimerStaysPositive(p: Plane, ticks: seq<MessageTick>)
    requires WellFormed(p)
    requires |ticks| == |p.messages|
    requires forall i :: 0 <= i < |ticks| ==> MessageTickOk(ticks[i])
    ensures forall i :: 0 <= i < |p.messages| ==>
              var before := p.messages[i].changeTimer;
              var after := Update(p, ticks).messages[i].changeTimer;
              && 1 <= after <= MaxChangeTimer
              && (before == 1 ==> MinChangeTimer <= after && Update(p, ticks).messages[i].text == ticks[i].newText)
              && (before != 1 ==> after == before - 1)
  {
  }

  /** `_get_frame_color` for a given interpolation factor (the source derives
      it as `(sin(t) + 1) / 2`): cyan at 0, magenta at 1. */
  function FrameColor(factor: real): (c: Rgb)
    ensures 0.0 <= factor <= 1.0 ==> 0 <= c.r <= 255 && 0 <= c.g <= 255 && 0 <= c.b <= 255
    ensures factor == 0.0 ==> c == Cyan
    ensures factor == 1.0 ==> c == Magenta
    ensures c.b == 255
    ensures 0.0 <= factor <= 1.0 ==>
              && c.r as real <= 255.0 * factor < c.r as real + 1.0
              && c.g as real <= 255.0 * (1.0 - factor) < c.g as real + 1.0
  {
    var blue := Cyan.b as real * (1.0 - factor) + Magenta.b as real * factor;
    assert blue == 255.0;
    Rgb(Trunc(Cyan.r as real * (1.0 - factor) + Magenta.r as real * factor),
        Trunc(Cyan.g as real * (1.0 - factor) + Magenta.g as real * factor),
        Trunc(blue))
  }

  /** As the factor grows the frame colour moves from cyan toward magenta:
      red never falls and green never rises. */
  lemma FrameColorMonotone(f: real, g: real)
    requires f <= g
    ensures FrameColor(f).r <= FrameColor(g).r
    ensures FrameColor(g).g <= FrameColor(f).g
  {
    var redF := Cyan.r as real * (1.0 - f) + Magenta.r as real * f;
    var redG := Cyan.r as real * (1.0 - g) + Magenta.r as real * g;
    var greenF := Cyan.g as real * (1.0 - f) + Magenta.g as real * f;
    var greenG := Cyan.g as real * (1.0 - g) + Magenta.g as real * g;
    assert redF == 255.0 * f && redG == 255.0 * g;
    assert greenF == 255.0 - 255.0 * f && greenG == 255.0 - 255.0 * g;
    TruncMonotone(redF, redG);
    TruncMonotone(greenG, greenF);
  }

  /** Inside [0, 1] the red and green channels split 255 between them, up
      to one unit lost to truncation. */
  lemma FrameColorOnCyanMagentaEdge(f: real)
    requires 0.0 <= f <= 1.0
    ensures 254 <= FrameColor(f).r + FrameColor(f).g <= 255
  {
  }

  /** Depth normalisation in `_render_messages`, which always uses the range
      0 to 40 whatever the scene bounds are. */
  const FontDepthRange: real := 40.0
  const BaseFontSize: int := 20
  const MinFontSize: int := 8
  const MaxFontSize: int := 36

  /** The unrounded size `base_size * scale` of `_render_messages`: the depth
      clamped into [0, 40] and normalised, then `20 / (1 + 2 * norm)`, which
      is `400 / (20 + z)` inside the range. */
  function RawFontSize(z: real): (r: real)
    ensures 20.0 / 3.0 <= r <= 20.0
    ensures z <= 0.0 ==> r == 20.0
    ensures FontDepthRange <= z ==> r == 20.0 / 3.0
    ensures 0.0 <= z <= FontDepthRange ==> r == 400.0 / (20.0 + z)
  {
    var zNorm := Clamp01((z - 0.0) / (FontDepthRange - 0.0));
    ReciprocalAntitone(1.0, 1.0 + zNorm * 2.0);
    ReciprocalAntitone(1.0 + zNorm * 2.0, 3.0);
    FontScaleInRange(z);
    BaseFontSize as real * (1.0 / (1.0 + zNorm * 2.0))
  }

  /** Inside the depth range the unclamped size is `20 / (1 + 2 * z / 40)`,
      that is `400 / (20 + z)`. */
  lemma FontScaleInRange(z: real)
    ensures 0.0 <= z <= FontDepthRange ==>
              BaseFontSize as real * (1.0 / (1.0 + Clamp01((z - 0.0) / (FontDepthRange - 0.0)) * 2.0))
              == 400.0 / (20.0 + z)
  {
    if 0.0 <= z <= FontDepthRange {
      var n := (z - 0.0) / (FontDepthRange - 0.0);
      assert n * 40.0 == z;
      var d := 1.0 + n * 2.0;
      assert d * 20.0 == 20.0 + z;
      var lhs := 20.0 * (1.0 / d);
      assert lhs * d == 20.0;
      var rhs := 400.0 / (20.0 + z);
      assert rhs * (20.0 + z) == 400.0;
      var gap := lhs - rhs;
      assert gap * (20.0 + z) == 0.0;
      assert gap == (gap * (20.0 + z)) / (20.0 + z);
    }
  }

  /** A nearer plane never gets a smaller unrounded size. */
  lemma RawFontSizeNonIncreasing(z1: real, z2: real)
    requires z1 <= z2
    ensures RawFontSize(z2) <= RawFontSize(z1)
  {
    DivideMonotone(z1 - 0.0, z2 - 0.0, FontDepthRange - 0.0);
    var n1 := Clamp01((z1 - 0.0) / (FontDepthRange - 0.0));
    var n2 := Clamp01((z2 - 0.0) / (FontDepthRange - 0.0));
    Clamp01Monotone((z1 - 0.0) / (FontDepthRange - 0.0), (z2 - 0.0) / (FontDepthRange - 0.0));
    ReciprocalAntitone(1.0 + n1 * 2.0, 1.0 + n2 * 2.0);
  }

  /** The font size `_render_messages` uses for a plane at depth `z`:
      `int(base_size * scale)`, raised to at least 8 and capped at 36. */
  function FontSize(z: real): (size: int)
    ensures MinFontSize <= size <= MaxFontSize
    ensures size <= BaseFontSize
    ensures z <= 0.0 ==> size == BaseFontSize
    ensures FontDepthRange <= z ==> size == MinFontSize
    ensures 0.0 <= z <= FontDepthRange ==>
              size == if Trunc(400.0 / (20.0 + z)) < MinFontSize then MinFontSize else Trunc(400.0 / (20.0 + z))
  {
    var size := Trunc(RawFontSize(z));
    if size < MinFontSize then MinFontSize else if MaxFontSize < size then MaxFontSize else size
  }

  /** Message font sizes at a few depths: `int(400 / (20 + z))`, but never
      below 8. */
  lemma FontSizeExamples()
    ensures FontSize(0.0) == 20
    ensures FontSize(10.0) == 13
    ensures FontSize(20.0) == 10
    ensures FontSize(30.0) == 8
    ensures FontSize(35.0) == 8
  {
  }

  /** Farther planes never get a larger font. */
  lemma FontSizeNonIncreasing(z1: real, z2: real)
    requires z1 <= z2
    ensures FontSize(z2) <= FontSize(z1)
  {
    RawFontSizeNonIncreasing(z1, z2);
    TruncMonotone(RawFontSize(z2), RawFontSize(z1));
  }
}
