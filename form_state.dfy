/**
 * The colour picker's form record (struct Form in main.c) and the
 * side-effect-free helpers that read or rewrite it without touching the
 * ncurses colour tables.
 */
module FormState {

  /** ncurses' COLOR_WHITE, the foreground of every palette-strip pair. */
  const COLOR_WHITE: int := 7
  /** The pair id init_form reserves for the sample text. */
  const SAMPLE_PAIR: int := 17
  /** The base colour both sides start on (get_default). */
  const DEFAULT_COLOR: int := 3
  /** The largest base colour index a side can select. */
  const MAX_BASE_COLOR: int := 7
  /** The intensity bit, 0b00001000. */
  const INTENSE_BIT: int := 8

  datatype Side = Foreground | Background
  datatype Intensity = Normal | Intense
  /** Ordered Color < RGB < Value, as the C enum's values 0, 1, 2. */
  datatype Focus = Color | RGB | Value
  /** Ordered Red < Green < Blue, as the C enum's values 0, 1, 2. */
  datatype Channel = Red | Green | Blue
  datatype HDir = Left | Right
  datatype VDir = Up | Down

  /** One side of the form (struct BgFg). */
  datatype BgFg = BgFg(intense: Intensity, colorType: Side, selectedColor: int)

  /** The sample text and the colour pair it is drawn with (struct Sample). */
  datatype Sample = Sample(text: string, colorPair: int)

  /** The whole form (struct Form); `active` names the side being edited. */
  datatype Form = Form(bg: BgFg, fg: BgFg, active: Side, focus: Focus,
                       selectedRgb: Channel, sampleText: Sample)

  function Other(s: Side): Side {
    if s == Foreground then Background else Foreground
  }

  function FlipIntensity(i: Intensity): Intensity {
    if i == Intense then Normal else Intense
  }

  function FocusIndex(f: Focus): (i: int)
    ensures 0 <= i <= 2
  {
    match f
    case Color => 0
    case RGB => 1
    case Value => 2
  }

  function FocusAt(i: int): (f: Focus)
    requires 0 <= i <= 2
    ensures FocusIndex(f) == i
  {
    if i == 0 then Color else if i == 1 then RGB else Value
  }

  function ChannelIndex(c: Channel): (i: int)
    ensures 0 <= i <= 2
  {
    match c
    case Red => 0
    case Green => 1
    case Blue => 2
  }

  function ChannelAt(i: int): (c: Channel)
    requires 0 <= i <= 2
    ensures ChannelIndex(c) == i
  {
    if i == 0 then Red else if i == 1 then Green else Blue
  }

  /**
   * get_default: a fresh side record for `side`, naming colour 3 whatever
   * the terminal's colour count.
   */
  function Default(side: Side): (b: BgFg)
    ensures b.colorType == side
    ensures forall numColors :: SelectedColor(b, false, numColors) == DEFAULT_COLOR
  {
    BgFg(Normal, side, DEFAULT_COLOR)
  }

  /** The record init_form builds. */
  function InitialForm(): (f: Form)
    ensures f.active == Background && f.focus == Color && f.selectedRgb == Red
    ensures f.bg.colorType == Background && f.fg.colorType == Foreground
    ensures f.bg.intense == Normal && f.fg.intense == Normal
    ensures f.bg.selectedColor == DEFAULT_COLOR && f.fg.selectedColor == DEFAULT_COLOR
    ensures f.sampleText.colorPair == SAMPLE_PAIR
  {
    Form(Default(Background), Default(Foreground), Background, Color, Red,
         Sample("Lorem ipsum", SAMPLE_PAIR))
  }

  /** get_active_form: the record of the side being edited. */
  function ActiveSide(f: Form): (b: BgFg)
    ensures b == SideOf(f, f.active)
    ensures f.active == Background ==> b == f.bg
    ensures f.active == Foreground ==> b == f.fg
  {
    if f.active == Background then f.bg else f.fg
  }

  /** The record of side `s`. */
  function SideOf(f: Form, s: Side): BgFg {
    if s == Background then f.bg else f.fg
  }

  /** Writes through the pointer get_active_form / a BgFg* would give for side `s`. */
  function WithSide(f: Form, s: Side, b: BgFg): (r: Form)
    ensures SideOf(r, s) == b && SideOf(r, Other(s)) == SideOf(f, Other(s))
    ensures r.active == f.active && r.focus == f.focus
    ensures r.selectedRgb == f.selectedRgb && r.sampleText == f.sampleText
  {
    if s == Background then f.(bg := b) else f.(fg := b)
  }

  /**
   * `c | 0b00001000` on a two's-complement integer: bit 3 is set and every
   * other bit is kept.
   */
  function SetBit3(c: int): (r: int)
    ensures r % 8 == c % 8 && (r / 8) % 2 == 1 && r / 16 == c / 16
  {
    if (c / 8) % 2 == 1 then c else c + 8
  }

  /**
   * get_intense_bit: 8 exactly when the side is Intense and the terminal
   * reports more than 8 colours.
   */
  function IntenseBit(b: BgFg, numColors: int): (bit: int)
    ensures bit == 0 || bit == INTENSE_BIT
    ensures bit == INTENSE_BIT <==> b.intense == Intense && numColors > 8
  {
    if b.intense == Intense && numColors > 8 then INTENSE_BIT else 0
  }

  /**
   * get_selected_color: the side's colour with the intensity bit OR'ed in,
   * or the raw base colour when `base` is set.
   */
  function SelectedColor(b: BgFg, base: bool, numColors: int): (r: int)
    ensures base ==> r == b.selectedColor
    ensures 0 <= b.selectedColor <= MAX_BASE_COLOR ==>
      r == b.selectedColor + (if !base && b.intense == Intense && numColors > 8 then 8 else 0)
  {
    var bit := if base then 0 else IntenseBit(b, numColors);
    if bit == 0 then b.selectedColor else SetBit3(b.selectedColor)
  }

  /**
   * get_new_rgb_comp_value: Left lowers by 10 only from 10 upwards, Right
   * raises by 10 only up to 1000, so [0, 1010] is never left.
   */
  function NewRgbCompValue(value: int, d: HDir): (r: int)
    ensures 0 <= value ==> 0 <= r
    ensures value <= 1010 ==> r <= 1010
    ensures d == Left ==> r <= value
    ensures d == Right ==> r >= value
    ensures r == value || r == value + (if d == Left then -10 else 10)
    ensures d == Left ==> (r == value - 10 <==> value >= 10)
    ensures d == Right ==> (r == value + 10 <==> value <= 1000)
  {
    if d == Left then
      (if value >= 10 then value - 10 else value)
    else
      (if value <= 1000 then value + 10 else value)
  }

  /** toggle_foreground_background: `active ^= Background`. */
  function ToggleForegroundBackground(f: Form): (r: Form)
    ensures r.active == Other(f.active)
    ensures r == f.(active := r.active)
  {
    f.(active := Other(f.active))
  }

  /** move_rgb_component: one step along Red, Green, Blue without wrapping. */
  function MoveRgbComponent(f: Form, d: HDir): (r: Form)
    ensures r == f.(selectedRgb := r.selectedRgb)
    ensures (d == Left && f.selectedRgb == Red) || (d == Right && f.selectedRgb == Blue)
      ==> r == f
    ensures d == Left && f.selectedRgb != Red ==>
      ChannelIndex(r.selectedRgb) == ChannelIndex(f.selectedRgb) - 1
    ensures d == Right && f.selectedRgb != Blue ==>
      ChannelIndex(r.selectedRgb) == ChannelIndex(f.selectedRgb) + 1
  {
    var i := ChannelIndex(f.selectedRgb);
    if d == Left then
      f.(selectedRgb := if i > 0 then ChannelAt(i - 1) else f.selectedRgb)
    else
      f.(selectedRgb := if i < 2 then ChannelAt(i + 1) else f.selectedRgb)
  }

  /** move_focus: one step along Color, RGB, Value without wrapping. */
  function MoveFocus(f: Form, d: VDir): (r: Form)
    ensures r == f.(focus := r.focus)
    ensures (d == Up && f.focus == Color) || (d == Down && f.focus == Value) ==> r == f
    ensures d == Up && f.focus != Color ==> FocusIndex(r.focus) == FocusIndex(f.focus) - 1
    ensures d == Down && f.focus != Value ==> FocusIndex(r.focus) == FocusIndex(f.focus) + 1
  {
    var i := FocusIndex(f.focus);
    if d == Up then
      f.(focus := if i > 0 then FocusAt(i - 1) else f.focus)
    else
      f.(focus := if i < 2 then FocusAt(i + 1) else f.focus)
  }

  /** The clamped step move_color takes on a base colour. */
  function StepColor(c: int, d: HDir): (r: int)
    ensures 0 <= c <= MAX_BASE_COLOR ==> 0 <= r <= MAX_BASE_COLOR
    ensures (d == Left && c <= 0) || (d == Right && c >= MAX_BASE_COLOR) ==> r == c
    ensures d == Left && c > 0 ==> r == c - 1
    ensures d == Right && c < MAX_BASE_COLOR ==> r == c + 1
  {
    if d == Left then (if c > 0 then c - 1 else c)
    else (if c < MAX_BASE_COLOR then c + 1 else c)
  }
}
