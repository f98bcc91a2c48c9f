/**
 * The choices draw, draw_colors and draw_rgb make from the state, without
 * the drawing itself: which labels, which brackets and which colour pairs.
 */
module Render {
  import opened FormState
  import opened Palette
  import opened Transitions
  import Properties

  function ChannelLetter(c: Channel): char {
    match c
    case Red => 'R'
    case Green => 'G'
    case Blue => 'B'
  }

  /** The RGB box title draw_rgb picks: the selected channel's letter in brackets. */
  function RgbTitle(c: Channel): (t: string)
    ensures |t| == 9
    ensures forall o :: t[3 * ChannelIndex(o) + 1] == ChannelLetter(o)
    ensures t[3 * ChannelIndex(c)] == '[' && t[3 * ChannelIndex(c) + 2] == ']'
    ensures forall j :: 0 <= j < |t| && t[j] == '[' ==> j == 3 * ChannelIndex(c)
    ensures forall j :: 0 <= j < |t| && t[j] == ']' ==> j == 3 * ChannelIndex(c) + 2
  {
    var titles := ["[R] G  B ", " R [G] B ", " R  G [B]"];
    titles[ChannelIndex(c)]
  }

  /**
   * The characters draw_rgb prints around the intensity readout: brackets
   * when the focus is on Value, blanks otherwise, so the line keeps its width.
   */
  function ReadoutFrame(f: Focus): (frame: (char, char))
    ensures frame.0 == '[' <==> f == Value
    ensures frame.1 == ']' <==> f == Value
    ensures f != Value ==> frame == (' ', ' ')
  {
    if f == Value then ('[', ']') else (' ', ' ')
  }

  /** The checkbox draw prints before "Intense". */
  function IntenseCheckbox(b: BgFg): (s: string)
    ensures |s| == 3 && s[0] == '[' && s[2] == ']'
    ensures s[1] == 'x' <==> b.intense == Intense
  {
    if b.intense == Intense then "[x]" else "[ ]"
  }

  /** The side name draw prints, read from the record's own tag. */
  function SideName(b: BgFg): (s: string)
    ensures s == "Foreground" || s == "Background"
    ensures s == "Foreground" <==> b.colorType == Foreground
  {
    if b.colorType == Foreground then "Foreground" else "Background"
  }

  /** In a valid state the label names the side being edited. */
  lemma SideNameIsActive(w: World)
    requires w.Valid()
    ensures SideName(ActiveSide(w.form)) == (if w.form.active == Foreground then "Foreground" else "Background")
  {
  }

  /** The value draw_rgb shows: the selected channel of the colour behind pair effective + 1. */
  function ReadoutValue(w: World): (v: int)
    requires SelectedColor(ActiveSide(w.form), false, w.numColors) + 1 in w.pairs
    requires EditTarget(w) in w.colors
    ensures w.Valid() ==> v == w.colors[w.EffectiveOf(w.form.active)].Get(w.form.selectedRgb)
    ensures w.Valid() ==> 0 <= v <= MAX_EDITED_CHANNEL
  {
    w.colors[EditTarget(w)].Get(w.form.selectedRgb)
  }

  /** The readout shows exactly the number an RGB edit changes. */
  lemma ReadoutTracksEdit(w: World, d: HDir)
    requires w.Valid()
    ensures SelectedColor(ActiveSide(w.form), false, w.numColors) + 1 in w.pairs && EditTarget(w) in w.colors
    ensures var r := ChangeSelectedRgbComponentValue(w, d);
      ReadoutValue(r) == NewRgbCompValue(ReadoutValue(w), d)
  {
    Properties.EditTargetIsEffective(w);
  }

  /** The pair draw_colors paints strip cell `color` with: (color | intense_bit) + 1. */
  function StripCellPair(color: int, intenseBit: int): (p: int)
    requires intenseBit == 0 || intenseBit == INTENSE_BIT
    ensures 0 <= color <= MAX_BASE_COLOR ==> 1 <= p <= 16
    ensures 0 <= color <= MAX_BASE_COLOR ==> p == color + intenseBit + 1
  {
    (if intenseBit == 0 then color else SetBit3(color)) + 1
  }

  /**
   * The strip cell of the active side's selection is painted with the
   * colour the sample pair shows for that side.
   */
  lemma SelectedCellMatchesSample(w: World)
    requires w.Valid()
    ensures var a := ActiveSide(w.form);
      var p := StripCellPair(a.selectedColor, IntenseBit(a, w.numColors));
      p in w.pairs && w.pairs[p].bg == Half(w.pairs[SAMPLE_PAIR], w.form.active)
  {
  }
}
