/**
 * Every operation of the picker as a function from one picker state (form
 * plus the ncurses pair and colour tables) to the next, with the key
 * dispatch and the event loop of main built on top.
 */
module Transitions {
  import opened FormState
  import opened Palette

  const KEY_TAB: int := 9
  const KEY_ESCAPE: int := 27
  const KEY_SPACE: int := 32
  /** ncurses' KEY_DOWN, KEY_UP, KEY_LEFT and KEY_RIGHT (octal 0402 to 0405). */
  const KEY_DOWN: int := 258
  const KEY_UP: int := 259
  const KEY_LEFT: int := 260
  const KEY_RIGHT: int := 261

  /** The keys main's switch lists. */
  predicate Handled(key: int) {
    key == KEY_ESCAPE || key == KEY_SPACE || key == KEY_TAB
    || key == KEY_LEFT || key == KEY_RIGHT || key == KEY_UP || key == KEY_DOWN
  }

  /**
   * The whole state the picker acts on: the global form, the pair table,
   * the colour table and COLORS.
   */
  datatype World = World(form: Form, pairs: map<int, Pair>, colors: map<int, Rgb>, numColors: int) {

    /** The palette index side `s` currently names. */
    function EffectiveOf(s: Side): int {
      SelectedColor(SideOf(form, s), false, numColors)
    }

    /** The form's own invariant: ranges, side tags and the sample pair id. */
    ghost predicate FormOk() {
      && 0 <= form.bg.selectedColor <= MAX_BASE_COLOR
      && 0 <= form.fg.selectedColor <= MAX_BASE_COLOR
      && form.bg.colorType == Background
      && form.fg.colorType == Foreground
      && form.sampleText.colorPair == SAMPLE_PAIR
    }

    /** The tables init_colors seeds stay in place, with channels in [0, 1010]. */
    ghost predicate Seeded() {
      && HasStripPairs(pairs)
      && SAMPLE_PAIR in pairs
      && WorkingColors(colors, 0, MAX_EDITED_CHANNEL)
    }

    /** The sample pair shows both sides' effective colours. */
    ghost predicate InSync()
      requires SAMPLE_PAIR in pairs
    {
      pairs[SAMPLE_PAIR] == Pair(EffectiveOf(Foreground), EffectiveOf(Background))
    }

    ghost predicate Valid() {
      FormOk() && Seeded() && InSync()
    }
  }

  /** Side `s`'s half of the sample pair matches its effective colour. */
  ghost predicate HalfInSync(w: World, s: Side)
    requires SAMPLE_PAIR in w.pairs
  {
    Half(w.pairs[SAMPLE_PAIR], s) == w.EffectiveOf(s)
  }

  lemma InSyncByHalves(w: World)
    requires SAMPLE_PAIR in w.pairs
    requires HalfInSync(w, Foreground) && HalfInSync(w, Background)
    ensures w.InSync()
  {
  }

  /**
   * update_sample_color: writes the active side's effective colour into its
   * half of the sample pair; every other pair, the colours and the form stay.
   */
  function UpdateSampleColor(w: World): (r: World)
    requires w.form.sampleText.colorPair in w.pairs
    ensures r.form == w.form && r.colors == w.colors && r.numColors == w.numColors
    ensures r.pairs.Keys == w.pairs.Keys
    ensures forall p :: p in w.pairs && p != w.form.sampleText.colorPair ==> r.pairs[p] == w.pairs[p]
    ensures Half(r.pairs[w.form.sampleText.colorPair], w.form.active) == w.EffectiveOf(w.form.active)
    ensures Half(r.pairs[w.form.sampleText.colorPair], Other(w.form.active))
         == Half(w.pairs[w.form.sampleText.colorPair], Other(w.form.active))
  {
    var id := w.form.sampleText.colorPair;
    var color := SelectedColor(ActiveSide(w.form), false, w.numColors);
    var p := w.pairs[id];
    var p' := if w.form.active == Foreground then p.(fg := color) else p.(bg := color);
    w.(pairs := w.pairs[id := p'])
  }

  /**
   * set_selected_color on the record of side `s`: stores the colour, then
   * refreshes the sample pair.
   */
  function SetSelectedColor(w: World, s: Side, color: int): (r: World)
    requires w.form.sampleText.colorPair in w.pairs
    ensures SideOf(r.form, s) == SideOf(w.form, s).(selectedColor := color)
    ensures SideOf(r.form, Other(s)) == SideOf(w.form, Other(s))
    ensures r.form.active == w.form.active && r.form.focus == w.form.focus
    ensures r.form.selectedRgb == w.form.selectedRgb && r.form.sampleText == w.form.sampleText
    ensures r.colors == w.colors && r.numColors == w.numColors && r.pairs.Keys == w.pairs.Keys
    ensures forall p :: p in w.pairs && p != w.form.sampleText.colorPair ==> r.pairs[p] == w.pairs[p]
    ensures w.Valid() && s == w.form.active && 0 <= color <= MAX_BASE_COLOR ==> r.Valid()
  {
    var r := UpdateSampleColor(w.(form := WithSide(w.form, s, SideOf(w.form, s).(selectedColor := color))));
    assert w.Valid() && s == w.form.active && 0 <= color <= MAX_BASE_COLOR ==> r.Valid() by {
      if w.Valid() && s == w.form.active && 0 <= color <= MAX_BASE_COLOR {
        assert HalfInSync(r, s);
        assert HalfInSync(r, Other(s));
        InSyncByHalves(r);
      }
    }
    r
  }

  /**
   * toggle_color_intensity: flips the active side's intensity flag, then
   * refreshes the sample pair.
   */
  function ToggleColorIntensity(w: World): (r: World)
    requires w.form.sampleText.colorPair in w.pairs
    ensures ActiveSide(r.form) == ActiveSide(w.form).(intense := FlipIntensity(ActiveSide(w.form).intense))
    ensures SideOf(r.form, Other(w.form.active)) == SideOf(w.form, Other(w.form.active))
    ensures r.form.active == w.form.active && r.form.focus == w.form.focus
    ensures r.form.selectedRgb == w.form.selectedRgb && r.form.sampleText == w.form.sampleText
    ensures r.colors == w.colors && r.numColors == w.numColors && r.pairs.Keys == w.pairs.Keys
    ensures forall p :: p in w.pairs && p != w.form.sampleText.colorPair ==> r.pairs[p] == w.pairs[p]
    ensures w.Valid() ==> r.Valid()
  {
    var a := ActiveSide(w.form);
    var r := UpdateSampleColor(w.(form := WithSide(w.form, w.form.active, a.(intense := FlipIntensity(a.intense)))));
    assert w.Valid() ==> r.Valid() by {
      if w.Valid() {
        assert HalfInSync(r, w.form.active);
        assert HalfInSync(r, Other(w.form.active));
        InSyncByHalves(r);
      }
    }
    r
  }

  /**
   * move_color: one clamped step of the active side's base colour, stored
   * with set_selected_color.
   */
  function MoveColor(w: World, d: HDir): (r: World)
    requires w.form.sampleText.colorPair in w.pairs
    ensures ActiveSide(r.form)
         == ActiveSide(w.form).(selectedColor := StepColor(ActiveSide(w.form).selectedColor, d))
    ensures SideOf(r.form, Other(w.form.active)) == SideOf(w.form, Other(w.form.active))
    ensures r.form.active == w.form.active && r.form.focus == w.form.focus
    ensures r.form.selectedRgb == w.form.selectedRgb && r.form.sampleText == w.form.sampleText
    ensures r.colors == w.colors && r.numColors == w.numColors && r.pairs.Keys == w.pairs.Keys
    ensures forall p :: p in w.pairs && p != w.form.sampleText.colorPair ==> r.pairs[p] == w.pairs[p]
    ensures w.Valid() ==> r.Valid()
  {
    var f := ActiveSide(w.form);
    var selected := SelectedColor(f, true, w.numColors);
    SetSelectedColor(w, w.form.active, StepColor(selected, d))
  }

  /**
   * The colour entry an RGB edit of the active side rewrites: the background
   * of pair effective + 1, which in a valid state is the effective index.
   */
  function EditTarget(w: World): (c: int)
    requires SelectedColor(ActiveSide(w.form), false, w.numColors) + 1 in w.pairs
    ensures w.Valid() ==> c == w.EffectiveOf(w.form.active) && 0 <= c < 16 && c in w.colors
  {
    w.pairs[SelectedColor(ActiveSide(w.form), false, w.numColors) + 1].bg
  }

  /**
   * change_selected_rgb_component_value: reads the background of pair
   * effective + 1, and rewrites only the selected channel of that colour.
   */
  function ChangeSelectedRgbComponentValue(w: World, d: HDir): (r: World)
    requires SelectedColor(ActiveSide(w.form), false, w.numColors) + 1 in w.pairs
    requires EditTarget(w) in w.colors
    ensures r.form == w.form && r.pairs == w.pairs && r.numColors == w.numColors
    ensures r.colors.Keys == w.colors.Keys
    ensures forall c :: c in w.colors && c != EditTarget(w) ==> r.colors[c] == w.colors[c]
    ensures r.colors[EditTarget(w)].Get(w.form.selectedRgb)
         == NewRgbCompValue(w.colors[EditTarget(w)].Get(w.form.selectedRgb), d)
    ensures forall ch :: ch != w.form.selectedRgb ==>
      r.colors[EditTarget(w)].Get(ch) == w.colors[EditTarget(w)].Get(ch)
    ensures w.Valid() ==> r.Valid()
  {
    var target := EditTarget(w);
    var comp := w.colors[target];
    var ch := w.form.selectedRgb;
    var comp' := comp.With(ch, NewRgbCompValue(comp.Get(ch), d));
    var r := w.(colors := w.colors[target := comp']);
    assert w.Valid() ==> r.Valid() by {
      if w.Valid() {
        assert 0 <= target < 16;
        assert comp'.Within(0, MAX_EDITED_CHANNEL) by {
          assert comp.Within(0, MAX_EDITED_CHANNEL);
          assert forall o :: comp'.Get(o) == comp.Get(o) || o == ch;
          assert comp'.Get(Red) == comp'.red && comp'.Get(Green) == comp'.green && comp'.Get(Blue) == comp'.blue;
        }
      }
    }
    r
  }

  /** What one pass of main's loop body leaves behind. */
  datatype Step = Step(world: World, changed: bool, keepGoing: bool)

  /**
   * main's switch on the key just read. Left and Right are routed by the
   * focus in force when the key arrives.
   */
  function Dispatch(w: World, key: int): (s: Step)
    requires w.Valid()
    ensures s.world.Valid()
    ensures s.keepGoing <==> key != KEY_ESCAPE
    ensures s.changed <==> Handled(key)
    ensures !Handled(key) || key == KEY_ESCAPE ==> s.world == w
  {
    var f := w.form;
    if key == KEY_ESCAPE then Step(w, true, false)
    else if key == KEY_SPACE then Step(ToggleColorIntensity(w), true, true)
    else if key == KEY_RIGHT || key == KEY_LEFT then
      var d := if key == KEY_RIGHT then Right else Left;
      var w' :=
        if f.focus == RGB then w.(form := MoveRgbComponent(f, d))
        else if f.focus == Color then MoveColor(w, d)
        else ChangeSelectedRgbComponentValue(w, d);
      Step(w', true, true)
    else if key == KEY_UP then Step(w.(form := MoveFocus(f, Up)), true, true)
    else if key == KEY_DOWN then Step(w.(form := MoveFocus(f, Down)), true, true)
    else if key == KEY_TAB then Step(w.(form := ToggleForegroundBackground(f)), true, true)
    else Step(w, false, true)
  }

  /**
   * What the loop of main has done after reading `keys` in order: the final
   * state, how many keys it consumed, how many redraws it made and whether
   * Escape stopped it. The loop stops reading at Escape.
   */
  datatype Outcome = Outcome(world: World, consumed: nat, redraws: nat, stopped: bool)

  function Run(w: World, keys: seq<int>): (o: Outcome)
    requires w.Valid()
    ensures o.world.Valid()
    ensures o.consumed <= |keys| && o.redraws <= o.consumed
    ensures !o.stopped ==> o.consumed == |keys|
    decreases |keys|
  {
    if keys == [] then Outcome(w, 0, 0, false)
    else
      var s := Dispatch(w, keys[0]);
      var drawn := if s.changed then 1 else 0;
      if !s.keepGoing then Outcome(s.world, 1, drawn, true)
      else
        var rest := Run(s.world, keys[1..]);
        Outcome(rest.world, rest.consumed + 1, rest.redraws + drawn, rest.stopped)
  }

  /**
   * The state once main has run init_colors, init_form and seeded the
   * sample pair, starting from the colour contents the terminal reports.
   */
  function Initial(numColors: int, reported: map<int, Rgb>): (w: World)
    requires WorkingColors(reported, 0, MAX_CHANNEL)
    ensures w.Valid()
    ensures w.form == InitialForm() && w.numColors == numColors
    ensures w.pairs == StripPairs()[SAMPLE_PAIR := Pair(DEFAULT_COLOR, DEFAULT_COLOR)]
    ensures w.colors == reported[8 := Rgb(200, 200, 200)]
  {
    var f := InitialForm();
    World(f, StripPairs()[SAMPLE_PAIR := Pair(f.fg.selectedColor, f.bg.selectedColor)],
          reported[8 := Rgb(200, 200, 200)], numColors)
  }
}
