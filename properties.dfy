/**
 * What the operations of main.c promise, proved about the functions of
 * Transitions: clamped moves, involutions, the sample pair kept in step,
 * the single colour entry an RGB edit touches, and the key loop.
 */
module Properties {
  import opened FormState
  import opened Palette
  import opened Transitions

  // ---------------------------------------------------------------------
  // The effective palette index (get_intense_bit, get_selected_color)
  // ---------------------------------------------------------------------

  /** base | (intense ? 8 : 0), gated on COLORS > 8, lands in [0, 15]. */
  lemma EffectiveInPalette(b: BgFg, numColors: int)
    requires 0 <= b.selectedColor <= MAX_BASE_COLOR
    ensures 0 <= SelectedColor(b, false, numColors) < 16
    ensures SelectedColor(b, false, numColors) % 8 == b.selectedColor
    ensures SelectedColor(b, false, numColors) >= 8 <==> b.intense == Intense && numColors > 8
  {
  }

  /** On a terminal with at most 8 colours the intensity flag is never seen. */
  lemma EightColorsIgnoreIntensity(b: BgFg, numColors: int, i: Intensity)
    requires numColors <= 8
    ensures SelectedColor(b.(intense := i), false, numColors) == SelectedColor(b, false, numColors) == b.selectedColor
  {
  }

  // ---------------------------------------------------------------------
  // Clamped moves (move_color, move_rgb_component, move_focus)
  // ---------------------------------------------------------------------

  function Clamp(x: int, lo: int, hi: int): int
    requires lo <= hi
  {
    if x < lo then lo else if x > hi then hi else x
  }

  function Delta(d: HDir): int {
    if d == Left then -1 else 1
  }

  /** move_color's step is x + delta clamped to [0, 7]. */
  lemma StepColorIsClamp(c: int, d: HDir)
    requires 0 <= c <= MAX_BASE_COLOR
    ensures StepColor(c, d) == Clamp(c + Delta(d), 0, MAX_BASE_COLOR)
  {
  }

  /** move_rgb_component's step is the channel index + delta clamped to [0, 2]. */
  lemma MoveRgbComponentIsClamp(f: Form, d: HDir)
    ensures ChannelIndex(MoveRgbComponent(f, d).selectedRgb)
         == Clamp(ChannelIndex(f.selectedRgb) + Delta(d), 0, 2)
  {
  }

  /** move_focus's step is the focus index -1 (Up) or +1 (Down) clamped to [0, 2]. */
  lemma MoveFocusIsClamp(f: Form, d: VDir)
    ensures FocusIndex(MoveFocus(f, d).focus)
         == Clamp(FocusIndex(f.focus) + (if d == Up then -1 else 1), 0, 2)
  {
  }

  // ---------------------------------------------------------------------
  // RGB channel values (get_new_rgb_comp_value)
  // ---------------------------------------------------------------------

  /** Right undoes Left and Left undoes Right wherever the first step moved. */
  lemma NewRgbCompValueInverse(v: int)
    ensures 10 <= v <= 1010 ==> NewRgbCompValue(NewRgbCompValue(v, Left), Right) == v
    ensures 0 <= v <= 1000 ==> NewRgbCompValue(NewRgbCompValue(v, Right), Left) == v
    ensures 0 <= v < 10 ==> NewRgbCompValue(v, Left) == v
    ensures 1000 < v ==> NewRgbCompValue(v, Right) == v
  {
  }

  /** The ceiling is 1010, not 1000: a channel at 1000 still goes up. */
  lemma NewRgbCompValueCeiling()
    ensures NewRgbCompValue(1000, Right) == 1010
    ensures NewRgbCompValue(1010, Right) == 1010
  {
  }

  // ---------------------------------------------------------------------
  // Toggles (toggle_foreground_background, toggle_color_intensity)
  // ---------------------------------------------------------------------

  /** Tab twice is the identity; once, it touches only `active`. */
  lemma ToggleForegroundBackgroundInvolution(w: World)
    ensures ToggleForegroundBackground(ToggleForegroundBackground(w.form)) == w.form
    ensures w.Valid() ==> w.(form := ToggleForegroundBackground(w.form)).Valid()
  {
  }

  /** Space twice restores the whole state, the sample pair included. */
  lemma {:induction false} ToggleColorIntensityInvolution(w: World)
    requires w.Valid()
    ensures ToggleColorIntensity(ToggleColorIntensity(w)) == w
  {
    var a := w.form.active;
    var once := ToggleColorIntensity(w);
    var twice := ToggleColorIntensity(once);
    assert twice.form == w.form by {
      assert SideOf(twice.form, a) == SideOf(w.form, a);
      assert SideOf(twice.form, Other(a)) == SideOf(w.form, Other(a));
    }
    assert twice.pairs[SAMPLE_PAIR] == w.pairs[SAMPLE_PAIR] by {
      assert twice.Valid();
    }
    assert twice.pairs == w.pairs;
  }

  /** With at most 8 colours Space changes no effective index and no pair. */
  lemma EightColorsSpaceKeepsPairs(w: World)
    requires w.Valid() && w.numColors <= 8
    ensures ToggleColorIntensity(w).EffectiveOf(w.form.active) == w.EffectiveOf(w.form.active)
    ensures ToggleColorIntensity(w).pairs == w.pairs
  {
    var r := ToggleColorIntensity(w);
    assert r.pairs[SAMPLE_PAIR] == w.pairs[SAMPLE_PAIR];
  }

  // ---------------------------------------------------------------------
  // RGB edits (change_selected_rgb_component_value)
  // ---------------------------------------------------------------------

  /**
   * In a valid state the edit rewrites the colour entry the active side
   * names, the one the active half of the sample pair shows.
   */
  lemma EditTargetIsEffective(w: World)
    requires w.Valid()
    ensures SelectedColor(ActiveSide(w.form), false, w.numColors) + 1 in w.pairs
    ensures EditTarget(w) == w.EffectiveOf(w.form.active)
    ensures EditTarget(w) == Half(w.pairs[SAMPLE_PAIR], w.form.active)
  {
    EffectiveInPalette(ActiveSide(w.form), w.numColors);
  }

  /**
   * Colours are shared, not copied: when both sides name the same entry,
   * an edit changes what both halves of the sample pair show.
   */
  lemma EditIsSeenByBothSides(w: World, d: HDir)
    requires w.Valid()
    requires w.EffectiveOf(Foreground) == w.EffectiveOf(Background)
    ensures var r := ChangeSelectedRgbComponentValue(w, d);
      && r.colors[r.pairs[SAMPLE_PAIR].fg] == r.colors[EditTarget(w)]
      && r.colors[r.pairs[SAMPLE_PAIR].bg] == r.colors[EditTarget(w)]
  {
    EditTargetIsEffective(w);
  }

  // ---------------------------------------------------------------------
  // Key dispatch (the switch in main)
  // ---------------------------------------------------------------------

  /**
   * Left and Right never move the focus, and each focus confines what they
   * change: Color touches only the active side and the sample pair, RGB
   * only the selected channel, Value only the colour table.
   */
  lemma ArrowKeysFollowFocus(w: World, key: int)
    requires w.Valid() && (key == KEY_LEFT || key == KEY_RIGHT)
    ensures var r := Dispatch(w, key).world;
      var d := if key == KEY_LEFT then Left else Right;
      && r.form.focus == w.form.focus
      && r.numColors == w.numColors
      && (w.form.focus == Color ==>
            r.colors == w.colors && r.form.selectedRgb == w.form.selectedRgb
            && r.form.active == w.form.active
            && r.form.sampleText == w.form.sampleText
            && ActiveSide(r.form)
               == ActiveSide(w.form).(selectedColor := StepColor(ActiveSide(w.form).selectedColor, d))
            && SideOf(r.form, Other(w.form.active)) == SideOf(w.form, Other(w.form.active))
            && r.pairs.Keys == w.pairs.Keys
            && forall p :: p in w.pairs && p != SAMPLE_PAIR ==> r.pairs[p] == w.pairs[p])
      && (w.form.focus == RGB ==>
            r == w.(form := w.form.(selectedRgb := r.form.selectedRgb)))
      && (w.form.focus == Value ==>
            r.form == w.form && r.pairs == w.pairs && r.colors.Keys == w.colors.Keys
            && forall c :: c in w.colors && c != w.EffectiveOf(w.form.active) ==>
                 c in r.colors && r.colors[c] == w.colors[c])
  {
    EditTargetIsEffective(w);
  }

  /** Space and Tab do the same thing whatever the focus. */
  lemma SpaceAndTabIgnoreFocus(w: World, key: int, focus: Focus)
    requires w.Valid() && (key == KEY_SPACE || key == KEY_TAB)
    ensures var v := w.(form := w.form.(focus := focus));
      v.Valid() &&
      Dispatch(v, key).world == Dispatch(w, key).world.(form := Dispatch(w, key).world.form.(focus := focus))
  {
    var v := w.(form := w.form.(focus := focus));
    assert v.Valid() by {
      assert v.EffectiveOf(Foreground) == w.EffectiveOf(Foreground);
      assert v.EffectiveOf(Background) == w.EffectiveOf(Background);
    }
  }

  // ---------------------------------------------------------------------
  // The key loop (while (keepGoing) in main)
  // ---------------------------------------------------------------------

  /** Reading one more key after a prefix that did not stop. */
  lemma {:induction false} RunSnoc(w: World, keys: seq<int>, k: int)
    requires w.Valid()
    requires !Run(w, keys).stopped
    ensures var o := Run(w, keys);
      var s := Dispatch(o.world, k);
      Run(w, keys + [k])
        == Outcome(s.world, o.consumed + 1, o.redraws + (if s.changed then 1 else 0), !s.keepGoing)
    decreases |keys|
  {
    if keys == [] {
      assert [k][1..] == [];
    } else {
      var s0 := Dispatch(w, keys[0]);
      assert (keys + [k])[0] == keys[0];
      assert (keys + [k])[1..] == keys[1..] + [k];
      RunSnoc(s0.world, keys[1..], k);
    }
  }

  /** Once Escape has been read, no later key is read. */
  lemma {:induction false} RunAfterStop(w: World, keys: seq<int>, more: seq<int>)
    requires w.Valid()
    requires Run(w, keys).stopped
    ensures Run(w, keys + more) == Run(w, keys)
    decreases |keys|
  {
    var s0 := Dispatch(w, keys[0]);
    assert (keys + more)[0] == keys[0];
    if s0.keepGoing {
      assert (keys + more)[1..] == keys[1..] + more;
      RunAfterStop(s0.world, keys[1..], more);
    }
  }

  /** The loop stops exactly at the first Escape, with the state it had then. */
  lemma {:induction false} RunStopsAtFirstEscape(w: World, before: seq<int>, after: seq<int>)
    requires w.Valid()
    requires forall i :: 0 <= i < |before| ==> before[i] != KEY_ESCAPE
    ensures var o := Run(w, before + [KEY_ESCAPE] + after);
      o.stopped && o.consumed == |before| + 1 && o.world == Run(w, before).world
    decreases |before|
  {
    if before == [] {
      assert ([KEY_ESCAPE] + after)[0] == KEY_ESCAPE;
    } else {
      var s0 := Dispatch(w, before[0]);
      assert (before + [KEY_ESCAPE] + after)[0] == before[0];
      assert (before + [KEY_ESCAPE] + after)[1..] == before[1..] + [KEY_ESCAPE] + after;
      RunStopsAtFirstEscape(s0.world, before[1..], after);
    }
  }

  /** Keys the switch does not list change nothing and draw nothing. */
  lemma {:induction false} UnhandledKeysAreIgnored(w: World, keys: seq<int>)
    requires w.Valid()
    requires forall i :: 0 <= i < |keys| ==> !Handled(keys[i])
    ensures Run(w, keys) == Outcome(w, |keys|, 0, false)
    decreases |keys|
  {
    if keys != [] {
      UnhandledKeysAreIgnored(w, keys[1..]);
    }
  }

  /**
   * Any number of Left presses with the focus on the colour strip walk the
   * active side's colour down to 0 and no further.
   */
  lemma {:induction false} LeftPressesClampAtZero(w: World, n: nat)
    requires w.Valid() && w.form.focus == Color
    ensures var r := Run(w, seq(n, _ => KEY_LEFT)).world;
      && r.form.focus == Color && r.form.active == w.form.active
      && ActiveSide(r.form).selectedColor == Clamp(ActiveSide(w.form).selectedColor - n, 0, MAX_BASE_COLOR)
    decreases n
  {
    if n > 0 {
      var keys := seq(n, _ => KEY_LEFT);
      var s0 := Dispatch(w, KEY_LEFT);
      assert keys[0] == KEY_LEFT;
      assert keys[1..] == seq(n - 1, _ => KEY_LEFT);
      LeftPressesClampAtZero(s0.world, n - 1);
    }
  }

  /**
   * Any number of Right presses with the focus on the colour strip walk the
   * active side's colour up to 7 and no further.
   */
  lemma {:induction false} RightPressesClampAtSeven(w: World, n: nat)
    requires w.Valid() && w.form.focus == Color
    ensures var r := Run(w, seq(n, _ => KEY_RIGHT)).world;
      && r.form.focus == Color && r.form.active == w.form.active
      && ActiveSide(r.form).selectedColor == Clamp(ActiveSide(w.form).selectedColor + n, 0, MAX_BASE_COLOR)
    decreases n
  {
    if n > 0 {
      var keys := seq(n, _ => KEY_RIGHT);
      var s0 := Dispatch(w, KEY_RIGHT);
      assert keys[0] == KEY_RIGHT;
      assert keys[1..] == seq(n - 1, _ => KEY_RIGHT);
      RightPressesClampAtSeven(s0.world, n - 1);
    }
  }

  /** Any number of Down presses walk the focus to Value and no further. */
  lemma {:induction false} DownPressesClampAtValue(w: World, n: nat)
    requires w.Valid()
    ensures FocusIndex(Run(w, seq(n, _ => KEY_DOWN)).world.form.focus)
         == Clamp(FocusIndex(w.form.focus) + n, 0, 2)
    decreases n
  {
    if n > 0 {
      var keys := seq(n, _ => KEY_DOWN);
      var s0 := Dispatch(w, KEY_DOWN);
      assert keys[0] == KEY_DOWN;
      assert keys[1..] == seq(n - 1, _ => KEY_DOWN);
      DownPressesClampAtValue(s0.world, n - 1);
    }
  }

  /** Any number of Up presses walk the focus to Color and no further. */
  lemma {:induction false} UpPressesClampAtColor(w: World, n: nat)
    requires w.Valid()
    ensures FocusIndex(Run(w, seq(n, _ => KEY_UP)).world.form.focus)
         == Clamp(FocusIndex(w.form.focus) - n, 0, 2)
    decreases n
  {
    if n > 0 {
      var keys := seq(n, _ => KEY_UP);
      var s0 := Dispatch(w, KEY_UP);
      assert keys[0] == KEY_UP;
      assert keys[1..] == seq(n - 1, _ => KEY_UP);
      UpPressesClampAtColor(s0.world, n - 1);
    }
  }
}
