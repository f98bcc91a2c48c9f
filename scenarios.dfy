/**
 * Key sequences from start-up or from a chosen state, worked through the
 * model of main's loop.
 */
module Scenarios {
  import opened FormState
  import opened Palette
  import opened Transitions
  import Properties

  /** `n` steps of get_new_rgb_comp_value in direction `d` from `v`. */
  function RepeatEdit(v: int, d: HDir, n: nat): (r: int)
    ensures 0 <= v <= MAX_EDITED_CHANNEL ==> 0 <= r <= MAX_EDITED_CHANNEL
    decreases n
  {
    if n == 0 then v else RepeatEdit(NewRgbCompValue(v, d), d, n - 1)
  }

  /**
   * With the focus on Value, `n` presses of one arrow key apply `n` steps to
   * the selected channel of the active side's colour and change nothing else
   * in the form, the pairs or the other channels.
   */
  lemma {:induction false} ValuePresses(w: World, key: int, n: nat)
    requires w.Valid() && w.form.focus == Value && (key == KEY_LEFT || key == KEY_RIGHT)
    ensures var e := w.EffectiveOf(w.form.active);
      var ch := w.form.selectedRgb;
      var r := Run(w, seq(n, _ => key)).world;
      && 0 <= e < 16
      && r.form == w.form && r.pairs == w.pairs
      && r.colors[e].Get(ch) == RepeatEdit(w.colors[e].Get(ch), if key == KEY_LEFT then Left else Right, n)
      && forall o :: o != ch ==> r.colors[e].Get(o) == w.colors[e].Get(o)
    decreases n
  {
    var e := w.EffectiveOf(w.form.active);
    var d := if key == KEY_LEFT then Left else Right;
    Properties.EditTargetIsEffective(w);
    if n > 0 {
      var keys := seq(n, _ => key);
      var s0 := Dispatch(w, key);
      assert keys[0] == key;
      assert keys[1..] == seq(n - 1, _ => key);
      assert s0.world == ChangeSelectedRgbComponentValue(w, d);
      ValuePresses(s0.world, key, n - 1);
    }
  }

  /**
   * A red channel at 500 reads 530 after three Right presses and 480 after
   * five Left presses more.
   */
  lemma RedChannelScenario(w: World)
    requires w.Valid() && w.form.focus == Value && w.form.selectedRgb == Red
    requires w.colors[w.EffectiveOf(w.form.active)].red == 500
    ensures var e := w.EffectiveOf(w.form.active);
      var w3 := Run(w, seq(3, _ => KEY_RIGHT)).world;
      var w8 := Run(w3, seq(5, _ => KEY_LEFT)).world;
      w3.colors[e].red == 530 && w8.colors[e].red == 480
  {
    var e := w.EffectiveOf(w.form.active);
    ValuePresses(w, KEY_RIGHT, 3);
    var w3 := Run(w, seq(3, _ => KEY_RIGHT)).world;
    assert RepeatEdit(500, Right, 3) == 530;
    assert w3.EffectiveOf(w3.form.active) == e;
    ValuePresses(w3, KEY_LEFT, 5);
    assert RepeatEdit(530, Left, 5) == 480;
  }

  /**
   * From start-up, Right twice moves the background from 3 to 5 and the
   * sample pair's background with it.
   */
  lemma StartupRightRight(numColors: int, reported: map<int, Rgb>)
    requires WorkingColors(reported, 0, MAX_CHANNEL)
    ensures var o := Run(Initial(numColors, reported), [KEY_RIGHT, KEY_RIGHT]);
      && o.world.form.bg.selectedColor == 5
      && o.world.form.fg == InitialForm().fg
      && o.world.pairs[SAMPLE_PAIR] == Pair(DEFAULT_COLOR, 5)
      && o.redraws == 2 && !o.stopped
  {
    var w0 := Initial(numColors, reported);
    var w1 := MoveColor(w0, Right);
    assert Dispatch(w0, KEY_RIGHT) == Step(w1, true, true);
    assert w1.form.bg.selectedColor == 4 && w1.form.fg == w0.form.fg;
    var w2 := MoveColor(w1, Right);
    assert Dispatch(w1, KEY_RIGHT) == Step(w2, true, true);
    assert w2.form.bg.selectedColor == 5 && w2.form.fg == w0.form.fg;
    assert w2.pairs[SAMPLE_PAIR] == Pair(DEFAULT_COLOR, 5) by {
      assert w2.InSync();
    }
    assert [KEY_RIGHT, KEY_RIGHT][1..] == [KEY_RIGHT];
    assert [KEY_RIGHT][1..] == [];
    assert Run(w1, [KEY_RIGHT]) == Outcome(w2, 1, 1, false);
  }

  /** From start-up, Down twice reaches Value, and a third Down stays there. */
  lemma StartupDownDownDown(numColors: int, reported: map<int, Rgb>)
    requires WorkingColors(reported, 0, MAX_CHANNEL)
    ensures Run(Initial(numColors, reported), seq(2, _ => KEY_DOWN)).world.form.focus == Value
    ensures Run(Initial(numColors, reported), seq(3, _ => KEY_DOWN)).world.form.focus == Value
  {
    var w0 := Initial(numColors, reported);
    Properties.DownPressesClampAtValue(w0, 2);
    Properties.DownPressesClampAtValue(w0, 3);
  }

  /**
   * Escape stops the loop and leaves the state alone, but, as main's switch
   * leaves `changed` set, the window is drawn once more.
   */
  lemma EscapeRedrawsOnce(w: World)
    requires w.Valid()
    ensures Dispatch(w, KEY_ESCAPE) == Step(w, true, false)
    ensures Run(w, [KEY_ESCAPE]) == Outcome(w, 1, 1, true)
  {
  }
}
