/**
 * The picker as the C program runs it: the global `form`, the ncurses pair
 * and colour tables and COLORS as the state of one object, updated field by
 * field. Each method is proved to leave the state its function in
 * Transitions describes.
 */
module ColorPicker {
  import opened FormState
  import opened Palette
  import opened Transitions
  import Properties

  class Picker {
    /** COLORS, as ncurses reports it after start_color. */
    const numColors: int

    // struct Form
    var bg: BgFg
    var fg: BgFg
    var active: Side
    var focus: Focus
    var selectedRgb: Channel
    var sampleText: Sample

    // the ncurses tables
    var pairs: map<int, Pair>
    var colors: map<int, Rgb>

    /** The state as a value. */
    function Snapshot(): World
      reads this
    {
      World(Form(bg, fg, active, focus, selectedRgb, sampleText), pairs, colors, numColors)
    }

    ghost predicate Valid()
      reads this
    {
      Snapshot().Valid()
    }

    /**
     * Start-up as main does it: init_colors, init_form, then the sample pair
     * seeded with both sides' base colours. `reported` is what color_content
     * gives for the 16 working colours.
     */
    constructor (numColors: int, reported: map<int, Rgb>)
      requires WorkingColors(reported, 0, MAX_CHANNEL)
      ensures Snapshot() == Initial(numColors, reported)
      ensures Valid()
    {
      this.numColors := numColors;
      pairs := map[];
      colors := reported;
      new;
      InitColors();
      InitForm();
      InitPair(sampleText.colorPair, fg.selectedColor, bg.selectedColor);
    }

    // ncurses' table accessors, as plain reads and writes

    method PairContent(p: int) returns (f: int, b: int)
      requires p in pairs
      ensures Pair(f, b) == pairs[p]
    {
      f, b := pairs[p].fg, pairs[p].bg;
    }

    method InitPair(p: int, f: int, b: int)
      modifies this`pairs
      ensures pairs == old(pairs)[p := Pair(f, b)]
    {
      pairs := pairs[p := Pair(f, b)];
    }

    method ColorContent(c: int) returns (r: int, g: int, b: int)
      requires c in colors
      ensures Rgb(r, g, b) == colors[c]
    {
      r, g, b := colors[c].red, colors[c].green, colors[c].blue;
    }

    method InitColor(c: int, r: int, g: int, b: int)
      modifies this`colors
      ensures colors == old(colors)[c := Rgb(r, g, b)]
    {
      colors := colors[c := Rgb(r, g, b)];
    }

    /**
     * init_colors: rewrites each of the 16 working colours with its own
     * content, makes pair c + 1 white on c, then sets colour 8 to
     * (200, 200, 200).
     */
    method InitColors()
      requires forall c :: 0 <= c < 16 ==> c in colors
      modifies this`pairs, this`colors
      ensures pairs == old(pairs) + StripPairs()
      ensures colors == old(colors)[8 := Rgb(200, 200, 200)]
    {
      for color := 0 to 16
        invariant colors == old(colors)
        invariant pairs == old(pairs) + map p | 1 <= p <= color :: StripPair(p)
      {
        var r, g, b := ColorContent(color);
        InitColor(color, r, g, b);
        InitPair(color + 1, COLOR_WHITE, color);
        assert pairs == old(pairs) + map p | 1 <= p <= color + 1 :: StripPair(p);
      }
      assert (map p | 1 <= p <= 16 :: StripPair(p)) == StripPairs();
      InitColor(8, 200, 200, 200);
    }

    /** init_form. */
    method InitForm()
      modifies this`bg, this`fg, this`active, this`focus, this`selectedRgb, this`sampleText
      ensures Snapshot().form == InitialForm()
    {
      bg := Default(Background);
      fg := Default(Foreground);
      active := Background;
      focus := Color;
      selectedRgb := Red;
      sampleText := Sample("Lorem ipsum", SAMPLE_PAIR);
    }

    /** update_sample_color. */
    method UpdateSampleColor()
      requires sampleText.colorPair in pairs
      modifies this`pairs
      ensures Snapshot() == Transitions.UpdateSampleColor(old(Snapshot()))
    {
      var f := if active == Background then bg else fg;
      var color := SelectedColor(f, false, numColors);
      var fgc, bgc := PairContent(sampleText.colorPair);
      if active == Foreground {
        fgc := color;
      } else {
        bgc := color;
      }
      InitPair(sampleText.colorPair, fgc, bgc);
    }

    /** set_selected_color on the record of side `s`. */
    method SetSelectedColor(s: Side, color: int)
      requires sampleText.colorPair in pairs
      modifies this`bg, this`fg, this`pairs
      ensures Snapshot() == Transitions.SetSelectedColor(old(Snapshot()), s, color)
    {
      if s == Background {
        bg := bg.(selectedColor := color);
      } else {
        fg := fg.(selectedColor := color);
      }
      UpdateSampleColor();
    }

    /** toggle_foreground_background. */
    method ToggleForegroundBackground()
      modifies this`active
      ensures Snapshot() == old(Snapshot()).(form := FormState.ToggleForegroundBackground(old(Snapshot()).form))
    {
      active := Other(active);
    }

    /** toggle_color_intensity. */
    method ToggleColorIntensity()
      requires sampleText.colorPair in pairs
      modifies this`bg, this`fg, this`pairs
      ensures Snapshot() == Transitions.ToggleColorIntensity(old(Snapshot()))
    {
      if active == Background {
        bg := bg.(intense := FlipIntensity(bg.intense));
      } else {
        fg := fg.(intense := FlipIntensity(fg.intense));
      }
      UpdateSampleColor();
    }

    /** move_rgb_component. */
    method MoveRgbComponent(d: HDir)
      modifies this`selectedRgb
      ensures Snapshot() == old(Snapshot()).(form := FormState.MoveRgbComponent(old(Snapshot()).form, d))
    {
      var i := ChannelIndex(selectedRgb);
      if d == Left {
        selectedRgb := if i > 0 then ChannelAt(i - 1) else selectedRgb;
      } else {
        selectedRgb := if i < 2 then ChannelAt(i + 1) else selectedRgb;
      }
    }

    /** move_color. */
    method MoveColor(d: HDir)
      requires sampleText.colorPair in pairs
      modifies this`bg, this`fg, this`pairs
      ensures Snapshot() == Transitions.MoveColor(old(Snapshot()), d)
    {
      var f := if active == Background then bg else fg;
      var selected := SelectedColor(f, true, numColors);
      if d == Left {
        selected := if selected > 0 then selected - 1 else selected;
      } else {
        selected := if selected < MAX_BASE_COLOR then selected + 1 else selected;
      }
      SetSelectedColor(active, selected);
    }

    /**
     * change_selected_rgb_component_value, with the local `comp[3]` array
     * indexed by the channel.
     */
    method ChangeSelectedRgbComponentValue(d: HDir)
      requires SelectedColor(if active == Background then bg else fg, false, numColors) + 1 in pairs
      requires pairs[SelectedColor(if active == Background then bg else fg, false, numColors) + 1].bg in colors
      modifies this`colors
      ensures Snapshot() == Transitions.ChangeSelectedRgbComponentValue(old(Snapshot()), d)
    {
      var f := if active == Background then bg else fg;
      var fgc, bgc := PairContent(SelectedColor(f, false, numColors) + 1);
      var comp := new int[3];
      var r, g, b := ColorContent(bgc);
      comp[0], comp[1], comp[2] := r, g, b;
      var k := ChannelIndex(selectedRgb);
      comp[k] := NewRgbCompValue(comp[k], d);
      InitColor(bgc, comp[0], comp[1], comp[2]);
      assert Rgb(comp[0], comp[1], comp[2])
          == Rgb(r, g, b).With(selectedRgb, NewRgbCompValue(Rgb(r, g, b).Get(selectedRgb), d));
    }

    /** move_focus. */
    method MoveFocus(d: VDir)
      modifies this`focus
      ensures Snapshot() == old(Snapshot()).(form := FormState.MoveFocus(old(Snapshot()).form, d))
    {
      var i := FocusIndex(focus);
      if d == Up {
        focus := if i > 0 then FocusAt(i - 1) else focus;
      } else {
        focus := if i < 2 then FocusAt(i + 1) else focus;
      }
    }

    /**
     * One pass of the switch in main's loop. The three tests under Left and
     * Right run one after the other, as in the source; since none of the
     * operations they call moves the focus, exactly one of them fires.
     */
    method HandleKey(key: int) returns (changed: bool, keepGoing: bool)
      requires Valid()
      modifies this
      ensures Valid()
      ensures Step(Snapshot(), changed, keepGoing) == Dispatch(old(Snapshot()), key)
    {
      changed, keepGoing := true, true;
      if key == KEY_ESCAPE {
        keepGoing := false;
      } else if key == KEY_SPACE {
        ToggleColorIntensity();
      } else if key == KEY_RIGHT || key == KEY_LEFT {
        var d := if key == KEY_RIGHT then Right else Left;
        Properties.EditTargetIsEffective(Snapshot());
        if focus == RGB {
          MoveRgbComponent(d);
        }
        if focus == Color {
          MoveColor(d);
        }
        if focus == Value {
          ChangeSelectedRgbComponentValue(d);
        }
      } else if key == KEY_UP {
        MoveFocus(Up);
      } else if key == KEY_DOWN {
        MoveFocus(Down);
      } else if key == KEY_TAB {
        ToggleForegroundBackground();
      } else {
        changed := false;
      }
    }

    /**
     * main's `while (keepGoing)` loop over the keys wgetch delivers, until
     * Escape or until `keys` runs out. Returns how many keys were read and
     * how many times the loop redrew the window.
     */
    method Run(keys: seq<int>) returns (consumed: nat, redraws: nat)
      requires Valid()
      modifies this
      ensures Valid()
      ensures var o := Transitions.Run(old(Snapshot()), keys);
        Snapshot() == o.world && consumed == o.consumed && redraws == o.redraws
    {
      ghost var w0 := Snapshot();
      consumed, redraws := 0, 0;
      var keepGoing := true;
      while keepGoing && consumed < |keys|
        invariant Valid()
        invariant consumed <= |keys|
        invariant Transitions.Run(w0, keys[..consumed]) == Outcome(Snapshot(), consumed, redraws, !keepGoing)
        decreases |keys| - consumed
      {
        Properties.RunSnoc(w0, keys[..consumed], keys[consumed]);
        assert keys[..consumed + 1] == keys[..consumed] + [keys[consumed]];
        var changed;
        changed, keepGoing := HandleKey(keys[consumed]);
        consumed := consumed + 1;
        if changed {
          redraws := redraws + 1;
        }
      }
      if !keepGoing {
        Properties.RunAfterStop(w0, keys[..consumed], keys[consumed..]);
        assert keys[..consumed] + keys[consumed..] == keys;
      } else {
        assert keys[..consumed] == keys;
      }
    }
  }
}
