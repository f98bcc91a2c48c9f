# TerminalPalette colour picker, modelled in Dafny

TerminalPalette is a small ncurses program (`main.c`). It lets the user pick a
foreground/background pair from the 16-entry palette and then adjust the red,
green and blue channels of the chosen colour. A sample text is drawn in the
pair as it changes. This project models the program's form state machine and
the two ncurses tables it reads and writes.

- `form_state.dfy` (module `FormState`) holds `struct Form` as a datatype and
  its pure helpers: `get_default`, `get_intense_bit`, `get_selected_color`,
  `get_new_rgb_comp_value`, and the moves that change only the form
  (`toggle_foreground_background`, `move_rgb_component`, `move_focus`, and
  move_color's clamped step).
- `palette.dfy` (module `Palette`) holds a colour's `(r, g, b)` and a pair's
  `(fg, bg)`, plus the strip pairs that `init_colors` creates.
- `transitions.dfy` (module `Transitions`) models the picker state as a value:
  the form, the pair table, the colour table and `COLORS`. It defines every
  operation that touches the tables, the switch in `main` (`Dispatch`) and
  the `while (keepGoing)` loop over a sequence of keys (`Run`). The invariant
  `World.Valid` says:
  - both base colours are in [0, 7];
  - pairs 1..16 stay white-on-colour;
  - colours 0..15 exist, with every channel in [0, 1010];
  - pair 17 (the sample) always shows both sides' effective colours.
- `picker.dfy` (module `ColorPicker`) has the class `Picker`. It holds the
  global `form`, the two tables and `COLORS` as fields, and its methods update
  them field by field, as the C code does. `pair_content`, `init_pair`,
  `color_content` and `init_color` are plain reads and writes of the `pairs`
  and `colors` maps. Each method is proved to produce the state given by its
  function in `Transitions`. `HandleKey` runs the three `if (form.focus == …)`
  tests one after another, as the source does. `Run` is the key loop, proved
  against `Transitions.Run`.
- `properties.dfy` (module `Properties`) proves what the operations promise.
- `render.dfy` (module `Render`) covers the choices the drawing code makes:
  the RGB title, the readout brackets, the checkbox, the side label and the
  strip cell pairs. It does not model the drawing itself.
- `scenarios.dfy` (module `Scenarios`) works through key sequences.

Some of main.c's behaviour is easy to misread; the model follows the code:
- Both sides start on base colour 3 (`get_default`, main.c:28-31), and the
  selected channel starts at Red (main.c:39).
- Right raises a channel while it is at most 1000, so 1010 can be reached
  (main.c:220). Left skips the step below 10 rather than clamping to 0.
- Escape leaves `changed` set, so the window is drawn once more before the
  loop ends (main.c:278-281, main.c:312-313).
- From start-up, two Right presses move the background from 3 to 5.

## Model

| member | source | states |
|---|---|---|
| FormState.Default | main.c:28-31 | get_default: the record carries its own side tag and, being Normal, names colour 3 whatever COLORS is. |
| FormState.ActiveSide | main.c:48-50 | get_active_form: the record returned is the one of the side `active` names. |
| FormState.InitialForm | main.c:28-42 | init_form: Background is active, the focus is on the colour strip and the channel is Red. Both sides are Normal on colour 3 with their own side tag, and the sample uses pair 17. |
| FormState.SetBit3 | main.c:58 | `c OR 8` for any two's-complement int: the low three bits and every bit above bit 3 are kept, and bit 3 is set. |
| FormState.IntenseBit | main.c:52-54 | The bit is 0 or 8. It is 8 exactly when the side is Intense and COLORS > 8. |
| FormState.SelectedColor | main.c:56-59 | With `base` set, the result is the raw selected colour. For a base in [0,7], the result is base + 8 exactly when `base` is unset, the side is Intense and COLORS > 8. |
| FormState.NewRgbCompValue | main.c:216-221 | The value moves by exactly 10 or stays put. Left subtracts 10 exactly when the value is ≥ 10, and Right adds 10 exactly when it is ≤ 1000. A non-negative value stays non-negative, and a value ≤ 1010 stays ≤ 1010. |
| FormState.ToggleForegroundBackground | main.c:184-186 | The active side becomes the other side and no other field changes. |
| FormState.MoveRgbComponent | main.c:193-202 | Only the channel changes. Left at Red and Right at Blue change nothing; otherwise the channel index moves by exactly one. |
| FormState.MoveFocus | main.c:234-239 | Only the focus changes. Up at Color and Down at Value change nothing; otherwise the focus index moves by exactly one. |
| FormState.StepColor | main.c:206-211 | A colour in [0,7] stays in [0,7]. Left at 0 and Right at 7 change nothing; otherwise the colour moves by exactly one. |
| Palette.StripPairs | main.c:242-247 | The seeded pairs are exactly ids 1..16, and pair p is white on colour p - 1. |
| Transitions.UpdateSampleColor | main.c:61-74 | Only the sample pair changes. Its active half becomes the active side's effective colour, and its other half, all other pairs, the colours and the form stay as they were. |
| Transitions.SetSelectedColor | main.c:76-79 | Side s's colour is stored and the other side is untouched. Only the sample pair changes among the pairs. Validity is kept when s is the active side and the colour is in [0,7]. |
| Transitions.ToggleColorIntensity | main.c:188-191 | Only the active side's intensity flag flips. The colours stay and only the sample pair changes. The invariant, with the sample in step, is kept. |
| Transitions.MoveColor | main.c:204-214 | The active side's colour takes one clamped step. The other side, the focus, the channel, the colours and pairs 1..16 are unchanged, and the invariant is kept. |
| Transitions.ChangeSelectedRgbComponentValue | main.c:223-232 | Only the colour named by the background of pair effective+1 changes, and within it only the selected channel, by get_new_rgb_comp_value. The form, the pairs and every other colour stay, and channels stay in [0,1010]. |
| Transitions.EditTarget | main.c:227-228 | The colour an RGB edit rewrites is the background of pair effective + 1. In a valid state it is the active side's effective index, a defined colour in [0,15]. |
| Transitions.Dispatch | main.c:277-310 | Keeps the invariant. The loop goes on unless the key is Escape. A redraw is asked exactly for the listed keys. Escape and unlisted keys leave the state unchanged. |
| Transitions.Run | main.c:276-314 | Keeps the invariant. It reads no more keys than given and makes at most one redraw per key read. Unless Escape stopped it, it reads every key. |
| Transitions.Initial | main.c:263-269 | After start-up the invariant holds. Pairs are 1..16 white-on-colour plus sample pair 17 = (3, 3). Colour 8 is (200, 200, 200), and the other colours are as the terminal reported them. |
| Properties.EffectiveInPalette | main.c:52-59 | For a base in [0,7] the effective index is in [0,15] and keeps the base as its low three bits. It is ≥ 8 exactly when the side is Intense and COLORS > 8. |
| Properties.EightColorsIgnoreIntensity | main.c:53 | When COLORS ≤ 8, the intensity flag never changes the effective index, which is the raw base. |
| Properties.StepColorIsClamp | main.c:208-211 | move_color's step equals base ± 1 clamped to [0,7]. |
| Properties.MoveRgbComponentIsClamp | main.c:193-202 | The new channel index equals the old one ± 1, clamped to [0,2]. |
| Properties.MoveFocusIsClamp | main.c:234-239 | The new focus index equals the old one ± 1, clamped to [0,2]. |
| Properties.NewRgbCompValueInverse | main.c:216-221 | Right undoes Left on [10,1010], and Left undoes Right on [0,1000]. Left is a no-op below 10, and Right is a no-op above 1000. |
| Properties.NewRgbCompValueCeiling | main.c:220 | 1000 goes up to 1010, and 1010 stays: the real ceiling is 1010. |
| Properties.ToggleForegroundBackgroundInvolution | main.c:184-186 | Tab twice gives back the original form. One Tab keeps the invariant, because neither side's record nor any table changes. |
| Properties.ToggleColorIntensityInvolution | main.c:188-191 | From a valid state, Space twice gives back the exact state, sample pair included. |
| Properties.EightColorsSpaceKeepsPairs | main.c:188-191 | When COLORS ≤ 8, Space changes neither the active effective index nor any pair. |
| Properties.EditTargetIsEffective | main.c:227-228 | In a valid state, the colour an RGB edit rewrites is the active side's effective index. That is also the colour the active half of the sample pair shows. |
| Properties.EditIsSeenByBothSides | main.c:231 | When both sides name the same colour, one edit changes what both halves of the sample pair show. |
| Properties.ArrowKeysFollowFocus | main.c:283-304 | Left/Right never move the focus. On Color the active side's base colour takes move_color's clamped step and its other fields stay; the other side, the sample text, the colours, the pair ids and every pair but the sample stay. On RGB only the channel changes. On Value the form and pairs stay, the colour ids stay, and only the active effective colour entry changes. |
| Properties.SpaceAndTabIgnoreFocus | main.c:282 | Space and Tab give the same result whatever the focus. |
| Properties.RunSnoc | main.c:277-314 | Reading one more key after a prefix that did not stop is one more dispatch: one more key read, plus one redraw if the key is listed. |
| Properties.RunAfterStop | main.c:281 | Once Escape has been read, keys after it are never read. |
| Properties.RunStopsAtFirstEscape | main.c:281 | The loop stops right after the first Escape, having read exactly the keys up to it, in the state those keys produced. |
| Properties.UnhandledKeysAreIgnored | main.c:308-309 | Any run of unlisted keys leaves the state unchanged and makes no redraw. |
| Properties.LeftPressesClampAtZero | main.c:204-214 | With the focus on Color, n Left presses give max(0, c − n) on the active side. The focus and the active side stay the same. |
| Properties.RightPressesClampAtSeven | main.c:204-214 | With the focus on Color, n Right presses give min(7, c + n) on the active side. The focus and the active side stay the same. |
| Properties.DownPressesClampAtValue | main.c:234-239 | n Down presses give a focus index of min(2, i + n). |
| Properties.UpPressesClampAtColor | main.c:234-239 | n Up presses give a focus index of max(0, i − n). |
| ColorPicker.Picker.constructor | main.c:262-269 | Start-up (init_colors, init_form, then seeding pair 17) leaves the state `Transitions.Initial` gives, and it is valid. |
| ColorPicker.Picker.InitColors | main.c:241-250 | The loop adds pairs 1..16 as white-on-colour, writes each colour back unchanged, then sets colour 8 to (200, 200, 200). |
| ColorPicker.Picker.InitForm | main.c:33-42 | The form fields are set to init_form's record. |
| ColorPicker.Picker.UpdateSampleColor | main.c:61-74 | The new state is `Transitions.UpdateSampleColor` of the old one. |
| ColorPicker.Picker.SetSelectedColor | main.c:76-79 | The new state is `Transitions.SetSelectedColor` of the old one. |
| ColorPicker.Picker.ToggleForegroundBackground | main.c:184-186 | Only `active` flips. |
| ColorPicker.Picker.ToggleColorIntensity | main.c:188-191 | The new state is `Transitions.ToggleColorIntensity` of the old one. |
| ColorPicker.Picker.MoveRgbComponent | main.c:193-202 | Only the channel moves, as `FormState.MoveRgbComponent` says. |
| ColorPicker.Picker.MoveColor | main.c:204-214 | The new state is `Transitions.MoveColor` of the old one. |
| ColorPicker.Picker.ChangeSelectedRgbComponentValue | main.c:223-232 | The edit through the local three-element array gives `Transitions.ChangeSelectedRgbComponentValue` of the old state. |
| ColorPicker.Picker.MoveFocus | main.c:234-239 | Only the focus moves, as `FormState.MoveFocus` says. |
| ColorPicker.Picker.HandleKey | main.c:278-310 | The three sequential focus tests under Left/Right, and each other case, give exactly `Dispatch` of the old state, with its `changed` and `keepGoing`. The invariant is kept. |
| ColorPicker.Picker.Run | main.c:276-314 | The loop reads keys until Escape or the end of the input. It leaves the state, key count and redraw count that `Transitions.Run` gives, and keeps the invariant. |
| Render.RgbTitle | main.c:99-104 | The title has 9 characters, with the letters R, G, B at fixed places. The only `[` and `]` surround the selected channel's letter. |
| Render.ReadoutFrame | main.c:110-113 | The readout is bracketed exactly when the focus is Value; otherwise blanks take the brackets' place. |
| Render.IntenseCheckbox | main.c:146 | The checkbox is three characters in brackets, with an `x` exactly when the side is Intense. |
| Render.SideNameIsActive | main.c:148 | In a valid state, the label printed from the active record's tag names the active side. |
| Render.SideName | main.c:148 | The label is "Foreground" or "Background", and it is "Foreground" exactly when the record's tag says Foreground. |
| Render.ReadoutValue | main.c:106-108 | In a valid state the readout is the selected channel of the active side's effective colour, in [0,1010]. |
| Render.ReadoutTracksEdit | main.c:106-111 | The number the readout shows is exactly the one an RGB edit changes: after the edit, it is get_new_rgb_comp_value of the old readout. |
| Render.StripCellPair | main.c:128 | For a base in [0,7], the cell pair `(color OR intense_bit) + 1` is color + bit + 1, in [1,16]. |
| Render.SelectedCellMatchesSample | main.c:124-137 | In a valid state, the strip cell of the active selection is painted with the colour the active half of the sample pair shows. |
| Scenarios.ValuePresses | main.c:290-302 | With the focus on Value, n presses of one arrow apply n get_new_rgb_comp_value steps to the selected channel of the active colour. The form, the pairs and the other channels are unchanged. |
| Scenarios.RedChannelScenario | main.c:216-232 | Red at 500 reads 530 after three Rights, then 480 after five Lefts. |
| Scenarios.StartupRightRight | main.c:267-288 | From start-up, Right, Right moves the background from 3 to 5. The sample pair becomes (3, 5), with two redraws. |
| Scenarios.StartupDownDownDown | main.c:305-306 | From start-up, two Downs reach Value, and a third keeps it there. |
| Scenarios.EscapeRedrawsOnce | main.c:281 | Escape leaves the state unchanged and stops the loop, but still asks for one redraw. |

## Left out

- Drawing and window management are not modelled: `derwin`, `mvderwin`, `box`, `wborder`, `wprintw`, `wrefresh`, `delwin`, `relmove` and the `draw*` functions (main.c:44-46, main.c:81-155). They are foreign screen calls. Only the choices they print are modelled, in `Render`.
- The `%4d` formatting of the readout and the layout offsets are not modelled.
- The SIGWINCH handler (main.c:157-163) is not modelled. It is asynchronous signal handling with `ioctl` and `resizeterm`.
- The start-up capability checks are not modelled: `check`, `fail`, the error `printf`, and `initscr`, `cbreak`, `noecho`, `curs_set`, `start_color`, `endwin` (main.c:165-182, main.c:252-262, main.c:316-322). They are terminal I/O. Note that `fail` ignores its argument, so the "color change" message is never shown.
- `wgetch` is not modelled. The keys it would deliver are an input sequence. `Run` stops when that sequence ends, which the blocking read never does.
- `Run` and `ColorPicker.Picker.Run` do not count the first `draw(w1)` made before the loop (main.c:274).
- The ncurses tables are plain maps. `init_color`'s own range check is not modelled (ncurses rejects channels above 1000), so a channel of 1010 is stored. Colour entries at or above `COLORS` are treated like any other.
- The constructor takes the colours `color_content` reports for 0..15 as a parameter. It requires them to be in [0, 1000], the range ncurses reports.
- `short` truncation is not modelled. Every value that passes through a `short` (effective index + 1 ≤ 16, channels ≤ 1010) fits.
- `form.active` is an `int` toggled with `^= Background`. It is modelled as the `Side` enumeration, since it only ever holds 0 or 1.
- `set_selected_color` takes a pointer to a side record. It is modelled with a `Side` argument naming that record. It is only called with the active side.
- Pair 0, pairs above 17 and the `COLOR_PAIRS` limit are not modelled. The program never touches them.
