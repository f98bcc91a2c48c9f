/**
 * The two ncurses tables the picker reads and writes, as plain values:
 * a colour's (r, g, b) content and a colour pair's (fg, bg) indices.
 */
module Palette {
  import opened FormState

  /** The largest channel value ncurses reports for a colour. */
  const MAX_CHANNEL: int := 1000
  /** The largest channel value get_new_rgb_comp_value can produce from one in range. */
  const MAX_EDITED_CHANNEL: int := 1010

  /** A colour's content, as color_content reports it. */
  datatype Rgb = Rgb(red: int, green: int, blue: int) {

    /** comp[c] for the local `comp[3]` array of main.c. */
    function Get(c: Channel): int {
      match c
      case Red => red
      case Green => green
      case Blue => blue
    }

    /** The content with channel `c` replaced by `v`. */
    function With(c: Channel, v: int): (r: Rgb)
      ensures r.Get(c) == v
      ensures forall o :: o != c ==> r.Get(o) == Get(o)
    {
      match c
      case Red => this.(red := v)
      case Green => this.(green := v)
      case Blue => this.(blue := v)
    }

    /** Every channel lies in [lo, hi]. */
    predicate Within(lo: int, hi: int) {
      lo <= red <= hi && lo <= green <= hi && lo <= blue <= hi
    }
  }

  /** A colour pair, as pair_content reports it. */
  datatype Pair = Pair(fg: int, bg: int)

  /** The half of a pair that side `s` paints. */
  function Half(p: Pair, s: Side): int {
    if s == Foreground then p.fg else p.bg
  }

  /** Pair p of the palette strip: white on colour p - 1. */
  function StripPair(p: int): Pair {
    Pair(COLOR_WHITE, p - 1)
  }

  /** The pairs init_colors creates: pair c + 1 is (COLOR_WHITE, c) for c in 0..15. */
  function StripPairs(): (m: map<int, Pair>)
    ensures forall p :: p in m <==> 1 <= p <= 16
    ensures forall p :: p in m ==> m[p] == Pair(COLOR_WHITE, p - 1)
  {
    map p | 1 <= p <= 16 :: StripPair(p)
  }

  /** The strip pairs are in place in `pairs`. */
  ghost predicate HasStripPairs(pairs: map<int, Pair>) {
    forall p :: 1 <= p <= 16 ==> p in pairs && pairs[p] == Pair(COLOR_WHITE, p - 1)
  }

  /** The 16 working colours are all defined, each channel in [lo, hi]. */
  ghost predicate WorkingColors(colors: map<int, Rgb>, lo: int, hi: int) {
    forall c :: 0 <= c < 16 ==> c in colors && colors[c].Within(lo, hi)
  }
}
