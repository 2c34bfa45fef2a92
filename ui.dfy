/** The shared presentational components' logic (src/components/ui/index.tsx). */
module Ui {
  import opened Wrappers
  import opened Lists
  import Text

  /** Avatar initials: first character of each space-separated word, joined, first two kept, upper-cased. */
  function Initials(name: string): (r: string)
    ensures |r| <= 2
    ensures r == Text.ToUpper(Take(Text.WordStarts(name, true), 2))
  {
    Text.SplitFirstChars(name);
    Text.ToUpper(Take(Text.FirstChars(Text.Split(name)), 2))
  }

  /** Position `k` of `s` holds a non-space character that begins a word. */
  predicate BeginsWord(s: string, k: int, atStart: bool) {
    0 <= k < |s| && s[k] != ' ' && ((k == 0 && atStart) || (k > 0 && s[k - 1] == ' '))
  }

  /** Initial `i` is the upper case of a character that begins a word of the name. */
  ghost predicate InitialFromWord(name: string, i: int)
    requires 0 <= i < |Initials(name)|
  {
    exists k :: BeginsWord(name, k, true) && Initials(name)[i] == Text.UpperChar(name[k])
  }

  /** Every initial comes from the start of a word. */
  lemma InitialsStartWords(name: string)
    ensures forall i :: 0 <= i < |Initials(name)| ==> InitialFromWord(name, i)
  {
    var starts := Text.WordStarts(name, true);
    forall i | 0 <= i < |Initials(name)| ensures InitialFromWord(name, i) {
      assert Initials(name)[i] == Text.UpperChar(Take(starts, 2)[i]) == Text.UpperChar(starts[i]);
      var k := WordStartsAreStarts(name, true, i);
      assert BeginsWord(name, k, true) && Initials(name)[i] == Text.UpperChar(name[k]);
    }
  }

  /** The `i`-th character the scan reports sits at a word start `k` of `s`. */
  lemma {:induction false} WordStartsAreStarts(s: string, atStart: bool, i: nat) returns (k: int)
    requires i < |Text.WordStarts(s, atStart)|
    ensures BeginsWord(s, k, atStart) && Text.WordStarts(s, atStart)[i] == s[k]
    decreases |s|
  {
    var t := s[1..];
    if s[0] == ' ' {
      var k' := WordStartsAreStarts(t, true, i);
      k := k' + 1;
      assert s[k] == t[k'] && s[k - 1] == (if k' == 0 then s[0] else t[k' - 1]);
    } else if atStart && i == 0 {
      k := 0;
    } else {
      var j := if atStart then i - 1 else i;
      assert Text.WordStarts(s, atStart) == (if atStart then [s[0]] else "") + Text.WordStarts(t, false);
      assert Text.WordStarts(s, atStart)[i] == Text.WordStarts(t, false)[j];
      var k' := WordStartsAreStarts(t, false, j);
      k := k' + 1;
      assert s[k] == t[k'] && s[k - 1] == t[k' - 1];
    }
  }

  /** What an avatar draws. */
  datatype AvatarView = Image(src: string) | InitialsBadge(text: string)

  /** The image when `src` is a non-empty string, the initials otherwise. */
  function Avatar(src: Option<string>, name: string): (v: AvatarView)
    ensures v.Image? <==> src.Some? && src.value != ""
    ensures v.Image? ==> v.src == src.value
    ensures v.InitialsBadge? ==> v.text == Initials(name) && |v.text| <= 2
  {
    if src.Some? && src.value != "" then Image(src.value) else InitialsBadge(Initials(name))
  }

  /** `StarRating` props, optional ones as given by the caller. */
  datatype StarProps = StarProps(rating: real, maxRating: Option<nat>, interactive: Option<bool>, hasOnChange: bool)

  function MaxStars(p: StarProps): nat { p.maxRating.GetOr(5) }
  predicate Interactive(p: StarProps) { p.interactive.GetOr(false) }

  datatype Star = Star(filled: bool, disabled: bool)

  /** `Array.from({ length: maxRating })`: star `i` is filled iff `i < rating`; all are disabled unless interactive. */
  function Stars(p: StarProps): (r: seq<Star>)
    ensures |r| == MaxStars(p)
    ensures p.maxRating.None? ==> |r| == 5
    ensures forall i :: 0 <= i < |r| ==> (r[i].filled <==> (i as real) < p.rating)
    ensures forall i :: 0 <= i < |r| ==> r[i].disabled == !Interactive(p)
  {
    seq(MaxStars(p), i requires 0 <= i < MaxStars(p) => Star((i as real) < p.rating, !Interactive(p)))
  }

  /** Clicking star `i` reports `i + 1` to `onChange`, only when interactive and a listener is given. */
  function StarClick(p: StarProps, i: nat): (r: Option<nat>)
    requires i < MaxStars(p)
    ensures r.Some? <==> Interactive(p) && p.hasOnChange
    ensures r.Some? ==> r.value == i + 1 && 1 <= r.value <= MaxStars(p)
  {
    if Interactive(p) && p.hasOnChange then Some(i + 1) else None
  }

  /** The smallest integer not below `x`, clamped to `0..max`. */
  function FilledStars(x: real, max: nat): (n: nat)
    ensures n <= max
    ensures 0 < n ==> ((n - 1) as real) < x
    ensures n < max ==> x <= n as real
  {
    var f := x.Floor;
    var c := if f as real == x then f else f + 1;
    if c <= 0 then 0 else if c >= max then max else c
  }

  predicate IsFilled(s: Star) { s.filled }

  /** The filled stars are a prefix, as many as the rating rounded up, within `0..maxRating`. */
  lemma FilledPrefix(p: StarProps)
    ensures var stars := Stars(p);
            var n := FilledStars(p.rating, MaxStars(p));
            |Filter(stars, IsFilled)| == n &&
            (forall i :: 0 <= i < n ==> stars[i].filled) && (forall i :: n <= i < |stars| ==> !stars[i].filled)
  {
    var stars := Stars(p);
    var n := FilledStars(p.rating, MaxStars(p));
    assert stars == stars[..n] + stars[n..];
    FilterAppend(stars[..n], stars[n..], IsFilled);
    FilterKeepsAll(stars[..n], IsFilled);
    FilterKeepsNone(stars[n..], IsFilled);
  }

  /** A rating of 4.5 out of 5 fills five stars: partial stars round up. */
  lemma HalfStarRoundsUp()
    ensures |Filter(Stars(StarProps(4.5, None, None, false)), IsFilled)| == 5
  {
    FilledPrefix(StarProps(4.5, None, None, false));
  }

  datatype ButtonVariant = Primary | Secondary | Danger | Ghost
  datatype ButtonSize = Small | Medium | Large

  /** `Button` props after defaults: primary, medium, not full width, enabled. */
  datatype ButtonLook = ButtonLook(variant: ButtonVariant, size: ButtonSize, fullWidth: bool, disabled: bool)

  function ResolveButton(variant: Option<ButtonVariant>, size: Option<ButtonSize>, fullWidth: Option<bool>, disabled: Option<bool>): (b: ButtonLook)
    ensures variant.None? ==> b.variant == Primary
    ensures size.None? ==> b.size == Medium
    ensures fullWidth.None? ==> !b.fullWidth
    ensures disabled.None? ==> !b.disabled
    ensures variant.Some? ==> b.variant == variant.value
    ensures size.Some? ==> b.size == size.value
    ensures fullWidth.Some? ==> b.fullWidth == fullWidth.value
    ensures disabled.Some? ==> b.disabled == disabled.value
  {
    ButtonLook(variant.GetOr(Primary), size.GetOr(Medium), fullWidth.GetOr(false), disabled.GetOr(false))
  }

  /** A click on a button reaches its handler only when the button is enabled. */
  function ButtonClick<H>(b: ButtonLook, onClick: Option<H>): (r: Option<H>)
    ensures r.Some? <==> !b.disabled && onClick.Some?
    ensures r.Some? ==> r == onClick
  {
    if b.disabled then None else onClick
  }

  /** How a card is drawn. */
  datatype CardLook = CardLook(clickable: bool, tapScale: bool, accentBorder: bool)

  /** Clickable (pointer cursor, tap scale) iff a handler is given; accent border iff highlighted. */
  function RenderCard(hasOnClick: bool, highlighted: Option<bool>): (c: CardLook)
    ensures c.clickable <==> hasOnClick
    ensures c.tapScale <==> hasOnClick
    ensures c.accentBorder <==> highlighted == Some(true)
  {
    CardLook(hasOnClick, hasOnClick, highlighted.GetOr(false))
  }
}
