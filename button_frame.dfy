/** The button frame's two computed variants: colours by type (with the
    pressed look taken from the hover cell) and dimensions by size. */
module ButtonFrame {
  import opened Common
  import opened ButtonColors

  datatype PressStyle = PressStyle(backgroundColor: string)

  /** What the `type` variant returns. */
  datatype FrameColors = FrameColors(backgroundColor: string, borderColor: string, pressStyle: Option<PressStyle>)

  /** A style length: `'auto'`, a number of pixels, or a spacing token. */
  datatype Length = Auto | Px(px: nat) | Token(name: string)

  /** What the `size` variant returns; `None` is a key it does not set. */
  datatype FrameSize = FrameSize(height: Length, width: Option<Length>,
                                 paddingHorizontal: Option<Length>, paddingVertical: Option<Length>)

  /** The `type` variant: the base cell's background and border, and a
      pressed background exactly when the cell has a hover. */
  function FrameType(t: ButtonType, destructive: bool, disabled: bool): (r: FrameColors)
    ensures var cell := Colors(t, SelectState(destructive, disabled));
      && r.backgroundColor == cell.base.backgroundColor
      && r.borderColor == cell.base.borderColor
      && (r.pressStyle.Some? <==> cell.hover.Some?)
      && (r.pressStyle.Some? ==> r.pressStyle.value.backgroundColor == cell.hover.value.backgroundColor)
    ensures disabled ==> r.pressStyle.None?
    ensures t == LinkGray ==> r.pressStyle.None?
  {
    var state := SelectState(destructive, disabled);
    var cell := Colors(t, state);
    FrameColors(cell.base.backgroundColor, cell.base.borderColor,
                if cell.hover.Some? then Some(PressStyle(cell.hover.value.backgroundColor)) else None)
  }

  /** Height of the sizes: 36, 44 and 56 pixels. */
  function Height(size: ButtonSize): nat {
    match size
    case Sm => 36
    case Lg => 44
    case Xl2 => 56
  }

  function StandardPadding(size: ButtonSize): string {
    match size
    case Sm => "$spacing-md"
    case Lg => "$spacing-lg"
    case Xl2 => "$spacing-xl"
  }

  /** The `size` variant.  A link button follows its text: height `'auto'`,
      no horizontal padding, whatever the size or rounding; other buttons
      take the size's height, and a rounded one is a square of that side
      instead of being padded. */
  function FrameSizeStyle(size: ButtonSize, t: ButtonType, rounded: bool): (r: FrameSize)
    ensures IsLink(t) ==> r == FrameSize(Auto, None, Some(Px(0)), Some(Token("$spacing-sm")))
    ensures !IsLink(t) ==> r.height == Px(Height(size)) && r.paddingVertical.None?
    ensures !IsLink(t) && rounded ==> r.width == Some(r.height) && r.paddingHorizontal.None?
    ensures !IsLink(t) && !rounded ==> r.width.None? && r.paddingHorizontal == Some(Token(StandardPadding(size)))
  {
    if t == LinkColor || t == LinkGray then
      FrameSize(Auto, None, Some(Px(0)), Some(Token("$spacing-sm")))
    else if rounded then
      FrameSize(Px(Height(size)), Some(Px(Height(size))), None, None)
    else
      FrameSize(Px(Height(size)), None, Some(Token(StandardPadding(size))), None)
  }

  /** Larger sizes are taller: sm < lg < 2xl, so each size has its own
      height and its own padding token. */
  lemma HeightsIncrease()
    ensures Height(Sm) < Height(Lg) < Height(Xl2)
    ensures forall a: ButtonSize, b: ButtonSize :: StandardPadding(a) == StandardPadding(b) ==> a == b
  {
  }

  /** Whatever the type and state, a disabled frame has no pressed look;
      an enabled one has it unless its type is a link without a hover. */
  lemma PressStyleOnlyWhenEnabled(t: ButtonType, destructive: bool)
    ensures FrameType(t, destructive, true).pressStyle.None?
    ensures FrameType(t, destructive, false).pressStyle.Some? <==>
      !IsLink(t) || (t == LinkColor && destructive)
  {
  }
}
