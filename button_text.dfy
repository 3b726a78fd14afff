/** The button label: its colour by type and state, and its typography
    by size. */
module ButtonText {
  import opened ButtonColors

  /** The `type` variant of the label: the selected cell's foreground. */
  function TextColor(t: ButtonType, destructive: bool, disabled: bool): (color: string)
    ensures color == "$fg-disabled" <==> disabled
  {
    Colors(t, SelectState(destructive, disabled)).base.foregroundColor
  }

  /** The `size` variant of the label: a typography token per size. */
  function Typography(size: ButtonSize): (token: string)
    ensures size == Sm ==> token == "$label-14"
    ensures size == Lg ==> token == "$label-16"
    ensures size == Xl2 ==> token == "$label-18"
  {
    match size
    case Sm => "$label-14"
    case Lg => "$label-16"
    case Xl2 => "$label-18"
  }

  /** Each size has its own label style, and only the three label styles
      occur. */
  lemma TypographyPerSize()
    ensures forall a: ButtonSize :: Typography(a) in {"$label-14", "$label-16", "$label-18"}
    ensures forall a: ButtonSize, b: ButtonSize :: Typography(a) == Typography(b) ==> a == b
  {
  }
}
