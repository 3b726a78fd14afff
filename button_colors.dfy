/** The design-system button's tokens: its types and sizes, the context
    its parts share, and the colour table indexed by type and state. */
module ButtonColors {
  import opened Common

  datatype ButtonType = Primary | SecondaryGray | SecondaryColor | TertiaryGray | TertiaryColor | LinkGray | LinkColor

  /** The sizes `sm`, `lg` and `2xl`. */
  datatype ButtonSize = Sm | Lg | Xl2

  /** What the frame shares with its text, icon and loader parts. */
  datatype ButtonContextValue = ButtonContextValue(destructive: bool, disabled: bool, size: ButtonSize, kind: ButtonType)

  const DefaultContext: ButtonContextValue := ButtonContextValue(false, false, Lg, Primary)

  datatype ButtonState = Default | Destructive | Disabled

  datatype Base = Base(backgroundColor: string, borderColor: string, foregroundColor: string)

  /** A pressed look; only one entry of the table sets its foreground. */
  datatype Hover = Hover(backgroundColor: string, foregroundColor: Option<string>)

  /** One cell of the table: `hover: None` is `hover: null`. */
  datatype StateColors = StateColors(base: Base, hover: Option<Hover>)

  predicate IsLink(t: ButtonType) {
    t == LinkGray || t == LinkColor
  }

  /** `disabled ? 'disabled' : destructive ? 'destructive' : 'default'`,
      the selection every part of the button makes. */
  function SelectState(destructive: bool, disabled: bool): (s: ButtonState)
    ensures s == Disabled <==> disabled
    ensures s == Destructive <==> !disabled && destructive
    ensures s == Default <==> !disabled && !destructive
  {
    if disabled then Disabled else if destructive then Destructive else Default
  }

  function Plain(background: string, border: string, foreground: string, hoverBackground: string): StateColors {
    StateColors(Base(background, border, foreground), Some(Hover(hoverBackground, None)))
  }

  function NoHover(background: string, border: string, foreground: string): StateColors {
    StateColors(Base(background, border, foreground), None)
  }

  /** The cell of one type's row for a state. */
  function ByState(s: ButtonState, default: StateColors, destructive: StateColors, disabled: StateColors): StateColors {
    match s
    case Default => default
    case Destructive => destructive
    case Disabled => disabled
  }

  /** `colors[type][state]`.  Disabled cells have no hover and the disabled
      foreground; the tertiary and link types go transparent when disabled;
      `link-gray` never has a hover; and the one hover that sets a
      foreground is `link-color`'s destructive one. */
  function Colors(t: ButtonType, s: ButtonState): (c: StateColors)
    ensures s == Disabled ==> c.hover.None?
    ensures c.base.foregroundColor == "$fg-disabled" <==> s == Disabled
    ensures s == Disabled && (t == Primary || t == SecondaryGray || t == SecondaryColor) ==>
      c.base.borderColor == "$border-disabled_subtle"
    ensures s == Disabled && (t == TertiaryGray || t == TertiaryColor || IsLink(t)) ==>
      c.base.backgroundColor == "transparent" && c.base.borderColor == "transparent"
    ensures t == LinkGray ==> c.hover.None?
    ensures t == LinkColor ==> (c.hover.Some? <==> s == Destructive)
    ensures c.hover.Some? && c.hover.value.foregroundColor.Some? <==> t == LinkColor && s == Destructive
  {
    match t
    case Primary =>
      ByState(s,
        Plain("$button-primary-bg", "$button-primary-border", "$button-primary-fg", "$button-primary-bg_hover"),
        Plain("$button-primary-error-bg", "$button-primary-error-border", "$button-primary-error-fg", "$button-primary-error-bg_hover"),
        NoHover("$bg-disabled", "$border-disabled_subtle", "$fg-disabled"))
    case SecondaryGray =>
      ByState(s,
        Plain("$button-secondary-gray-bg", "$button-secondary-gray-border", "$button-secondary-gray-fg", "$button-secondary-gray-bg_hover"),
        Plain("$button-secondary-gray-bg", "$button-secondary-gray-border", "$button-secondary-gray-fg", "$button-secondary-gray-bg_hover"),
        NoHover("$bg-primary", "$border-disabled_subtle", "$fg-disabled"))
    case SecondaryColor =>
      ByState(s,
        Plain("$button-secondary-color-bg", "$button-secondary-color-border", "$button-secondary-color-fg", "$button-secondary-color-bg_hover"),
        Plain("$button-secondary-error-bg", "$button-secondary-error-border", "$button-secondary-error-fg", "$button-secondary-error-bg_hover"),
        NoHover("$bg-primary", "$border-disabled_subtle", "$fg-disabled"))
    case TertiaryGray =>
      ByState(s,
        Plain("$button-tertiary-gray-bg", "$button-tertiary-gray-border", "$button-tertiary-gray-fg", "$button-tertiary-gray-bg_hover"),
        Plain("$button-tertiary-gray-bg", "$button-tertiary-gray-border", "$button-tertiary-gray-fg", "$button-tertiary-gray-bg_hover"),
        NoHover("transparent", "transparent", "$fg-disabled"))
    case TertiaryColor =>
      ByState(s,
        Plain("$button-tertiary-color-bg", "$button-tertiary-color-border", "$button-tertiary-color-fg", "$button-tertiary-color-bg_hover"),
        Plain("$button-tertiary-error-bg", "$button-tertiary-error-border", "$button-tertiary-error-fg", "$button-tertiary-error-bg_hover"),
        NoHover("transparent", "transparent", "$fg-disabled"))
    case LinkGray =>
      ByState(s,
        NoHover("$button-tertiary-gray-bg", "$button-tertiary-gray-border", "$button-tertiary-gray-fg"),
        NoHover("$button-tertiary-gray-bg", "$button-tertiary-gray-border", "$button-tertiary-gray-fg"),
        NoHover("transparent", "transparent", "$fg-disabled"))
    case LinkColor =>
      ByState(s,
        NoHover("$button-tertiary-color-bg", "$button-tertiary-color-border", "$button-tertiary-color-fg"),
        StateColors(Base("$button-link-error-bg", "$button-link-error-border", "$button-link-error-fg"), Some(Hover("$button-link-error-bg_hover", Some("$button-link-error-fg_hover")))),
        NoHover("transparent", "transparent", "$fg-disabled"))
  }

  /** The gray types have no destructive look of their own: their
      destructive cell is their default cell; the colour types do differ. */
  lemma GrayDestructiveIsDefault(t: ButtonType)
    ensures Colors(t, Destructive) == Colors(t, Default) <==> t == SecondaryGray || t == TertiaryGray || t == LinkGray
  {
  }

  /** The link types borrow the tertiary tokens for their default base;
      `link-color`'s destructive base is its own. */
  lemma LinkBorrowsTertiaryBase()
    ensures Colors(LinkGray, Default).base == Colors(TertiaryGray, Default).base
    ensures Colors(LinkColor, Default).base == Colors(TertiaryColor, Default).base
    ensures Colors(LinkColor, Destructive).base != Colors(TertiaryColor, Destructive).base
  {
  }
}
