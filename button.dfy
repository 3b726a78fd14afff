/** `Button`: derives the frame's flags from its props and chooses what to
    render inside it (a loader, or the icon, label and trailing icon). */
module Button {
  import opened Common
  import opened ButtonColors
  import opened ButtonText
  import opened ButtonIcon
  import opened ButtonLoader

  /** The props `Button` reads; `icon`, `iconAfter` and `children` are
      given by whether each is present (truthy).  `hoverCursor` is a cursor
      set by the caller's own `hoverStyle`, if any. */
  datatype ButtonProps = ButtonProps(
    hasChildren: bool,
    icon: bool,
    iconAfter: bool,
    disabled: bool,
    loading: bool,
    destructive: bool,
    size: ButtonSize,
    kind: ButtonType,
    hoverCursor: Option<string>)

  /** What is rendered: the frame's flags and hover cursor, and which
      children appear inside it. */
  datatype Rendered = Rendered(
    disabled: bool,
    rounded: bool,
    cursor: string,
    showLoader: bool,
    showIcon: bool,
    showText: bool,
    showIconAfter: bool)

  /** `Boolean(!children && !iconAfter && icon)`. */
  predicate IsOnlyIcon(props: ButtonProps) {
    !props.hasChildren && !props.iconAfter && props.icon
  }

  /** A button that is not loading is icon-only exactly when the leading
      icon is the one part it shows. */
  lemma IconOnlyIffIconAlone(props: ButtonProps)
    requires !props.loading
    ensures IsOnlyIcon(props) <==> Render(props).showIcon && !Render(props).showText && !Render(props).showIconAfter
  {
  }

  function Render(props: ButtonProps): (r: Rendered)
    ensures r.rounded <==> !props.hasChildren && !props.iconAfter && props.icon
    ensures r.disabled <==> props.disabled || props.loading
    ensures r.showLoader <==> props.loading && !r.rounded
    ensures props.loading ==> !r.showIcon && !r.showText && !r.showIconAfter
    ensures !props.loading ==>
      r.showIcon == props.icon && r.showText == props.hasChildren && r.showIconAfter == props.iconAfter
    ensures props.hoverCursor.None? ==> (r.cursor == "default" <==> props.disabled)
    ensures props.hoverCursor.Some? ==> r.cursor == props.hoverCursor.value
  {
    var isOnlyIcon := IsOnlyIcon(props);
    var cursor := if props.hoverCursor.Some? then props.hoverCursor.value
                  else if props.disabled then "default" else "pointer";
    Rendered(props.disabled || props.loading, isOnlyIcon, cursor,
             props.loading && !isOnlyIcon,
             !props.loading && props.icon, !props.loading && props.hasChildren, !props.loading && props.iconAfter)
  }

  /** The context the frame passes to its parts: the frame's own
      (effective) disabled flag. */
  function PartsContext(props: ButtonProps): (ctx: ButtonContextValue)
    ensures ctx.disabled <==> props.disabled || props.loading
  {
    ButtonContextValue(props.destructive, Render(props).disabled, props.size, props.kind)
  }

  /** An icon-only button that is loading renders nothing inside its frame:
      the loader is suppressed and the content is hidden. */
  lemma LoadingIconOnlyIsEmpty(props: ButtonProps)
    requires props.loading && IsOnlyIcon(props)
    ensures var r := Render(props);
      !r.showLoader && !r.showIcon && !r.showText && !r.showIconAfter
  {
  }

  /** A button that is loading but not disabled has a disabled frame yet
      keeps the pointer cursor, since the cursor reads the `disabled` prop
      alone. */
  lemma LoadingKeepsPointer(props: ButtonProps)
    requires props.loading && !props.disabled && props.hoverCursor.None?
    ensures Render(props).disabled && Render(props).cursor == "pointer"
  {
  }

  /** Whatever is rendered, the label, the icon and the loader dots share
      one colour, and a loading button draws its loader in the disabled
      foreground. */
  lemma PartsShareForeground(props: ButtonProps, child: Element)
    ensures var ctx := PartsContext(props);
      && CloneIcon(child, ctx).props["color"] == JString(TextColor(ctx.kind, ctx.destructive, ctx.disabled))
      && Dot(ctx).backgroundColor == TextColor(ctx.kind, ctx.destructive, ctx.disabled)
    ensures Render(props).showLoader ==> Dot(PartsContext(props)).backgroundColor == "$fg-disabled"
  {
  }
}
