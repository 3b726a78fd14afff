/** The button icon: the child element cloned with the button's icon
    colour and size. */
module ButtonIcon {
  import opened Common
  import opened ButtonColors

  /** A React element as far as cloning goes: its kind and its props. */
  datatype Element = Element(kind: string, props: map<string, Json>)

  /** The icon side in pixels: 24 for `2xl` and 20 for the other sizes. */
  function IconSize(size: ButtonSize): (px: nat)
    ensures px == if size == Xl2 then 24 else 20
  {
    match size
    case Sm => 20
    case Lg => 20
    case Xl2 => 24
  }

  /** `cloneElement(child, { color, size })`: the same element with `color`
      set to the selected cell's foreground and `size` to the icon size;
      every other prop is kept as it was. */
  function CloneIcon(child: Element, ctx: ButtonContextValue): (r: Element)
    ensures r.kind == child.kind
    ensures r.props.Keys == child.props.Keys + {"color", "size"}
    ensures r.props["color"] == JString(Colors(ctx.kind, SelectState(ctx.destructive, ctx.disabled)).base.foregroundColor)
    ensures r.props["size"] == JNumber(IconSize(ctx.size))
    ensures forall k :: k in child.props && k != "color" && k != "size" ==> r.props[k] == child.props[k]
  {
    var state := SelectState(ctx.destructive, ctx.disabled);
    var base := Colors(ctx.kind, state).base;
    Element(child.kind, child.props["color" := JString(base.foregroundColor)]["size" := JNumber(IconSize(ctx.size))])
  }

  /** Cloning twice is cloning once: the icon props are overwritten, not
      accumulated. */
  lemma CloneIconIdempotent(child: Element, ctx: ButtonContextValue)
    ensures CloneIcon(CloneIcon(child, ctx), ctx) == CloneIcon(child, ctx)
  {
    assert CloneIcon(CloneIcon(child, ctx), ctx).props == CloneIcon(child, ctx).props;
  }
}
