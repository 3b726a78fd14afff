/** The button's loading indicator: three dots, one of them active, the
    active one advanced by a timer.  The scale animation is not modelled;
    the timer is the `Tick` method. */
module ButtonLoader {
  import opened ButtonColors
  import opened ButtonIcon

  /** The timer's update `prev > 2 ? 1 : prev + 1`: from any index in 1..3
      it moves one place round the cycle 1, 2, 3. */
  function NextActive(prev: int): (next: int)
    ensures 1 <= prev ==> 1 <= next <= 3
    ensures 1 <= prev <= 3 ==> next == prev % 3 + 1
  {
    if prev > 2 then 1 else prev + 1
  }

  /** The active index after `ticks` timer firings from the initial 1. */
  function ActiveAfter(ticks: nat): (active: int)
    ensures active == ticks % 3 + 1
  {
    if ticks == 0 then 1 else NextActive(ActiveAfter(ticks - 1))
  }

  /** The loader's state, advanced in place by the timer. */
  class Loader {
    var active: int

    ghost predicate Valid()
      reads this
    {
      1 <= active <= 3
    }

    /** `useState(1)`. */
    constructor ()
      ensures Valid() && active == 1
    {
      active := 1;
    }

    /** One firing of the interval. */
    method Tick()
      requires Valid()
      modifies this
      ensures Valid()
      ensures active == NextActive(old(active))
    {
      active := if active > 2 then 1 else active + 1;
    }
  }

  /** `[1, 2, 3].map(i => i === active)`: which dots are active. */
  function DotsActive(active: int): (dots: seq<bool>)
    ensures |dots| == 3
    ensures forall i :: 0 <= i < 3 ==> (dots[i] <==> active == i + 1)
  {
    [active == 1, active == 2, active == 3]
  }

  /** In every reachable state exactly one dot is active. */
  lemma ExactlyOneDotActive(active: int)
    requires 1 <= active <= 3
    ensures exists i :: 0 <= i < 3 && DotsActive(active)[i]
    ensures forall i, j :: 0 <= i < 3 && 0 <= j < 3 && DotsActive(active)[i] && DotsActive(active)[j] ==> i == j
  {
    assert DotsActive(active)[active - 1];
  }

  /** Running the timer from a fresh loader keeps the index in 1..3 and
      activates each dot in turn. */
  method TicksScenario()
  {
    var loader := new Loader();
    loader.Tick();
    assert loader.active == 2;
    loader.Tick();
    loader.Tick();
    assert loader.active == ActiveAfter(3) == 1;
  }

  /** The dot side in pixels: 12 for `2xl` and 10 for the other sizes. */
  function DotSize(size: ButtonSize): (px: nat)
    ensures px == if size == Xl2 then 12 else 10
  {
    match size
    case Sm => 10
    case Lg => 10
    case Xl2 => 12
  }

  /** Every loader dot is half as wide as the icon of the same size. */
  lemma DotIsHalfIcon(size: ButtonSize)
    ensures 2 * DotSize(size) == IconSize(size)
  {
  }

  /** A dot's style; the colour is the token, whose value is resolved by
      the theme. */
  datatype DotStyle = DotStyle(backgroundColor: string, borderRadius: nat, height: nat, width: nat)

  /** A round dot of the size's side, coloured like the button's text. */
  function Dot(ctx: ButtonContextValue): (style: DotStyle)
    ensures style.height == style.width == DotSize(ctx.size)
    ensures 2 * style.borderRadius == style.height
    ensures style.backgroundColor == "$fg-disabled" <==> ctx.disabled
  {
    var dotSize := DotSize(ctx.size);
    var state := SelectState(ctx.destructive, ctx.disabled);
    DotStyle(Colors(ctx.kind, state).base.foregroundColor, dotSize / 2, dotSize, dotSize)
  }
}
