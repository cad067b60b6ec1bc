/** The prize wheel: a spin controller with four state cells (isSpinning,
    selectedProduct, rotation, showPrize) and one deferred reveal.

    Each `Math.floor(Math.random() * k)` is an integer draw supplied by the
    environment (see IsDraw), and the 5000 ms `setTimeout` is an explicit
    TimerFired event. The pending callback, with the prize it captured, is
    the `timer` component of the state. */
module PrizeWheel {
  import opened Shop

  /** At most this many products are laid out on the wheel. */
  const MaxSectors: nat := 6

  /** A spin turns the wheel BaseTurns + (0 .. TurnChoices - 1) full turns. */
  const BaseTurns: nat := 5
  const TurnChoices: nat := 5
  const DegreesPerTurn: nat := 360

  /** The values `Math.floor(Math.random() * k)` can take: 0 .. k - 1, and 0
      when k is 0 (random() * 0 is 0). */
  predicate IsDraw(d: int, k: nat)
  {
    if k == 0 then d == 0 else 0 <= d < k
  }

  /** `allProducts.slice(0, 6)`: the longest prefix of at most six products. */
  function Displayed(all: seq<Product>): (shown: seq<Product>)
    ensures |shown| <= MaxSectors
    ensures shown <= all
    ensures |shown| == MaxSectors || shown == all
  {
    if |all| <= MaxSectors then all else all[..MaxSectors]
  }

  /** `rotations * 360 + finalPosition` with `rotations = turnsDraw + 5` and
      `finalPosition = offsetDraw`: five to ten full turns, landing on the
      drawn offset. It depends on the draws only, never on an earlier angle. */
  function TotalRotation(turnsDraw: int, offsetDraw: int): (r: int)
    ensures IsDraw(turnsDraw, TurnChoices) && IsDraw(offsetDraw, DegreesPerTurn) ==>
              5 * 360 <= r < 10 * 360 && r / 360 == turnsDraw + 5 && r % 360 == offsetDraw
  {
    (turnsDraw + BaseTurns) * DegreesPerTurn + offsetDraw
  }

  /** Every angle in [1800, 3599] is the outcome of some pair of draws. */
  lemma EveryAngleReachable(r: int)
    requires 5 * 360 <= r < 10 * 360
    ensures exists t, o :: IsDraw(t, TurnChoices) && IsDraw(o, DegreesPerTurn) && TotalRotation(t, o) == r
  {
    var t, o := r / 360 - 5, r % 360;
    assert TotalRotation(t, o) == r;
  }

  /** `products[randomIndex]`: an out-of-range index reads `undefined`. */
  function PrizeAt(shown: seq<Product>, d: int): (prize: Option<Product>)
    ensures prize.Some? ==> prize.value in shown
    ensures IsDraw(d, |shown|) ==> (prize.Some? <==> shown != [])
  {
    if 0 <= d < |shown| then Some(shown[d]) else None
  }

  /** Every displayed product is the prize for some admissible index draw. */
  lemma EveryShownProductCanWin(shown: seq<Product>, p: Product)
    requires p in shown
    ensures exists d :: IsDraw(d, |shown|) && PrizeAt(shown, d) == Some(p)
  {
    var d :| 0 <= d < |shown| && shown[d] == p;
    assert PrizeAt(shown, d) == Some(p);
  }

  /** The reveal callback scheduled by a spin, with the prize it captured. */
  datatype Timer = Idle | Armed(prize: Option<Product>)

  datatype WheelState = WheelState(
    isSpinning: bool,
    selected: Option<Product>,
    rotation: int,
    showPrize: bool,
    timer: Timer)

  /** `useState(false)`, `useState(null)`, `useState(0)`, `useState(false)`. */
  const Initial: WheelState := WheelState(false, None, 0, false, Idle)

  /** `spinWheel`: ignored while spinning; otherwise starts the spin, hides the
      prize panel, sets the rotation and arms the reveal with the drawn prize. */
  function SpinStep(s: WheelState, shown: seq<Product>, turnsDraw: int, offsetDraw: int, indexDraw: int): WheelState
  {
    if s.isSpinning then s
    else s.(isSpinning := true, showPrize := false,
             rotation := TotalRotation(turnsDraw, offsetDraw),
             timer := Armed(PrizeAt(shown, indexDraw)))
  }

  /** The `setTimeout` callback: stop spinning, select the captured prize and
      show it. With no armed callback nothing happens. */
  function FireStep(s: WheelState): WheelState
  {
    match s.timer
    case Idle => s
    case Armed(prize) => s.(isSpinning := false, selected := prize, showPrize := true, timer := Idle)
  }

  /** What the widget keeps true between events: a spin is in progress exactly
      while its reveal is pending, the panel is never shown during a spin, the
      angle is 0 or the outcome of one spin, and every product that is or will
      be selected comes from the displayed list. */
  predicate Inv(s: WheelState, shown: seq<Product>)
  {
    && (s.isSpinning <==> s.timer.Armed?)
    && !(s.isSpinning && s.showPrize)
    && (s.rotation == 0 || 5 * 360 <= s.rotation < 10 * 360)
    && (s.selected.Some? ==> s.selected.value in shown)
    && (s.timer.Armed? && s.timer.prize.Some? ==> s.timer.prize.value in shown)
  }

  lemma InitialInv(shown: seq<Product>)
    ensures Inv(Initial, shown)
  {
  }

  lemma SpinKeepsInv(s: WheelState, shown: seq<Product>, turnsDraw: int, offsetDraw: int, indexDraw: int)
    requires Inv(s, shown)
    requires IsDraw(turnsDraw, TurnChoices) && IsDraw(offsetDraw, DegreesPerTurn)
    ensures Inv(SpinStep(s, shown, turnsDraw, offsetDraw, indexDraw), shown)
  {
  }

  lemma FireKeepsInv(s: WheelState, shown: seq<Product>)
    requires Inv(s, shown)
    ensures Inv(FireStep(s), shown)
  {
  }

  /** The single-flight guard: a spin requested during a spin changes nothing. */
  lemma SpinWhileSpinningIgnored(s: WheelState, shown: seq<Product>, turnsDraw: int, offsetDraw: int, indexDraw: int)
    requires s.isSpinning
    ensures SpinStep(s, shown, turnsDraw, offsetDraw, indexDraw) == s
  {
  }

  /** An accepted spin: spinning, panel hidden, the previous selection kept
      until the reveal, and the angle overwritten by the new draws. */
  lemma SpinStarts(s: WheelState, shown: seq<Product>, turnsDraw: int, offsetDraw: int, indexDraw: int)
    requires !s.isSpinning
    requires IsDraw(turnsDraw, TurnChoices) && IsDraw(offsetDraw, DegreesPerTurn)
    ensures var t := SpinStep(s, shown, turnsDraw, offsetDraw, indexDraw);
      && t.isSpinning && !t.showPrize
      && t.selected == s.selected
      && 5 * 360 <= t.rotation < 10 * 360 && t.rotation % 360 == offsetDraw
      && t.timer.Armed?
  {
  }

  /** The reveal after an accepted spin selects the prize drawn at spin time
      and keeps the angle of that spin. */
  lemma RevealSelectsDrawnPrize(s: WheelState, shown: seq<Product>, turnsDraw: int, offsetDraw: int, indexDraw: int)
    requires !s.isSpinning
    requires IsDraw(indexDraw, |shown|)
    ensures var u := FireStep(SpinStep(s, shown, turnsDraw, offsetDraw, indexDraw));
      && !u.isSpinning && u.showPrize && u.timer.Idle?
      && u.selected == PrizeAt(shown, indexDraw)
      && (shown != [] ==> u.selected.Some? && u.selected.value in shown)
      && u.rotation == TotalRotation(turnsDraw, offsetDraw)
  {
  }

  /** The button's `disabled` attribute: set exactly while a reveal is pending. */
  function SpinDisabled(s: WheelState, shown: seq<Product>): (disabled: bool)
    requires Inv(s, shown)
    ensures disabled <==> s.timer.Armed?
  {
    s.isSpinning
  }

  /** The product the prize panel shows, if the panel is rendered at all
      (`showPrize && selectedProduct`). */
  function PrizePanel(s: WheelState, shown: seq<Product>): (panel: Option<Product>)
    requires Inv(s, shown)
    ensures panel.Some? <==> s.showPrize && s.selected.Some?
    ensures panel.Some? ==> panel == s.selected
    ensures panel.Some? ==> panel.value in shown && !s.isSpinning && s.timer.Idle?
    ensures shown == [] ==> panel.None?
  {
    if s.showPrize && s.selected.Some? then s.selected else None
  }

  /** After an accepted spin over a non-empty list, its reveal shows the panel
      with exactly the product drawn at spin time. */
  lemma RevealShowsPanel(s: WheelState, shown: seq<Product>, turnsDraw: int, offsetDraw: int, indexDraw: int)
    requires Inv(s, shown) && !s.isSpinning && shown != []
    requires IsDraw(turnsDraw, TurnChoices) && IsDraw(offsetDraw, DegreesPerTurn) && IsDraw(indexDraw, |shown|)
    ensures var t := SpinStep(s, shown, turnsDraw, offsetDraw, indexDraw);
      Inv(FireStep(t), shown) && PrizePanel(FireStep(t), shown) == Some(shown[indexDraw])
  {
  }

  /** The two sector backgrounds (`bg-white/10` and `bg-black/10`). */
  datatype Shade = Light | Dark

  /** `index % 2 === 0 ? 'bg-white/10' : 'bg-black/10'`. */
  function SectorShade(index: nat): Shade
  {
    if index % 2 == 0 then Light else Dark
  }

  /** The shades of the sectors of a wheel laid out from `shown`. */
  function SectorShades(shown: seq<Product>): (shades: seq<Shade>)
    ensures |shades| == |shown|
    ensures forall i :: 0 <= i < |shades| ==> shades[i] == SectorShade(i)
  {
    seq(|shown|, i requires 0 <= i => SectorShade(i))
  }

  /** Neighbouring sectors always differ, and sector i + 2 repeats sector i. */
  lemma ShadesAlternate(i: nat)
    ensures SectorShade(i) != SectorShade(i + 1)
    ensures SectorShade(i + 2) == SectorShade(i)
  {
  }

  /** Around the rim, the last sector differs from the first exactly when the
      number of sectors is even (six products: yes; five: two light ones meet). */
  lemma RimAlternatesIffEven(n: nat)
    requires n >= 2
    ensures SectorShade(n - 1) != SectorShade(0) <==> n % 2 == 0
  {
  }

  /** The events the widget reacts to: a click on the centre button, with the
      three draws it would make, and the firing of the reveal timer. */
  datatype Event =
    | Click(turnsDraw: int, offsetDraw: int, indexDraw: int)
    | TimerFired

  function Step(s: WheelState, shown: seq<Product>, e: Event): WheelState
  {
    match e
    case Click(t, o, i) => SpinStep(s, shown, t, o, i)
    case TimerFired => FireStep(s)
  }

  function Run(s: WheelState, shown: seq<Product>, events: seq<Event>): WheelState
    decreases |events|
  {
    if events == [] then s else Run(Step(s, shown, events[0]), shown, events[1..])
  }

  /** The draws of a click are values `Math.floor(Math.random() * k)` can take. */
  predicate AdmissibleEvent(e: Event, shown: seq<Product>)
  {
    e.Click? ==> IsDraw(e.turnsDraw, TurnChoices) && IsDraw(e.offsetDraw, DegreesPerTurn) && IsDraw(e.indexDraw, |shown|)
  }

  predicate Admissible(events: seq<Event>, shown: seq<Product>)
  {
    forall k :: 0 <= k < |events| ==> AdmissibleEvent(events[k], shown)
  }

  /** Every state reachable from the initial one satisfies Inv. */
  lemma {:induction false} RunKeepsInv(s: WheelState, shown: seq<Product>, events: seq<Event>)
    requires Inv(s, shown)
    requires Admissible(events, shown)
    ensures Inv(Run(s, shown, events), shown)
    decreases |events|
  {
    if events != [] {
      assert AdmissibleEvent(events[0], shown);
      match events[0] {
        case Click(t, o, i) => SpinKeepsInv(s, shown, t, o, i);
        case TimerFired => FireKeepsInv(s, shown);
      }
      RunKeepsInv(Step(s, shown, events[0]), shown, events[1..]);
    }
  }

  /** Any number of further clicks during a spin are all ignored. */
  lemma {:induction false} ClicksWhileSpinningIgnored(s: WheelState, shown: seq<Product>, clicks: seq<Event>)
    requires s.isSpinning
    requires forall k :: 0 <= k < |clicks| ==> clicks[k].Click?
    ensures Run(s, shown, clicks) == s
    decreases |clicks|
  {
    if clicks != [] {
      assert clicks[0].Click?;
      ClicksWhileSpinningIgnored(s, shown, clicks[1..]);
    }
  }

  /** A wheel over an empty product list never shows a prize, whatever happens. */
  lemma EmptyWheelNeverShowsPrize(events: seq<Event>)
    requires Admissible(events, [])
    ensures Inv(Run(Initial, [], events), [])
    ensures PrizePanel(Run(Initial, [], events), []).None?
  {
    RunKeepsInv(Initial, [], events);
  }

  /** The widget's state cells as a class; the display list is fixed per instance. */
  class Wheel {
    const products: seq<Product>
    var isSpinning: bool
    var selectedProduct: Option<Product>
    var rotation: int
    var showPrize: bool
    var timer: Timer

    function State(): WheelState
      reads this
    {
      WheelState(isSpinning, selectedProduct, rotation, showPrize, timer)
    }

    predicate Valid()
      reads this
    {
      Inv(State(), products)
    }

    constructor (allProducts: seq<Product>)
      ensures products == Displayed(allProducts)
      ensures State() == Initial
      ensures Valid()
    {
      products := Displayed(allProducts);
      isSpinning := false;
      selectedProduct := None;
      rotation := 0;
      showPrize := false;
      timer := Idle;
    }

    /** `spinWheel`, with the three random draws passed in. */
    method Spin(turnsDraw: int, offsetDraw: int, indexDraw: int)
      requires Valid()
      requires IsDraw(turnsDraw, TurnChoices) && IsDraw(offsetDraw, DegreesPerTurn) && IsDraw(indexDraw, |products|)
      modifies this
      ensures Valid()
      ensures State() == SpinStep(old(State()), products, turnsDraw, offsetDraw, indexDraw)
      ensures old(isSpinning) ==> unchanged(this)
      ensures !old(isSpinning) ==> isSpinning && !showPrize && selectedProduct == old(selectedProduct)
      ensures !old(isSpinning) ==> 5 * 360 <= rotation < 10 * 360
    {
      if isSpinning {
        return;
      }
      isSpinning := true;
      showPrize := false;
      var rotations := turnsDraw + BaseTurns;
      var finalPosition := offsetDraw;
      var totalRotation := rotations * DegreesPerTurn + finalPosition;
      var prize := PrizeAt(products, indexDraw);
      rotation := totalRotation;
      timer := Armed(prize);
    }

    /** The prize panel as rendered from the current cells: a displayed
        product, present exactly when `showPrize` holds and a product is
        selected, and never while a spin runs. */
    method PanelShown() returns (panel: Option<Product>)
      requires Valid()
      ensures panel == PrizePanel(State(), products)
      ensures panel.Some? <==> showPrize && selectedProduct.Some?
      ensures panel.Some? ==> panel.value in products && !isSpinning
    {
      if showPrize && selectedProduct.Some? {
        panel := selectedProduct;
      } else {
        panel := None;
      }
    }

    /** The reveal callback scheduled by the last accepted spin. */
    method TimerFired()
      requires Valid()
      modifies this
      ensures Valid()
      ensures State() == FireStep(old(State()))
      ensures old(timer).Armed? ==> !isSpinning && showPrize && selectedProduct == old(timer).prize
      ensures old(timer).Idle? ==> unchanged(this)
    {
      if timer.Armed? {
        var prize := timer.prize;
        isSpinning := false;
        selectedProduct := prize;
        showPrize := true;
        timer := Idle;
      }
    }
  }
}
