/** The image carousel: a cursor over `n` images moved by the arrow buttons,
    the dot buttons and an auto-advance timer, and the three ways the
    component renders depending on how many images it is given. */
module Slider {
  import opened Types

  /** The right arrow: the last image wraps to the first. */
  function Next(n: nat, i: int): (r: int)
    ensures 0 <= i < n ==> 0 <= r < n && r == (i + 1) % n
    ensures 0 <= i < n ==> (r == 0 <==> i == n - 1)
  {
    if i == n - 1 then 0 else i + 1
  }

  /** The left arrow: the first image wraps to the last. */
  function Previous(n: nat, i: int): (r: int)
    ensures 0 <= i < n ==> 0 <= r < n && r == (i - 1) % n
    ensures 0 <= i < n ==> (r == n - 1 <==> i == 0)
  {
    if i == 0 then n - 1 else i - 1
  }

  /** The component's props that matter to the cursor; the interval length
      only paces the timer and is not modelled. */
  datatype Props = Props(imageCount: nat, autoSlide: bool)

  /** The component's own state; it starts at image 0, not hovered. */
  datatype State = State(index: int, hovered: bool)

  const Initial := State(0, false)

  /** The effect installs the interval timer only under this guard, and tears
      it down whenever the guard's inputs change. */
  predicate AutoSlideRuns(p: Props, s: State)
  {
    p.autoSlide && p.imageCount > 1 && !s.hovered
  }

  datatype Event = ClickPrevious | ClickNext | ClickDot(k: int) | Tick | MouseEnter | MouseLeave

  /** One transition of the component. A `Tick` while no timer is installed
      does nothing (there is no timer to fire). */
  function Step(p: Props, s: State, e: Event): (r: State)
    ensures e.ClickNext? ==> r.index == Next(p.imageCount, s.index)
    ensures e.ClickPrevious? ==> r.index == Previous(p.imageCount, s.index)
    ensures e.ClickDot? ==> r.index == e.k
    ensures e.Tick? && AutoSlideRuns(p, s) ==> r.index == Next(p.imageCount, s.index)
    ensures e.Tick? && !AutoSlideRuns(p, s) ==> r == s
    ensures e.MouseEnter? || e.MouseLeave? ==> r.index == s.index && r.hovered == e.MouseEnter?
    ensures !(e.MouseEnter? || e.MouseLeave?) ==> r.hovered == s.hovered
  {
    match e
    case ClickPrevious => s.(index := Previous(p.imageCount, s.index))
    case ClickNext => s.(index := Next(p.imageCount, s.index))
    case ClickDot(k) => s.(index := k)
    case Tick => if AutoSlideRuns(p, s) then s.(index := Next(p.imageCount, s.index)) else s
    case MouseEnter => s.(hovered := true)
    case MouseLeave => s.(hovered := false)
  }

  /** What the component draws. The carousel shows `images[index]`, which is
      `None` (an undefined source) when the index is out of range, one dot per
      image whose button targets that dot's position, and the arrows. */
  datatype View =
    | Placeholder
    | SingleImage(src: string)
    | Carousel(shown: Option<string>, dots: seq<int>)

  function Render(images: seq<string>, s: State): (v: View)
    ensures |images| == 0 <==> v.Placeholder?
    ensures |images| == 1 <==> v.SingleImage?
    ensures |images| >= 2 <==> v.Carousel?
    ensures v.SingleImage? ==> v.src == images[0]
    ensures v.Carousel? ==> |v.dots| == |images|
    ensures v.Carousel? ==> forall j :: 0 <= j < |v.dots| ==> v.dots[j] == j
    ensures v.Carousel? ==> (v.shown.Some? <==> 0 <= s.index < |images|)
    ensures v.Carousel? && 0 <= s.index < |images| ==> v.shown.value == images[s.index]
  {
    if |images| == 0 then Placeholder
    else if |images| == 1 then SingleImage(images[0])
    else
      Carousel(if 0 <= s.index < |images| then Some(images[s.index]) else None,
               seq(|images|, j => j))
  }

  /** An event that can actually happen: the arrows, dots and hover handlers
      exist only in the carousel view, a dot passes its own position, and a
      tick needs an installed timer. */
  predicate Available(p: Props, s: State, e: Event)
  {
    match e
    case ClickDot(k) => p.imageCount >= 2 && 0 <= k < p.imageCount
    case Tick => AutoSlideRuns(p, s)
    case _ => p.imageCount >= 2
  }

  /** Every dot rendered by the carousel triggers an available event. */
  lemma DotsAreAvailable(images: seq<string>, s: State, autoSlide: bool, j: int)
    requires Render(images, s).Carousel?
    requires 0 <= j < |Render(images, s).dots|
    ensures Available(Props(|images|, autoSlide), s, ClickDot(Render(images, s).dots[j]))
    ensures 0 <= Render(images, s).dots[j] < |images|
  {
  }

  /** Next and Previous undo each other on every valid index. */
  lemma NextPreviousInverse(n: nat, i: int)
    requires 0 <= i < n
    ensures Previous(n, Next(n, i)) == i
    ensures Next(n, Previous(n, i)) == i
  {
  }

  /** `k` presses of the right arrow. */
  function NextTimes(n: nat, i: int, k: nat): int
  {
    if k == 0 then i else Next(n, NextTimes(n, i, k - 1))
  }

  lemma MulAtLeast(d: int, n: int)
    requires d >= 1 && n >= 1
    ensures d * n >= n
  {
    assert d * n == (d - 1) * n + n;
    assert (d - 1) * n >= 0;
  }

  lemma ModUnique(n: int, a: int, q: int, r: int)
    requires n >= 1 && 0 <= r < n && a == q * n + r
    ensures a % n == r
  {
    var q' := a / n;
    var r' := a % n;
    assert a == q' * n + r';
    var d := q - q';
    assert d * n == r' - r by {
      assert q * n - q' * n == (q - q') * n;
    }
    if d >= 1 {
      MulAtLeast(d, n);
    } else if d <= -1 {
      MulAtLeast(-d, n);
    }
  }

  lemma ModSucc(n: nat, a: int)
    requires n >= 1
    ensures ((a % n) + 1) % n == (a + 1) % n
  {
    var q := a / n;
    var r := a % n;
    assert a == q * n + r;
    if r == n - 1 {
      ModUnique(n, a + 1, q + 1, 0);
      ModUnique(n, r + 1, 1, 0);
    } else {
      ModUnique(n, a + 1, q, r + 1);
      ModUnique(n, r + 1, 0, r + 1);
    }
  }

  /** Pressing the right arrow `k` times advances the cursor by `k` modulo `n`. */
  lemma {:induction false} NextTimesIsModular(n: nat, i: int, k: nat)
    requires 0 <= i < n
    ensures NextTimes(n, i, k) == (i + k) % n
  {
    if k > 0 {
      NextTimesIsModular(n, i, k - 1);
      ModSucc(n, i + k - 1);
    }
  }

  /** `n` presses of the right arrow bring the cursor back where it started. */
  lemma NextCycle(n: nat, i: int)
    requires 0 <= i < n
    ensures NextTimes(n, i, n) == i
  {
    NextTimesIsModular(n, i, n);
    ModUnique(n, i + n, 1, i);
  }

  /** The outcome of a sequence of events. */
  function Run(p: Props, s: State, events: seq<Event>): State
    decreases |events|
  {
    if events == [] then s else Run(p, Step(p, s, events[0]), events[1..])
  }

  /** Every event of the sequence is available when it happens. */
  predicate AllAvailable(p: Props, s: State, events: seq<Event>)
    decreases |events|
  {
    events == [] || (Available(p, s, events[0]) && AllAvailable(p, Step(p, s, events[0]), events[1..]))
  }

  /** With the image list fixed, any sequence of events that can happen keeps
      a cursor on an existing image there. */
  lemma {:induction false} RunStaysInRange(p: Props, s: State, events: seq<Event>)
    requires p.imageCount >= 1
    requires 0 <= s.index < p.imageCount
    requires AllAvailable(p, s, events)
    ensures 0 <= Run(p, s, events).index < p.imageCount
    decreases |events|
  {
    if events != [] {
      RunStaysInRange(p, Step(p, s, events[0]), events[1..]);
    }
  }

  /** From the initial state, with the image list fixed, every reachable
      cursor names an existing image. */
  lemma InitialRunStaysInRange(p: Props, events: seq<Event>)
    requires p.imageCount >= 1
    requires AllAvailable(p, Initial, events)
    ensures 0 <= Run(p, Initial, events).index < p.imageCount
  {
    RunStaysInRange(p, Initial, events);
  }

  /** With at most one image no event is available at all, so the cursor
      never leaves 0. */
  lemma FewImagesFreeze(p: Props, s: State, e: Event)
    requires p.imageCount <= 1
    ensures !Available(p, s, e)
  {
  }

  /** The index is not clamped when the image list shrinks: from an index past
      the end the right arrow and the timer move further away, never back. */
  lemma NextBeyondEndEscapes(n: nat, i: int, k: nat)
    requires i >= n
    ensures NextTimes(n, i, k) == i + k
  {
  }

  // ---------------------------------------------------------------------
  // The image list changing while the component is mounted

  /** The cursor is state and survives a change of the `images` prop: three
      images shown at the last one, the list shrinks to two, and the carousel
      shows no image while the timer pushes the cursor further out; only the
      left arrow or a dot brings it back. */
  lemma StaleIndexAfterShrink(a: string, b: string)
    ensures var s := State(2, false);
            var q := Props(2, true);
            && 0 <= s.index < 3
            && Render([a, b], s).shown.None?
            && Run(q, s, [Tick, Tick]).index == 4
            && Render([a, b], Run(q, s, [Tick, Tick])).shown.None?
            && Run(q, s, [ClickPrevious]).index == 1
  {
    var s := State(2, false);
    var q := Props(2, true);
    assert [Tick, Tick][1..] == [Tick];
    assert Run(q, s, [Tick]) == Run(q, State(3, false), []);
  }

  /** The cursor after the image list changes to `m` images: kept when it
      still names an image, back to the first image otherwise. */
  function Resize(s: State, m: nat): (r: State)
    ensures m >= 1 ==> 0 <= r.index < m
    ensures 0 <= s.index < m ==> r == s
    ensures !(0 <= s.index < m) ==> r.index == 0
    ensures r.hovered == s.hovered
  {
    if 0 <= s.index < m then s else s.(index := 0)
  }

  /** With the cursor reset on every change of the image list, each run
      between two changes stays on an existing image of the current list. */
  lemma {:induction false} ResizedRunStaysInRange(p: Props, s: State, m: nat, events: seq<Event>)
    requires m >= 1
    requires AllAvailable(p.(imageCount := m), Resize(s, m), events)
    ensures 0 <= Run(p.(imageCount := m), Resize(s, m), events).index < m
  {
    RunStaysInRange(p.(imageCount := m), Resize(s, m), events);
  }
}
