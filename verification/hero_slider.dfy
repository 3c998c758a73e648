/**
 * The home page's banner slider: the index of the slide shown, the
 * autoplay flag, the arrow and dot navigation and the timer that advances
 * the slides. The timer itself is not modelled: `Tick` is what one firing
 * of it does.
 */
module HeroSlider {
  /** JavaScript's `a % n` for `n > 0`: the remainder takes the sign of `a`. */
  function JsRem(a: int, n: int): (r: int)
    requires n > 0
    ensures a >= 0 ==> 0 <= r < n && r == a % n
    ensures a < 0 ==> -n < r <= 0
  {
    if a >= 0 then a % n else -((-a) % n)
  }

  datatype Slider = Slider(current: int, autoPlaying: bool)

  /** The first slide, playing. */
  const Initial := Slider(0, true)

  /** The right arrow: one slide on, wrapping round; autoplay stops. */
  function Next(s: Slider, n: int): (r: Slider)
    requires n > 0
    ensures !r.autoPlaying
    ensures 0 <= s.current ==> 0 <= r.current < n
    ensures 0 <= s.current < n - 1 ==> r.current == s.current + 1
    ensures s.current == n - 1 ==> r.current == 0
  {
    Slider(JsRem(s.current + 1, n), false)
  }

  /** The left arrow: one slide back, wrapping round; autoplay stops. */
  function Prev(s: Slider, n: int): (r: Slider)
    requires n > 0
    ensures !r.autoPlaying
    ensures 0 <= s.current ==> 0 <= r.current < n
    ensures 0 < s.current <= n ==> r.current == s.current - 1
    ensures s.current == 0 ==> r.current == n - 1
  {
    Slider(JsRem(s.current - 1 + n, n), false)
  }

  /** A dot: straight to that slide; autoplay stops. */
  function GoTo(s: Slider, index: int): (r: Slider)
    ensures r.current == index && !r.autoPlaying
  {
    Slider(index, false)
  }

  /** One firing of the autoplay timer: one slide on; the flag is kept. */
  function Tick(s: Slider, n: int): (r: Slider)
    requires n > 0
    ensures r.autoPlaying == s.autoPlaying
    ensures r.current == Next(s, n).current
  {
    Slider(JsRem(s.current + 1, n), s.autoPlaying)
  }

  /** The timer is set only while autoplay is on and there are banners. */
  predicate TimerScheduled(s: Slider, n: int) {
    s.autoPlaying && n > 0
  }

  /** What is rendered: nothing without banners; otherwise the slides, with
      arrows and one dot per banner only when there is more than one. */
  datatype View = Nothing | Slides(arrows: bool, dots: nat)

  function Render(n: nat): (v: View)
    ensures v.Nothing? <==> n == 0
    ensures v.Slides? ==> (v.arrows <==> n > 1) && (v.dots == if n > 1 then n else 0)
  {
    if n == 0 then Nothing else Slides(n > 1, if n > 1 then n else 0)
  }

  /** Any manual navigation stops autoplay, and so the timer. */
  lemma NavigationStopsTimer(s: Slider, n: int, index: int)
    requires n > 0
    ensures !TimerScheduled(Next(s, n), n) && !TimerScheduled(Prev(s, n), n) && !TimerScheduled(GoTo(s, index), n)
  {
  }

  /** Back after forward, and forward after back, return to the same slide. */
  lemma PrevNextInverse(s: Slider, n: int)
    requires n > 0 && 0 <= s.current < n
    ensures Prev(Next(s, n), n).current == s.current
    ensures Next(Prev(s, n), n).current == s.current
  {
  }

  /** `k` presses of the right arrow. */
  function NextTimes(s: Slider, n: int, k: nat): (r: Slider)
    requires n > 0
  {
    if k == 0 then s else Next(NextTimes(s, n, k - 1), n)
  }

  lemma {:induction false} MulAtLeast(x: nat, n: int)
    requires x >= 1 && n > 0
    ensures x * n >= n
  {
    if x > 1 {
      MulAtLeast(x - 1, n);
      assert x * n == (x - 1) * n + n;
    }
  }

  /** Division with remainder is unique. */
  lemma ModUnique(a: int, n: int, q: int, r: int)
    requires n > 0 && 0 <= r < n && a == q * n + r
    ensures a % n == r
  {
    var q', r' := a / n, a % n;
    assert (q - q') * n == r' - r by {
      assert a == q' * n + r';
      assert q * n - q' * n == (q - q') * n;
    }
    if q > q' {
      MulAtLeast(q - q', n);
    } else if q < q' {
      MulAtLeast(q' - q, n);
    }
  }

  lemma ModSucc(a: nat, n: int)
    requires n > 0
    ensures (a % n + 1) % n == (a + 1) % n
  {
    var q := a / n;
    var r := a % n;
    if r + 1 < n {
      ModUnique(a + 1, n, q, r + 1);
      ModUnique(r + 1, n, 0, r + 1);
    } else {
      ModUnique(a + 1, n, q + 1, 0);
      ModUnique(r + 1, n, 1, 0);
    }
  }

  /** After `k` presses the slide is `k` further on, modulo the number of slides. */
  lemma {:induction false} NextTimesCurrent(s: Slider, n: int, k: nat)
    requires n > 0 && 0 <= s.current < n
    ensures NextTimes(s, n, k).current == (s.current + k) % n
  {
    if k > 0 {
      NextTimesCurrent(s, n, k - 1);
      ModSucc(s.current + k - 1, n);
    }
  }

  /** Going right once per slide comes back to the starting slide. */
  lemma FullCircle(s: Slider, n: int)
    requires n > 0 && 0 <= s.current < n
    ensures NextTimes(s, n, n as nat).current == s.current
  {
    NextTimesCurrent(s, n, n as nat);
    ModUnique(s.current + n, n, 1, s.current);
  }

  /** The arrows are shown exactly when pressing them moves the slider, and
      every dot leads to one of the slides. */
  lemma ArrowsShownExactlyWhenTheyMove(s: Slider, n: int)
    requires 0 <= s.current < n
    ensures Render(n).Slides?
    ensures Render(n).arrows <==> Next(s, n).current != s.current
    ensures Render(n).arrows <==> Prev(s, n).current != s.current
    ensures forall i :: 0 <= i < Render(n).dots ==> 0 <= GoTo(s, i).current < n
  {
  }
}
