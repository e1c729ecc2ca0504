/** The landing page's client state: the role carousel index, the auth modal
    and which form it shows, and the dark-mode flag mirrored on the document
    root. The number of carousel roles comes from a data module that is not
    part of this model, so it is a parameter `n`; the page reads `ROLES[index]`
    on every render, so it needs at least one role. */
module LandingPage {

  /** JavaScript's `%`: the remainder takes the sign of the dividend. */
  function JsRem(a: int, b: int): (r: int)
    requires b != 0
    ensures a >= 0 ==> 0 <= r < (if b > 0 then b else -b)
    ensures a < 0 ==> -(if b > 0 then b else -b) < r <= 0
  {
    var m := if b > 0 then b else -b;
    if a >= 0 then a % m else -((-a) % m)
  }

  /** A value below the modulus is its own remainder. */
  lemma ModBelow(x: int, n: int)
    requires 0 <= x < n
    ensures x % n == x
  {
    var q := x / n;
    assert x == n * q + x % n;
    assert q >= 1 ==> n * q >= n;
    assert q <= -1 ==> n * q <= -n;
  }

  /** A value between the modulus and its double loses one modulus. */
  lemma ModOnce(x: int, n: int)
    requires 0 < n <= x < 2 * n
    ensures x % n == x - n
  {
    var q := x / n;
    assert x == n * q + x % n;
    assert q >= 2 ==> n * q >= 2 * n;
    assert q <= 0 ==> n * q <= 0;
  }

  /** The right arrow: one role on, and from the last role back to the first. */
  function Next(index: int, n: int): (r: int)
    requires n > 0
    ensures 0 <= index < n ==> 0 <= r < n
    ensures 0 <= index < n ==> r == if index == n - 1 then 0 else index + 1
  {
    var r := JsRem(index + 1, n);
    if 0 <= index < n - 1 then ModBelow(index + 1, n); r
    else if index == n - 1 then ModOnce(index + 1, n); r
    else r
  }

  /** The left arrow: one role back, and from the first role on to the last. */
  function Prev(index: int, n: int): (r: int)
    requires n > 0
    ensures 0 <= index < n ==> 0 <= r < n
    ensures 0 <= index < n ==> r == if index == 0 then n - 1 else index - 1
  {
    var r := JsRem(index - 1 + n, n);
    if index == 0 then ModBelow(index - 1 + n, n); r
    else if 0 < index < n then ModOnce(index - 1 + n, n); r
    else r
  }

  lemma NextPrevInverse(index: int, n: int)
    requires n > 0 && 0 <= index < n
    ensures Next(Prev(index, n), n) == index
    ensures Prev(Next(index, n), n) == index
  {
  }

  lemma WrapAround(n: int)
    requires n > 0
    ensures Next(n - 1, n) == 0 && Prev(0, n) == n - 1
  {
  }

  /** The index after `k` presses of the right arrow. */
  function NextTimes(index: int, n: int, k: nat): int
    requires n > 0
  {
    if k == 0 then index else Next(NextTimes(index, n, k - 1), n)
  }

  /** Pressing `a` times and then `b` times is pressing `a + b` times. */
  lemma {:induction false} NextTimesAdd(index: int, n: int, a: nat, b: nat)
    requires n > 0
    ensures NextTimes(index, n, a + b) == NextTimes(NextTimes(index, n, a), n, b)
  {
    if b > 0 {
      NextTimesAdd(index, n, a, b - 1);
    }
  }

  /** Below the last role, `k` presses move exactly `k` roles on. */
  lemma {:induction false} NextTimesBelow(index: int, n: int, k: nat)
    requires n > 0 && 0 <= index && index + k < n
    ensures NextTimes(index, n, k) == index + k
  {
    if k > 0 {
      NextTimesBelow(index, n, k - 1);
    }
  }

  /** A full cycle of right-arrow presses returns to the starting role. */
  lemma FullCycle(index: int, n: int)
    requires n > 0 && 0 <= index < n
    ensures NextTimes(index, n, n) == index
  {
    var toLast := n - 1 - index;
    NextTimesBelow(index, n, toLast);
    WrapAround(n);
    assert NextTimes(index, n, toLast + 1) == 0;
    NextTimesBelow(0, n, index);
    NextTimesAdd(index, n, toLast + 1, index);
  }

  /** The page's state. `htmlDark` is whether the document root carries the
      "dark" class, which lives outside React state. */
  datatype State = State(openAuthModal: bool, currentPage: string, index: int, isDark: bool, htmlDark: bool)

  /** The first render: modal closed on the login form, first role, and the
      dark flag read from the document root. */
  function Init(htmlDark: bool): State {
    State(false, "login", 0, htmlDark, htmlDark)
  }

  datatype Effect = Stay | Navigate(path: string)

  /** The "Get Started" button: a visitor gets the sign-up form in the modal;
      a signed-in user is sent to the dashboard and the page state is untouched. */
  function HandleCta(s: State, signedIn: bool): (r: (State, Effect))
    ensures !signedIn ==> r.0 == s.(currentPage := "signup", openAuthModal := true) && r.1 == Stay
    ensures signedIn ==> r.0 == s && r.1 == Navigate("/dashboard")
  {
    if !signedIn then (s.(currentPage := "signup").(openAuthModal := true), Stay)
    else (s, Navigate("/dashboard"))
  }

  /** The header's "Log In" button: opens the modal on whatever form is current. */
  function OpenLogIn(s: State): (r: State)
    ensures r.openAuthModal && r.currentPage == s.currentPage
    ensures r.index == s.index && r.isDark == s.isDark && r.htmlDark == s.htmlDark
  {
    s.(openAuthModal := true)
  }

  /** The modal's close handler. */
  function CloseModal(s: State): (r: State)
    ensures !r.openAuthModal && r.currentPage == "login"
    ensures r.index == s.index && r.isDark == s.isDark && r.htmlDark == s.htmlDark
  {
    s.(openAuthModal := false).(currentPage := "login")
  }

  /** The dark-mode button: toggles the root's class and negates the flag. */
  function ToggleDarkMode(s: State): (r: State)
    ensures r.htmlDark != s.htmlDark && r.isDark != s.isDark
    ensures r.openAuthModal == s.openAuthModal && r.currentPage == s.currentPage && r.index == s.index
  {
    s.(htmlDark := !s.htmlDark).(isDark := !s.isDark)
  }

  /** Two presses of the dark-mode button restore the page exactly. */
  lemma ToggleDarkTwice(s: State)
    ensures ToggleDarkMode(ToggleDarkMode(s)) == s
  {
  }

  /** Which forms the modal body renders: the login form iff the page is
      "login", the sign-up form iff it is "signup". */
  datatype ModalBody = ModalBody(showsLogin: bool, showsSignUp: bool)

  function ModalContent(s: State): (r: ModalBody)
    ensures r.showsLogin <==> s.currentPage == "login"
    ensures r.showsSignUp <==> s.currentPage == "signup"
    ensures !(r.showsLogin && r.showsSignUp)
  {
    ModalBody(s.currentPage == "login", s.currentPage == "signup")
  }

  /** Everything that changes the page's state. The login and sign-up forms
      may switch the page to any value. The Log In button is rendered only for
      a visitor, so for a signed-in user its click changes nothing. */
  datatype Event = ClickNext | ClickPrev | ClickCta | ClickLogIn | Close | ClickDarkMode | SetPage(page: string)

  function Step(s: State, e: Event, signedIn: bool, n: int): State
    requires n > 0
  {
    match e
    case ClickNext => s.(index := Next(s.index, n))
    case ClickPrev => s.(index := Prev(s.index, n))
    case ClickCta => HandleCta(s, signedIn).0
    case ClickLogIn => if signedIn then s else OpenLogIn(s)
    case Close => CloseModal(s)
    case ClickDarkMode => ToggleDarkMode(s)
    case SetPage(p) => s.(currentPage := p)
  }

  function Run(s: State, events: seq<Event>, signedIn: bool, n: int): State
    requires n > 0
    decreases |events|
  {
    if events == [] then s else Run(Step(s, events[0], signedIn, n), events[1..], signedIn, n)
  }

  /** The carousel index is a valid role, and the dark flag mirrors the root's class. */
  predicate Invariant(s: State, n: int) {
    0 <= s.index < n && s.isDark == s.htmlDark
  }

  /** From the first render, every sequence of events keeps the invariant. */
  lemma {:induction false} RunKeepsInvariant(s: State, events: seq<Event>, signedIn: bool, n: int)
    requires n > 0 && Invariant(s, n)
    ensures Invariant(Run(s, events, signedIn, n), n)
    decreases |events|
  {
    if events != [] {
      RunKeepsInvariant(Step(s, events[0], signedIn, n), events[1..], signedIn, n);
    }
  }

  lemma InitialInvariant(htmlDark: bool, n: int)
    requires n > 0
    ensures Invariant(Init(htmlDark), n)
  {
  }
}
