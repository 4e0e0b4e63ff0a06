/** The entry script's own decisions: whether the hero gets the 3D scene, how many
    particles it asks for, whether the cursor glow is created, how the pointer is
    normalised for the hero parallax, and the light/dark theme toggle. */
module MainPage {
  import opened Wrappers
  import opened Damping
  import Capability
  import ParticleField
  import HeroText

  // ---------------------------------------------------------------- start-up

  /** What the hero area ends up showing: the 3D scene; the static fallback made visible;
      or neither, when the canvas container is missing and `initHeroScene` returns early. */
  datatype HeroMode = Scene | Fallback | Untouched

  /** The DOMContentLoaded decision together with `initHeroScene`: reduced motion or a
      low-end device shows the fallback; otherwise a missing container leaves the hero
      alone, and an exception while setting the scene up shows the fallback. */
  function ChooseHero(reducedMotion: bool, nav: Capability.Navigator, containerPresent: bool, setupThrows: bool): (m: HeroMode)
    ensures m == Scene <==> !reducedMotion && !Capability.IsLowEndDevice(nav) && containerPresent && !setupThrows
    ensures m == Untouched <==> !reducedMotion && !Capability.IsLowEndDevice(nav) && !containerPresent
    ensures reducedMotion ==> m == Fallback
  {
    if reducedMotion || Capability.IsLowEndDevice(nav) then Fallback
    else if !containerPresent then Untouched
    else if setupThrows then Fallback
    else Scene
  }

  /** A browser that reports no capability hints gets the scene as long as the user does
      not ask for reduced motion and the setup succeeds: the low-end test fails open. */
  lemma SilentBrowserGetsScene(ua: string)
    ensures ChooseHero(false, Capability.Navigator(ua, None, None, None, None, None), true, false) == Scene
  {
    Capability.NoHintsFailsOpen(ua);
  }

  /** `isMobileDevice() ? 300 : 1000`. */
  function RequestedParticleCount(userAgent: string): (n: int)
    ensures n == 300 <==> Capability.IsMobileDevice(userAgent)
    ensures n == 1000 <==> !Capability.IsMobileDevice(userAgent)
  {
    if Capability.IsMobileDevice(userAgent) then 300 else 1000
  }

  /** The two reductions compose: a phone asks for 300 and the field keeps 30% of that,
      90; a desktop keeps 700 on a pixel ratio above 2 and all 1000 otherwise. */
  lemma ParticleBudget(userAgent: string, dpr: Option<real>)
    ensures Capability.IsMobileDevice(userAgent) ==>
      ParticleField.OptimalCount(RequestedParticleCount(userAgent), userAgent, dpr) == 90
    ensures !Capability.IsMobileDevice(userAgent) && ParticleField.PixelRatio(dpr) > 2.0 ==>
      ParticleField.OptimalCount(RequestedParticleCount(userAgent), userAgent, dpr) == 700
    ensures !Capability.IsMobileDevice(userAgent) && ParticleField.PixelRatio(dpr) <= 2.0 ==>
      ParticleField.OptimalCount(RequestedParticleCount(userAgent), userAgent, dpr) == 1000
  {}

  /** What start-up builds that the model tracks. */
  datatype Startup = Startup(hero: HeroMode, particlesRequested: Option<int>, cursorGlow: bool)

  /** The DOMContentLoaded handler: the hero decision, the particle request when the scene
      is set up, and the cursor glow on every non-mobile device, whatever the hero shows. */
  function Boot(reducedMotion: bool, nav: Capability.Navigator, containerPresent: bool, setupThrows: bool): (s: Startup)
    ensures s.hero == ChooseHero(reducedMotion, nav, containerPresent, setupThrows)
    ensures s.particlesRequested.Some? <==> s.hero == Scene
    ensures s.particlesRequested.Some? ==> s.particlesRequested.value == RequestedParticleCount(nav.userAgent)
    ensures s.cursorGlow <==> !Capability.IsMobileDevice(nav.userAgent)
  {
    var hero := ChooseHero(reducedMotion, nav, containerPresent, setupThrows);
    Startup(hero,
            if hero == Scene then Some(RequestedParticleCount(nav.userAgent)) else None,
            !Capability.IsMobileDevice(nav.userAgent))
  }

  /** The glow does not depend on the 3D scene: reduced motion hides the scene but a desktop
      still gets the glow. */
  lemma GlowIndependentOfScene(nav: Capability.Navigator, containerPresent: bool, setupThrows: bool)
    requires !Capability.IsMobileDevice(nav.userAgent)
    ensures Boot(true, nav, containerPresent, setupThrows).hero == Fallback
    ensures Boot(true, nav, containerPresent, setupThrows).cursorGlow
  {}

  // ---------------------------------------------------------------- pointer

  /** The hero mousemove normalisation: `x = clientX / innerWidth * 2 - 1` and
      `y = -(clientY / innerHeight) * 2 + 1`, so y points up. */
  function NormalizePointer(clientX: real, clientY: real, width: real, height: real): (p: (real, real))
    requires width > 0.0 && height > 0.0
    ensures 0.0 <= clientX <= width ==> -1.0 <= p.0 <= 1.0
    ensures 0.0 <= clientY <= height ==> -1.0 <= p.1 <= 1.0
    ensures clientX == 0.0 ==> p.0 == -1.0
    ensures clientX == width ==> p.0 == 1.0
    ensures clientY == 0.0 ==> p.1 == 1.0
    ensures clientY == height ==> p.1 == -1.0
  {
    var fx := clientX / width;
    var fy := clientY / height;
    Fraction(clientX, width);
    Fraction(clientY, height);
    (fx * 2.0 - 1.0, -fy * 2.0 + 1.0)
  }

  /** A coordinate within [0, w] is a fraction in [0, 1] of `w`. */
  lemma Fraction(c: real, w: real)
    requires w > 0.0
    ensures 0.0 <= c <= w ==> 0.0 <= c / w <= 1.0
  {
    var f := c / w;
    assert f * w == c;
    if 0.0 <= c <= w {
      if f > 1.0 { MulGreater(f, w); }
      if f < 0.0 { MulNonpos(w, f); }
    }
  }

  lemma MulGreater(f: real, w: real)
    requires f > 1.0 && w > 0.0
    ensures f * w > w
  {
    assert f * w - w == (f - 1.0) * w;
    ParticleField.MulPos(f - 1.0, w);
  }

  /** Client coordinates from normalised ones: the inverse of the normalisation. */
  function DenormalizePointer(x: real, y: real, width: real, height: real): (c: (real, real))
    requires width > 0.0 && height > 0.0
  {
    ((x + 1.0) / 2.0 * width, (1.0 - y) / 2.0 * height)
  }

  /** Normalisation loses nothing: `DenormalizePointer` recovers the client coordinates. */
  lemma NormalizeThenDenormalize(clientX: real, clientY: real, width: real, height: real)
    requires width > 0.0 && height > 0.0
    ensures var p := NormalizePointer(clientX, clientY, width, height);
      DenormalizePointer(p.0, p.1, width, height) == (clientX, clientY)
  {
    var fx, fy := clientX / width, clientY / height;
    var p := NormalizePointer(clientX, clientY, width, height);
    assert p.0 == fx * 2.0 - 1.0 && p.1 == -fy * 2.0 + 1.0;
    assert (p.0 + 1.0) / 2.0 == fx;
    assert (1.0 - p.1) / 2.0 == fy;
    assert fx * width == clientX && fy * height == clientY;
    var d := DenormalizePointer(p.0, p.1, width, height);
    assert d.0 == clientX && d.1 == clientY;
  }

  /** Conversely, every normalised point is reached from the client point
      `DenormalizePointer` gives. */
  lemma DenormalizeThenNormalize(x: real, y: real, width: real, height: real)
    requires width > 0.0 && height > 0.0
    ensures var c := DenormalizePointer(x, y, width, height);
      NormalizePointer(c.0, c.1, width, height) == (x, y)
  {
    var a, b := (x + 1.0) / 2.0, (1.0 - y) / 2.0;
    var c := DenormalizePointer(x, y, width, height);
    assert c.0 == a * width && c.1 == b * height;
    CancelMul(a, width);
    CancelMul(b, height);
    var n := NormalizePointer(c.0, c.1, width, height);
    assert n.0 == a * 2.0 - 1.0 && n.1 == -b * 2.0 + 1.0;
  }

  lemma CancelMul(a: real, w: real)
    requires w != 0.0
    ensures (a * w) / w == a
  {
    var q := (a * w) / w;
    assert q * w == a * w;
    assert (q - a) * w == 0.0;
  }

  /** The camera drift of the hero mousemove: it closes 5% of the gap to `(0.5·x, 0.3·y)`. */
  const CameraFollow: real := 0.05

  /** What the hero mousemove handler touches. `text` is `hero3DText`, absent when the
      scene was never set up; the camera belongs to the scene manager. */
  datatype Hero = Hero(text: Option<HeroText.Wordmark>, cameraX: real, cameraY: real)

  /** The hero mousemove handler, with the viewport size: without the wordmark nothing
      happens; otherwise the wordmark gets the normalised pointer and the camera drifts
      toward it. */
  function HeroMouseMove(h: Hero, clientX: real, clientY: real, width: real, height: real): (r: Hero)
    requires width > 0.0 && height > 0.0
    ensures h.text.None? ==> r == h
    ensures h.text.Some? ==>
      var p := NormalizePointer(clientX, clientY, width, height);
      && r.text == Some(HeroText.ReactToPointer(h.text.value, p.0, p.1))
      && r.cameraX - 0.5 * p.0 == (1.0 - CameraFollow) * (h.cameraX - 0.5 * p.0)
      && r.cameraY - 0.3 * p.1 == (1.0 - CameraFollow) * (h.cameraY - 0.3 * p.1)
  {
    if h.text.None? then h
    else
      var p := NormalizePointer(clientX, clientY, width, height);
      Hero(Some(HeroText.ReactToPointer(h.text.value, p.0, p.1)),
           Follow(h.cameraX, p.0 * 0.5, CameraFollow),
           Follow(h.cameraY, p.1 * 0.3, CameraFollow))
  }

  /** The camera never overshoots its pointer-driven target, and for a pointer inside the
      viewport it stays within ±0.5 horizontally and ±0.3 vertically once it started there. */
  lemma CameraStaysInBox(h: Hero, clientX: real, clientY: real, width: real, height: real)
    requires width > 0.0 && height > 0.0 && h.text.Some?
    requires 0.0 <= clientX <= width && 0.0 <= clientY <= height
    requires -0.5 <= h.cameraX <= 0.5 && -0.3 <= h.cameraY <= 0.3
    ensures var r := HeroMouseMove(h, clientX, clientY, width, height);
      -0.5 <= r.cameraX <= 0.5 && -0.3 <= r.cameraY <= 0.3
  {
    var p := NormalizePointer(clientX, clientY, width, height);
    FollowBetween(h.cameraX, p.0 * 0.5, CameraFollow);
    FollowBetween(h.cameraY, p.1 * 0.3, CameraFollow);
  }

  // ---------------------------------------------------------------- theme

  /** `setupThemeToggle()` on load: without the toggle button nothing is applied; otherwise
      the saved theme, or "dark" when nothing (or the empty string) is saved, becomes the
      document's `data-theme`. */
  function InitialTheme(togglePresent: bool, saved: Option<string>): (applied: Option<string>)
    ensures !togglePresent ==> applied.None?
    ensures togglePresent ==> applied.Some? && applied.value != ""
    ensures togglePresent && saved.Some? && saved.value != "" ==> applied == saved
    ensures togglePresent && (saved.None? || saved == Some("")) ==> applied == Some("dark")
  {
    if !togglePresent then None
    else if saved.Some? && saved.value != "" then saved
    else Some("dark")
  }

  /** The applied theme and what is saved under the `theme` key. */
  datatype Theme = Theme(applied: string, saved: Option<string>)

  /** A click: "dark" becomes "light" and anything else becomes "dark"; the new theme is
      applied and saved. */
  function ToggleTheme(t: Theme): (r: Theme)
    ensures r.saved == Some(r.applied)
    ensures r.applied == "light" <==> t.applied == "dark"
    ensures r.applied == "dark" || r.applied == "light"
  {
    var next := if t.applied == "dark" then "light" else "dark";
    Theme(next, Some(next))
  }

  /** Two clicks restore a light or dark theme; any other saved value is normalised to
      "dark" by the first click and so ends at "light" after two. */
  lemma ToggleTwice(t: Theme)
    ensures (t.applied == "dark" || t.applied == "light") ==> ToggleTheme(ToggleTheme(t)).applied == t.applied
    ensures t.applied != "dark" && t.applied != "light" ==> ToggleTheme(ToggleTheme(t)).applied == "light"
    ensures ToggleTheme(ToggleTheme(t)).saved == Some(ToggleTheme(ToggleTheme(t)).applied)
  {}

  /** After a reload the saved theme is applied again: a toggled theme survives a reload. */
  lemma ThemeSurvivesReload(t: Theme)
    ensures InitialTheme(true, ToggleTheme(t).saved) == Some(ToggleTheme(t).applied)
  {}
}
