/** The services section's card tilt: on desktop every card follows the pointer with a
    rotation of at most 10 degrees about each axis and drops it when the pointer leaves;
    on mobile user agents no handler is attached. */
module Services {
  import Capability

  /** The card's bounding client rectangle. */
  datatype Rect = Rect(left: real, top: real, width: real, height: real)

  predicate Positive(r: Rect)
  {
    r.width > 0.0 && r.height > 0.0
  }

  predicate Inside(r: Rect, clientX: real, clientY: real)
  {
    r.left <= clientX <= r.left + r.width && r.top <= clientY <= r.top + r.height
  }

  /** The largest tilt, in degrees. */
  const MaxTilt: real := 10.0

  /** The inline transform of a card: the tilted transform (the perspective, the 8px lift
      and the 1.02 zoom are fixed, the two angles vary), or the empty string. */
  datatype Transform = Tilted(rotateX: real, rotateY: real) | NoTransform

  /** `d / c` for `c > 0` has the sign of `d`, and lies in [-1, 1] when `d` does in [-c, c]. */
  lemma Quotient(d: real, c: real)
    requires c > 0.0
    ensures d / c > 0.0 <==> d > 0.0
    ensures d / c < 0.0 <==> d < 0.0
    ensures -c <= d <= c ==> -1.0 <= d / c <= 1.0
    ensures d == c ==> d / c == 1.0
    ensures d == -c ==> d / c == -1.0
  {
    var q := d / c;
    assert q * c == d;
    if q > 1.0 {
      assert q * c - c == (q - 1.0) * c;
      assert (q - 1.0) * c > 0.0;
    }
    if q < -1.0 {
      assert q * c + c == (q + 1.0) * c;
      assert (-(q + 1.0)) * c > 0.0;
    }
    if q > 0.0 { assert q * c > 0.0; }
    if q < 0.0 { assert (-q) * c > 0.0; }
  }

  /** A fraction in [-1, 1] of `c > 0` lies in [-c, c]. */
  lemma Scaled(u: real, c: real)
    requires c > 0.0
    ensures -1.0 <= u <= 1.0 ==> -c <= u * c <= c
  {
    if -1.0 <= u <= 1.0 {
      assert c - u * c == (1.0 - u) * c;
      assert u * c + c == (u + 1.0) * c;
      assert (1.0 - u) * c >= 0.0;
      assert (u + 1.0) * c >= 0.0;
    }
  }

  /** `handleTilt`: the pointer's offset from the card's centre, as a fraction of the half
      size, times -10 about x and times 10 about y. Inside the card both angles lie in
      [-10, 10]; the centre gives no tilt; right of centre tilts positively about y and
      below centre negatively about x; the edges give the full 10 degrees. */
  function TiltAngles(r: Rect, clientX: real, clientY: real): (a: (real, real))
    requires Positive(r)
    ensures Inside(r, clientX, clientY) ==> -MaxTilt <= a.0 <= MaxTilt && -MaxTilt <= a.1 <= MaxTilt
    ensures a.1 > 0.0 <==> clientX > r.left + r.width / 2.0
    ensures a.1 < 0.0 <==> clientX < r.left + r.width / 2.0
    ensures a.0 < 0.0 <==> clientY > r.top + r.height / 2.0
    ensures a.0 > 0.0 <==> clientY < r.top + r.height / 2.0
    ensures clientX == r.left ==> a.1 == -MaxTilt
    ensures clientX == r.left + r.width ==> a.1 == MaxTilt
    ensures clientY == r.top ==> a.0 == MaxTilt
    ensures clientY == r.top + r.height ==> a.0 == -MaxTilt
  {
    var x := clientX - r.left;
    var y := clientY - r.top;
    var centerX := r.width / 2.0;
    var centerY := r.height / 2.0;
    Quotient(x - centerX, centerX);
    Quotient(y - centerY, centerY);
    ((y - centerY) / centerY * -10.0, (x - centerX) / centerX * 10.0)
  }

  /** The pointer position a pair of angles comes from: the inverse of `TiltAngles`. */
  function PointerFor(r: Rect, a: (real, real)): (p: (real, real))
    requires Positive(r)
    ensures -MaxTilt <= a.0 <= MaxTilt && -MaxTilt <= a.1 <= MaxTilt ==> Inside(r, p.0, p.1)
  {
    var cx, cy := r.width / 2.0, r.height / 2.0;
    var u, v := a.1 / 10.0, -a.0 / 10.0;
    Scaled(u, cx);
    Scaled(v, cy);
    (r.left + cx + u * cx, r.top + cy + v * cy)
  }

  /** Each pointer position gives its own angles: `TiltAngles` and `PointerFor` are
      inverse to each other in both orders. */
  lemma TiltRoundTrip(r: Rect, clientX: real, clientY: real)
    requires Positive(r)
    ensures PointerFor(r, TiltAngles(r, clientX, clientY)) == (clientX, clientY)
  {
    var a := TiltAngles(r, clientX, clientY);
    var cx := r.width / 2.0;
    var cy := r.height / 2.0;
    var qx := (clientX - r.left - cx) / cx;
    var qy := (clientY - r.top - cy) / cy;
    assert qx * cx == clientX - r.left - cx;
    assert qy * cy == clientY - r.top - cy;
    assert a.1 / 10.0 == qx;
    assert a.0 / 10.0 == -qy;
    var p := PointerFor(r, a);
    assert p.0 == clientX;
    assert p.1 == clientY;
  }

  lemma AnglesRoundTrip(r: Rect, a: (real, real))
    requires Positive(r)
    ensures TiltAngles(r, PointerFor(r, a).0, PointerFor(r, a).1) == a
  {
    var p := PointerFor(r, a);
    var cx := r.width / 2.0;
    var cy := r.height / 2.0;
    var u := a.1 / 10.0;
    var v := -a.0 / 10.0;
    assert p.0 - r.left - cx == u * cx;
    assert p.1 - r.top - cy == v * cy;
    assert (u * cx) / cx == u;
    assert (v * cy) / cy == v;
    var b := TiltAngles(r, p.0, p.1);
    assert b.0 == a.0;
    assert b.1 == a.1;
  }

  /** A rendered card: whether its mousemove and mouseleave handlers are attached, and its
      current inline transform. */
  datatype Card = Card(tiltable: bool, transform: Transform)

  /** `renderServices`: the cards start untransformed and get the tilt handlers unless
      the user agent names a mobile platform. This is the card of a page that has the
      services grid; without the grid the function returns before rendering any card. */
  function Render(userAgent: string): (c: Card)
    ensures c.transform == NoTransform
    ensures c.tiltable <==> !Capability.IsMobileDevice(userAgent)
  {
    Card(!Capability.IsMobileDevice(userAgent), NoTransform)
  }

  datatype CardEvent = Move(rect: Rect, clientX: real, clientY: real) | Leave

  predicate WellSized(e: CardEvent)
  {
    e.Move? ==> Positive(e.rect)
  }

  /** The card's reaction to one event: only a tiltable card reacts; a move tilts it by
      the angles of the pointer, leaving (`resetTilt`) clears the transform. */
  function OnEvent(c: Card, e: CardEvent): (r: Card)
    requires WellSized(e)
    ensures r.tiltable == c.tiltable
    ensures !c.tiltable ==> r == c
    ensures c.tiltable && e.Leave? ==> r.transform == NoTransform
    ensures c.tiltable && e.Move? ==>
      r.transform == Tilted(TiltAngles(e.rect, e.clientX, e.clientY).0, TiltAngles(e.rect, e.clientX, e.clientY).1)
  {
    if !c.tiltable then c
    else match e
      case Move(rect, x, y) =>
        var a := TiltAngles(rect, x, y);
        c.(transform := Tilted(a.0, a.1))
      case Leave => c.(transform := NoTransform)
  }

  function OnEvents(c: Card, es: seq<CardEvent>): (r: Card)
    requires forall i :: 0 <= i < |es| ==> WellSized(es[i])
    ensures r.tiltable == c.tiltable
    decreases |es|
  {
    if |es| == 0 then c else OnEvents(OnEvent(c, es[0]), es[1..])
  }

  /** On desktop a pointer inside a card never tilts it by more than 10 degrees about
      either axis. */
  lemma DesktopTiltBounded(c: Card, rect: Rect, x: real, y: real)
    requires c.tiltable && Positive(rect) && Inside(rect, x, y)
    ensures var r := OnEvent(c, Move(rect, x, y));
      && -MaxTilt <= r.transform.rotateX <= MaxTilt
      && -MaxTilt <= r.transform.rotateY <= MaxTilt
  {}

  /** On a mobile user agent no pointer activity ever tilts a card. */
  lemma {:induction false} MobileCardsStayFlat(userAgent: string, es: seq<CardEvent>)
    requires Capability.IsMobileDevice(userAgent)
    requires forall i :: 0 <= i < |es| ==> WellSized(es[i])
    ensures OnEvents(Render(userAgent), es) == Render(userAgent)
    decreases |es|
  {
    if |es| > 0 {
      MobileCardsStayFlat(userAgent, es[1..]);
    }
  }

  /** On desktop, whatever the pointer did over a card, leaving it puts the card back flat. */
  lemma {:induction false} LeavingFlattens(c: Card, es: seq<CardEvent>)
    requires c.tiltable
    requires forall i :: 0 <= i < |es| ==> WellSized(es[i])
    ensures OnEvents(c, es + [Leave]).transform == NoTransform
    decreases |es|
  {
    if |es| == 0 {
      assert es + [Leave] == [Leave];
    } else {
      assert (es + [Leave])[1..] == es[1..] + [Leave];
      LeavingFlattens(OnEvent(c, es[0]), es[1..]);
    }
  }
}
