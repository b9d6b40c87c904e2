/** The background behind an element (layout_measure/paint.ts, layout_measure/color.ts), over the reals. */
module Paint {
  import opened Prelude

  datatype Rgba = Rgba(r: real, g: real, b: real, a: real)

  /** Parsing clamps alpha to 0..1; it does not clamp the channels. */
  type Color = c: Rgba | 0.0 <= c.a <= 1.0 witness Rgba(0.0, 0.0, 0.0, 0.0)

  const WHITE: Color := Rgba(255.0, 255.0, 255.0, 1.0)
  const CLEAR: Color := Rgba(0.0, 0.0, 0.0, 0.0)

  /** One element's paint: its `background-image`, and its parsed `background-color` (None when it cannot be read). */
  datatype Layer = Layer(image: string, raw: string, parsed: Option<Color>)

  predicate HasImage(l: Layer) { l.image != "" && l.image != "none" }

  function ColorOf(l: Layer): Option<Color> { if l.raw == "" then Some(CLEAR) else l.parsed }

  function Mix(t: real, b: real, top: Color, bottom: Color, a: real): real
    requires a != 0.0
  {
    (t * top.a + b * bottom.a * (1.0 - top.a)) / a
  }

  lemma Product(x: real, y: real)
    requires x >= 0.0 && y >= 0.0
    ensures x * y >= 0.0
  {}

  lemma AlphaStays(x: real, y: real)
    requires 0.0 <= x <= 1.0 && 0.0 <= y <= 1.0
    ensures 0.0 <= x + y * (1.0 - x) <= 1.0
  {
    Product(y, 1.0 - x);
    Product(1.0 - y, 1.0 - x);
    assert (1.0 - y) * (1.0 - x) == 1.0 - (x + y * (1.0 - x));
  }

  /** `blendOver` */
  function BlendOver(top: Color, bottom: Color): Color {
    AlphaStays(top.a, bottom.a);
    var a := top.a + bottom.a * (1.0 - top.a);
    if a == 0.0 then CLEAR
    else Rgba(Mix(top.r, bottom.r, top, bottom, a), Mix(top.g, bottom.g, top, bottom, a),
      Mix(top.b, bottom.b, top, bottom, a), a)
  }

  /** The colors from an element outwards, up to the first opaque one; nothing when a layer cannot be read. */
  function Layers(ls: seq<Layer>, acc: seq<Color>): Option<seq<Color>>
    decreases |ls|
  {
    if ls == [] then Some(acc)
    else if HasImage(ls[0]) then None
    else
      match ColorOf(ls[0])
      case None => None
      case Some(c) =>
        var next := if c.a > 0.0 then acc + [c] else acc;
        if c.a >= 1.0 then Some(next) else Layers(ls[1..], next)
  }

  function Reversed(s: seq<Color>): seq<Color> { if s == [] then [] else Reversed(s[1..]) + [s[0]] }

  function Reduce(under: Color, tops: seq<Color>): Color
    decreases |tops|
  {
    if tops == [] then under else Reduce(BlendOver(tops[0], under), tops[1..])
  }

  /** `effectiveBackground`, given the layers from the element to the outermost ancestor. */
  function EffectiveBackground(ls: seq<Layer>): Option<Color> {
    match Layers(ls, [])
    case None => None
    case Some(stack) => Some(Reduce(WHITE, Reversed(stack)))
  }

  // ---------------------------------------------------------------- the meaning

  predicate Readable(l: Layer) { !HasImage(l) && ColorOf(l).Some? }

  ghost predicate AllReadable(ls: seq<Layer>) { forall i :: 0 <= i < |ls| ==> Readable(ls[i]) }

  /** Source-over compositing of every layer, the last one directly over the white canvas. */
  ghost function FullComposite(ls: seq<Layer>): Color
    requires AllReadable(ls)
    decreases |ls|
  {
    if ls == [] then WHITE
    else
      assert Readable(ls[0]);
      assert AllReadable(ls[1..]) by {
        assert forall i :: 0 <= i < |ls[1..]| ==> ls[1..][i] == ls[i + 1];
      }
      BlendOver(ColorOf(ls[0]).value, FullComposite(ls[1..]))
  }

  /** How many layers matter: those up to and including the first that cannot be read or is opaque. */
  function Stop(ls: seq<Layer>): (n: nat)
    ensures n <= |ls|
  {
    if ls == [] then 0
    else if !Readable(ls[0]) || ColorOf(ls[0]).value.a >= 1.0 then 1
    else 1 + Stop(ls[1..])
  }

  // ---------------------------------------------------------------- compositing

  lemma OpaqueHides(top: Color, bottom: Color)
    requires top.a == 1.0
    ensures BlendOver(top, bottom) == top
  {}

  lemma ClearShows(top: Color, bottom: Color)
    requires top.a == 0.0 && bottom.a == 1.0
    ensures BlendOver(top, bottom) == bottom
  {}

  lemma Between(x: real, y: real, t: real, lo: real, hi: real)
    requires lo <= x <= hi && lo <= y <= hi && 0.0 <= t <= 1.0
    ensures lo <= x * t + y * (1.0 - t) <= hi
  {
    Product(x - lo, t);
    Product(y - lo, 1.0 - t);
    Product(hi - x, t);
    Product(hi - y, 1.0 - t);
    assert (x - lo) * t + (y - lo) * (1.0 - t) == x * t + y * (1.0 - t) - lo;
    assert (hi - x) * t + (hi - y) * (1.0 - t) == hi - (x * t + y * (1.0 - t));
  }

  predicate Within(c: Color, lo: real, hi: real) { lo <= c.r <= hi && lo <= c.g <= hi && lo <= c.b <= hi }

  /** Over something opaque the result is opaque, with every channel between the two. */
  lemma OverOpaque(top: Color, bottom: Color, lo: real, hi: real)
    requires bottom.a == 1.0 && Within(top, lo, hi) && Within(bottom, lo, hi)
    ensures BlendOver(top, bottom).a == 1.0 && Within(BlendOver(top, bottom), lo, hi)
  {
    Between(top.r, bottom.r, top.a, lo, hi);
    Between(top.g, bottom.g, top.a, lo, hi);
    Between(top.b, bottom.b, top.a, lo, hi);
  }

  lemma {:induction false} ReduceSnoc(under: Color, tops: seq<Color>, c: Color)
    ensures Reduce(under, tops + [c]) == BlendOver(c, Reduce(under, tops))
    decreases |tops|
  {
    if tops == [] {
      assert tops + [c] == [c];
      assert [c][1..] == [];
    } else {
      assert (tops + [c])[1..] == tops[1..] + [c];
      ReduceSnoc(BlendOver(tops[0], under), tops[1..], c);
    }
  }

  /** The layers gathered so far only come first. */
  lemma {:induction false} LayersAcc(ls: seq<Layer>, acc: seq<Color>)
    ensures Layers(ls, acc) == match Layers(ls, []) case None => None case Some(stack) => Some(acc + stack)
    decreases |ls|
  {
    if ls == [] {
      assert acc + [] == acc;
    } else if Readable(ls[0]) {
      var c := ColorOf(ls[0]).value;
      var one: seq<Color> := if c.a > 0.0 then [c] else [];
      assert acc + one == if c.a > 0.0 then acc + [c] else acc;
      assert [] + one == one;
      LayersAcc(ls[1..], acc + one);
      LayersAcc(ls[1..], one);
      match Layers(ls[1..], [])
      case None =>
      case Some(rest) => assert acc + one + rest == acc + (one + rest);
    }
  }

  /** One layer further out. */
  lemma BackgroundStep(ls: seq<Layer>)
    requires ls != [] && Readable(ls[0])
    ensures
      var c := ColorOf(ls[0]).value;
      var outer := EffectiveBackground(ls[1..]);
      EffectiveBackground(ls) ==
        if c.a >= 1.0 then Some(BlendOver(c, WHITE))
        else if outer.None? then None
        else if c.a > 0.0 then Some(BlendOver(c, outer.value)) else outer
  {
    var c := ColorOf(ls[0]).value;
    var one: seq<Color> := if c.a > 0.0 then [c] else [];
    assert [] + one == one;
    LayersAcc(ls[1..], one);
    if c.a >= 1.0 {
      assert [c][1..] == [];
      assert Reversed([c]) == [c];
      assert Reduce(BlendOver(c, WHITE), [c][1..]) == BlendOver(c, WHITE);
      assert Layers(ls, []) == Some([c]);
    } else {
      match Layers(ls[1..], [])
      case None =>
      case Some(rest) =>
        if c.a > 0.0 {
          assert ([c] + rest)[1..] == rest;
          ReduceSnoc(WHITE, Reversed(rest), c);
        } else {
          assert [] + rest == rest;
        }
    }
  }

  /** The answer is opaque, and within any range that holds white and every color read. */
  lemma {:induction false} BackgroundIsOpaque(ls: seq<Layer>, lo: real, hi: real)
    requires lo <= 255.0 <= hi
    requires forall i :: 0 <= i < |ls| && Readable(ls[i]) ==> Within(ColorOf(ls[i]).value, lo, hi)
    ensures EffectiveBackground(ls).Some?
      ==> EffectiveBackground(ls).value.a == 1.0 && Within(EffectiveBackground(ls).value, lo, hi)
    decreases |ls|
  {
    if ls != [] && Readable(ls[0]) {
      var c := ColorOf(ls[0]).value;
      BackgroundIsOpaque(ls[1..], lo, hi);
      BackgroundStep(ls);
      OverOpaque(c, WHITE, lo, hi);
      var outer := EffectiveBackground(ls[1..]);
      if outer.Some? {
        OverOpaque(c, outer.value, lo, hi);
      }
    }
  }

  /** An image, or a color that is there and cannot be parsed. */
  predicate Unreadable(l: Layer) { (l.image != "" && l.image != "none") || (l.raw != "" && l.parsed.None?) }

  predicate Opaque(l: Layer) { l.raw != "" && l.parsed.Some? && l.parsed.value.a >= 1.0 }

  /** A layer that cannot be read, with nothing opaque or unreadable before it. */
  predicate Blocks(ls: seq<Layer>, i: nat) {
    i < |ls| && Unreadable(ls[i]) && forall j :: 0 <= j < i ==> !Unreadable(ls[j]) && !Opaque(ls[j])
  }

  lemma BlocksFurtherOut(ls: seq<Layer>, i: nat)
    requires ls != [] && !Unreadable(ls[0])
    ensures Blocks(ls, i) <==> i > 0 && !Opaque(ls[0]) && Blocks(ls[1..], i - 1)
  {
    if i > 0 {
      var rest := ls[1..];
      assert i < |ls| ==> rest[i - 1] == ls[i];
      assert forall j :: 0 < j < |ls| ==> rest[j - 1] == ls[j];
      assert forall j :: 0 <= j < |rest| ==> ls[j + 1] == rest[j];
    }
  }

  /** No answer exactly when some layer cannot be read and no layer before it is opaque. */
  lemma {:induction false} NoBackgroundIff(ls: seq<Layer>)
    ensures EffectiveBackground(ls).None? <==> exists i :: Blocks(ls, i)
    decreases |ls|
  {
    if ls != [] && Readable(ls[0]) {
      NoBackgroundIff(ls[1..]);
      BackgroundStep(ls);
      if i: nat :| Blocks(ls, i) {
        BlocksFurtherOut(ls, i);
      }
      if i: nat :| Blocks(ls[1..], i) {
        BlocksFurtherOut(ls, i + 1);
      }
    } else if ls != [] {
      assert Blocks(ls, 0) && EffectiveBackground(ls).None?;
    }
  }

  /** When every layer is readable, stopping early and skipping what is transparent changes nothing. */
  lemma {:induction false} EarlyStopIsFull(ls: seq<Layer>)
    requires AllReadable(ls)
    ensures EffectiveBackground(ls) == Some(FullComposite(ls)) && FullComposite(ls).a == 1.0
    decreases |ls|
  {
    if ls != [] {
      assert Readable(ls[0]);
      assert forall i :: 0 <= i < |ls[1..]| ==> ls[1..][i] == ls[i + 1];
      EarlyStopIsFull(ls[1..]);
      BackgroundStep(ls);
      var c := ColorOf(ls[0]).value;
      var outer := FullComposite(ls[1..]);
      if c.a >= 1.0 {
        OpaqueHides(c, outer);
        OpaqueHides(c, WHITE);
      } else if c.a == 0.0 {
        ClearShows(c, outer);
      }
    }
  }

  /** Whenever there is an answer, it is the full composite of the layers up to the first opaque one. */
  lemma {:induction false} AnswerIsComposite(ls: seq<Layer>)
    requires EffectiveBackground(ls).Some?
    ensures AllReadable(ls[..Stop(ls)]) && EffectiveBackground(ls) == Some(FullComposite(ls[..Stop(ls)]))
    decreases |ls|
  {
    if ls == [] {
      EarlyStopIsFull(ls);
      assert ls[..0] == ls;
    } else {
      assert Readable(ls[0]);
      BackgroundStep(ls);
      var c := ColorOf(ls[0]).value;
      var front := ls[..Stop(ls)];
      if c.a >= 1.0 {
        assert front == [ls[0]];
        EarlyStopIsFull(front);
        BackgroundStep(front);
      } else {
        AnswerIsComposite(ls[1..]);
        assert front[1..] == ls[1..][..Stop(ls[1..])];
        assert forall i :: 0 < i < |front| ==> front[i] == front[1..][i - 1];
        EarlyStopIsFull(front[1..]);
        if c.a == 0.0 {
          ClearShows(c, FullComposite(front[1..]));
        }
      }
    }
  }

  // ---------------------------------------------------------------- light

  datatype Channel = Red | Green | Blue

  function Part(c: Color, ch: Channel): real {
    match ch
    case Red => c.r
    case Green => c.g
    case Blue => c.b
  }

  /** How much light a color gives off itself. */
  function Given(c: Color, ch: Channel): real { Part(c, ch) * c.a }

  lemma Premultiplied(t: real, b: real, top: Color, bottom: Color, a: real)
    requires a == top.a + bottom.a * (1.0 - top.a) && a != 0.0
    ensures Mix(t, b, top, bottom, a) * a == t * top.a + b * bottom.a * (1.0 - top.a)
  {}

  lemma NoAlphaAtAll(x: real, y: real)
    requires 0.0 <= x <= 1.0 && 0.0 <= y <= 1.0 && x + y * (1.0 - x) == 0.0
    ensures x == 0.0 && y == 0.0
  {
    Product(y, 1.0 - x);
  }

  /** A blend lets through what both let through, and gives off what both give off as far as the top lets it through. */
  lemma BlendLaw(top: Color, bottom: Color, ch: Channel)
    ensures
      var c := BlendOver(top, bottom);
      && 1.0 - c.a == (1.0 - top.a) * (1.0 - bottom.a)
      && Given(c, ch) == Given(top, ch) + Given(bottom, ch) * (1.0 - top.a)
  {
    var a := top.a + bottom.a * (1.0 - top.a);
    AlphaStays(top.a, bottom.a);
    if a == 0.0 {
      NoAlphaAtAll(top.a, bottom.a);
    } else {
      Premultiplied(Part(top, ch), Part(bottom, ch), top, bottom, a);
    }
  }

  lemma Cancel(a: real, b: real, x: real, y: real)
    requires a == b != 0.0 && x * a == y * b
    ensures x == y
  {}

  lemma SameLight(c: Color, d: Color)
    requires c.a == d.a != 0.0 && forall ch :: Given(c, ch) == Given(d, ch)
    ensures c == d
  {
    forall ch ensures Part(c, ch) == Part(d, ch) {
      assert Given(c, ch) == Given(d, ch);
      Cancel(c.a, d.a, Part(c, ch), Part(d, ch));
    }
    assert Part(c, Red) == Part(d, Red) && Part(c, Green) == Part(d, Green) && Part(c, Blue) == Part(d, Blue);
  }

  lemma AlphasRegroup(a: real, b: real, c: real, ab: real, bc: real)
    requires 1.0 - ab == (1.0 - a) * (1.0 - b) && 1.0 - bc == (1.0 - b) * (1.0 - c)
    ensures (1.0 - a) * (1.0 - bc) == (1.0 - ab) * (1.0 - c)
  {
    assert (1.0 - a) * ((1.0 - b) * (1.0 - c)) == ((1.0 - a) * (1.0 - b)) * (1.0 - c);
  }

  lemma LightRegroups(x: real, y: real, z: real, xy: real, yz: real, a: real, b: real, ab: real)
    requires 1.0 - ab == (1.0 - a) * (1.0 - b)
    requires xy == x + y * (1.0 - a) && yz == y + z * (1.0 - b)
    ensures x + yz * (1.0 - a) == xy + z * (1.0 - ab)
  {
    assert yz * (1.0 - a) == y * (1.0 - a) + z * (1.0 - b) * (1.0 - a);
    assert z * (1.0 - ab) == z * ((1.0 - a) * (1.0 - b)) == z * (1.0 - b) * (1.0 - a);
  }

  /** What the law says of a blend. */
  ghost predicate Blended(c: Color, top: Color, bottom: Color, ch: Channel) {
    && 1.0 - c.a == (1.0 - top.a) * (1.0 - bottom.a)
    && Given(c, ch) == Given(top, ch) + Given(bottom, ch) * (1.0 - top.a)
  }

  lemma SameEitherWay(x: Color, y: Color, z: Color, xy: Color, yz: Color, l: Color, r: Color, ch: Channel)
    requires Blended(xy, x, y, ch) && Blended(yz, y, z, ch) && Blended(l, x, yz, ch) && Blended(r, xy, z, ch)
    ensures l.a == r.a && Given(l, ch) == Given(r, ch)
  {
    AlphasRegroup(x.a, y.a, z.a, xy.a, yz.a);
    LightRegroups(Given(x, ch), Given(y, ch), Given(z, ch), Given(xy, ch), Given(yz, ch), x.a, y.a, xy.a);
  }

  lemma BothGroupings(x: Color, y: Color, z: Color, ch: Channel)
    ensures
      var l, r := BlendOver(x, BlendOver(y, z)), BlendOver(BlendOver(x, y), z);
      l.a == r.a && Given(l, ch) == Given(r, ch)
  {
    var yz, xy := BlendOver(y, z), BlendOver(x, y);
    BlendLaw(y, z, ch);
    BlendLaw(x, y, ch);
    BlendLaw(x, yz, ch);
    BlendLaw(xy, z, ch);
    SameEitherWay(x, y, z, xy, yz, BlendOver(x, yz), BlendOver(xy, z), ch);
  }

  lemma ClearBlend(top: Color, bottom: Color)
    ensures BlendOver(top, bottom).a == 0.0 ==> BlendOver(top, bottom) == CLEAR
  {}

  lemma SameColor(l: Color, r: Color)
    requires l.a == r.a && forall ch :: Given(l, ch) == Given(r, ch)
    requires (l.a == 0.0 ==> l == CLEAR) && (r.a == 0.0 ==> r == CLEAR)
    ensures l == r
  {
    if l.a != 0.0 {
      SameLight(l, r);
    }
  }

  /** Blending is associative: layers may be merged in any grouping. */
  lemma BlendAssociative(x: Color, y: Color, z: Color)
    ensures BlendOver(x, BlendOver(y, z)) == BlendOver(BlendOver(x, y), z)
  {
    var l, r := BlendOver(x, BlendOver(y, z)), BlendOver(BlendOver(x, y), z);
    BothGroupings(x, y, z, Red);
    forall ch ensures Given(l, ch) == Given(r, ch) {
      BothGroupings(x, y, z, ch);
    }
    ClearBlend(x, BlendOver(y, z));
    ClearBlend(BlendOver(x, y), z);
    SameColor(l, r);
  }

  /** The light of one channel that reaches the eye, layer by layer, from white behind everything. */
  function Light(ls: seq<Layer>, ch: Channel): real {
    if ls == [] then 255.0
    else if ls[0].raw == "" || ls[0].parsed.None? then Light(ls[1..], ch)
    else
      var c := ls[0].parsed.value;
      if c.a >= 1.0 then Part(c, ch) else c.a * Part(c, ch) + (1.0 - c.a) * Light(ls[1..], ch)
  }

  lemma OverOpaqueLight(top: Color, bottom: Color, ch: Channel)
    requires bottom.a == 1.0
    ensures BlendOver(top, bottom).a == 1.0
    ensures Part(BlendOver(top, bottom), ch) == top.a * Part(top, ch) + (1.0 - top.a) * Part(bottom, ch)
  {
    var a := top.a + bottom.a * (1.0 - top.a);
    assert a == 1.0;
    Premultiplied(Part(top, ch), Part(bottom, ch), top, bottom, a);
  }

  lemma OneLayer(c: Color, outer: Color, light: real, ch: Channel)
    requires c.a < 1.0 && outer.a == 1.0 && Part(outer, ch) == light
    ensures
      var seen := if c.a > 0.0 then BlendOver(c, outer) else outer;
      seen.a == 1.0 && Part(seen, ch) == c.a * Part(c, ch) + (1.0 - c.a) * light
  {
    if c.a > 0.0 {
      OverOpaqueLight(c, outer, ch);
    } else {
      assert c.a == 0.0;
      assert 0.0 * Part(c, ch) == 0.0;
    }
  }

  lemma NextLight(ls: seq<Layer>, ch: Channel)
    requires ls != [] && Readable(ls[0])
    ensures
      var c := ColorOf(ls[0]).value;
      Light(ls, ch) == if c.a >= 1.0 then Part(c, ch) else c.a * Part(c, ch) + (1.0 - c.a) * Light(ls[1..], ch)
  {}

  lemma AnswerStep(c: Color, answer: Color, outer: Option<Color>, light: real, ch: Channel)
    requires c.a < 1.0 ==> outer.Some? && outer.value.a == 1.0 && Part(outer.value, ch) == light
    requires answer == if c.a >= 1.0 then BlendOver(c, WHITE)
                       else if c.a > 0.0 then BlendOver(c, outer.value) else outer.value
    ensures answer.a == 1.0
    ensures Part(answer, ch) == if c.a >= 1.0 then Part(c, ch) else c.a * Part(c, ch) + (1.0 - c.a) * light
  {
    if c.a >= 1.0 {
      OpaqueHides(c, WHITE);
    } else {
      OneLayer(c, outer.value, light, ch);
    }
  }

  /** The answer is opaque and this channel of it is what `Light` says. */
  predicate Lit(answer: Option<Color>, light: real, ch: Channel) {
    answer.Some? && answer.value.a == 1.0 && Part(answer.value, ch) == light
  }

  lemma LitStep(ls: seq<Layer>, ch: Channel)
    requires ls != [] && EffectiveBackground(ls).Some?
    requires EffectiveBackground(ls[1..]).Some? ==> Lit(EffectiveBackground(ls[1..]), Light(ls[1..], ch), ch)
    ensures Lit(EffectiveBackground(ls), Light(ls, ch), ch)
  {
    assert Readable(ls[0]);
    BackgroundStep(ls);
    NextLight(ls, ch);
    var outer := EffectiveBackground(ls[1..]);
    AnswerStep(ColorOf(ls[0]).value, EffectiveBackground(ls).value, outer, Light(ls[1..], ch), ch);
  }

  /** Any answer is opaque, and each channel is the light that reaches the eye. */
  lemma {:induction false} AnswerIsLight(ls: seq<Layer>, ch: Channel)
    requires EffectiveBackground(ls).Some?
    ensures EffectiveBackground(ls).value.a == 1.0 && Part(EffectiveBackground(ls).value, ch) == Light(ls, ch)
    decreases |ls|
  {
    if ls != [] {
      if EffectiveBackground(ls[1..]).Some? {
        AnswerIsLight(ls[1..], ch);
      }
      LitStep(ls, ch);
    }
  }
}
