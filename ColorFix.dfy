/** The colour sanitizer run on the preview before it is rasterised: every
    colour channel of every element below the preview root whose value uses
    the `oklch` colour function is overwritten with a plain RGB colour the
    rasteriser can sample. */
module ColorFix {
  import opened Text

  /** The three style properties the sanitizer looks at. */
  datatype Channel = Color | BackgroundColor | BorderColor

  /** The order in which the sanitizer visits the channels of one element. */
  const Channels: seq<Channel> := [Color, BackgroundColor, BorderColor]

  const Unsupported := "oklch"
  const Fallback := "rgb(0,0,0)"

  /** The three channel values of one element, as a value. */
  datatype Style = Style(color: string, backgroundColor: string, borderColor: string) {
    function Get(c: Channel): string {
      match c
      case Color => color
      case BackgroundColor => backgroundColor
      case BorderColor => borderColor
    }
  }

  /** What the sanitizer makes of one channel value: the value itself or the
      fallback, never a value that still holds `oklch`, and the value itself
      whenever it holds no `oklch`. */
  function SanitizeValue(v: string): (r: string)
    ensures r == v || r == Fallback
    ensures !Contains(r, Unsupported)
    ensures !Contains(v, Unsupported) ==> r == v
  {
    FallbackIsSafe();
    if Contains(v, Unsupported) then Fallback else v
  }

  /** What the sanitizer makes of one element's channels: each channel
      sanitized on its own, so no channel holds `oklch` afterwards. */
  function SanitizeStyle(s: Style): (r: Style)
    ensures forall c :: r.Get(c) == SanitizeValue(s.Get(c))
    ensures forall c :: !Contains(r.Get(c), Unsupported)
  {
    Style(SanitizeValue(s.color), SanitizeValue(s.backgroundColor), SanitizeValue(s.borderColor))
  }

  /** The fallback colour is itself safe. */
  lemma FallbackIsSafe()
    ensures !Contains(Fallback, Unsupported)
  {
    MissingFirstCharNotContained(Fallback, Unsupported);
  }

  /** A channel changes only if it held `oklch`, and then it becomes the
      fallback; no channel holds `oklch` afterwards. */
  lemma SanitizeStyleSpec(s: Style, c: Channel)
    ensures SanitizeStyle(s).Get(c) != s.Get(c) ==> Contains(s.Get(c), Unsupported)
    ensures Contains(s.Get(c), Unsupported) ==> SanitizeStyle(s).Get(c) == Fallback
    ensures !Contains(SanitizeStyle(s).Get(c), Unsupported)
  {
  }

  /** Sanitizing twice is sanitizing once. */
  lemma SanitizeIdempotent(s: Style)
    ensures SanitizeStyle(SanitizeStyle(s)) == SanitizeStyle(s)
  {
  }

  /** An element of the rendered preview with its three colour channels. */
  class Element {
    var color: string
    var backgroundColor: string
    var borderColor: string

    constructor (color: string, backgroundColor: string, borderColor: string)
      ensures CurrentStyle() == Style(color, backgroundColor, borderColor)
    {
      this.color := color;
      this.backgroundColor := backgroundColor;
      this.borderColor := borderColor;
    }

    function CurrentStyle(): Style
      reads this
    {
      Style(color, backgroundColor, borderColor)
    }

    /** `el.style[prop] = v`. */
    method Set(c: Channel, v: string)
      modifies this
      ensures CurrentStyle().Get(c) == v
      ensures forall d :: d != c ==> CurrentStyle().Get(d) == old(CurrentStyle()).Get(d)
    {
      match c
      case Color => color := v;
      case BackgroundColor => backgroundColor := v;
      case BorderColor => borderColor := v;
    }
  }

  /** A preview root together with the elements below it, in document order.
      The list never holds the root itself. */
  datatype Subtree = Subtree(root: Element, descendants: seq<Element>) {
    predicate Valid() {
      root !in descendants
    }

    function Elements(): set<Element> {
      set e | e in descendants
    }
  }

  /** The inner loop of `fixColors`: each of the three channels of one
      element that holds `oklch` is set to the fallback. */
  method FixElement(el: Element)
    modifies el
    ensures el.CurrentStyle() == SanitizeStyle(old(el.CurrentStyle()))
  {
    ghost var before := el.CurrentStyle();
    var k := 0;
    while k < |Channels|
      invariant 0 <= k <= |Channels|
      invariant forall c :: (el.CurrentStyle().Get(c) ==
        if c in Channels[..k] then SanitizeValue(before.Get(c)) else before.Get(c))
    {
      var prop := Channels[k];
      var val := el.CurrentStyle().Get(prop);
      if Contains(val, Unsupported) {
        el.Set(prop, Fallback);
      }
      k := k + 1;
    }
    assert Channels[..k] == [Color, BackgroundColor, BorderColor];
    assert el.CurrentStyle().Get(Color) == SanitizeValue(before.color);
    assert el.CurrentStyle().Get(BackgroundColor) == SanitizeValue(before.backgroundColor);
    assert el.CurrentStyle().Get(BorderColor) == SanitizeValue(before.borderColor);
  }

  /** `fixColors(root)`: sanitizes every channel of every descendant; the root
      and everything else are left as they were. An element listed twice is
      sanitized twice, which changes nothing the second time. */
  method FixColors(tree: Subtree)
    requires tree.Valid()
    modifies tree.Elements()
    ensures forall e :: e in tree.descendants ==> e.CurrentStyle() == SanitizeStyle(old(e.CurrentStyle()))
    ensures tree.root.CurrentStyle() == old(tree.root.CurrentStyle())
  {
    var elements := tree.descendants;
    var i := 0;
    while i < |elements|
      invariant 0 <= i <= |elements|
      invariant forall e :: e in elements ==>
        e.CurrentStyle() == (if e in elements[..i] then SanitizeStyle(old(e.CurrentStyle())) else old(e.CurrentStyle()))
    {
      var el := elements[i];
      SanitizeIdempotent(old(el.CurrentStyle()));
      FixElement(el);
      assert elements[..i + 1] == elements[..i] + [el];
      i := i + 1;
    }
    assert elements[..i] == elements;
  }
}
