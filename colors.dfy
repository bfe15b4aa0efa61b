/**
 * CSSColor (lib/CSSValueList.php): a function value whose arguments are
 * named channels and whose name spells the channel keys (`rgb`, `rgba`,
 * `hsl`, `hsla`). The numeric conversions of CSSColorUtils are not part of
 * this model; they are handed in as a ColorUtils value.
 */
module Colors {
  import opened Wrappers
  import opened Values

  /** One entry of the keyed component array: key => CSSSize. */
  datatype Channel = Channel(key: string, size: Size)

  /** The keyed array accepted by fromRGB and returned by hsl2rgb, hex2rgb, namedColor2rgb. */
  datatype RGBA = RGBA(r: Num, g: Num, b: Num, a: Option<Num>)

  /** The keyed array accepted by fromHSL and returned by rgb2hsl. */
  datatype HSLA = HSLA(h: Num, s: Num, l: Num, a: Option<Num>)

  /** The operations of CSSColorUtils the colour uses. */
  datatype ColorUtils = ColorUtils(
    normalizeRGBValue: Num -> Num,
    constrainAlpha: Num -> Num,
    hsl2rgb: (Num, Num, Num, Num) -> RGBA,
    rgb2hsl: (Num, Num, Num, Num) -> HSLA,
    rgb2hex: (Num, Num, Num) -> string,
    hsl2hex: (Num, Num, Num) -> string,
    hex2rgb: string -> Option<RGBA>,
    namedColor2rgb: string -> Option<RGBA>,
    rgb2NamedColor: (Num, Num, Num) -> Option<string>)

  /**
   * The fatal errors of the PHP code: getSize() called on a channel that is
   * not there, or a non-array handed to fromRGB.
   */
  datatype ColorError = MissingChannel(key: string) | NotAnArray

  /** The fields of a CSSColor: its function name and its keyed components. */
  datatype ColorState = ColorState(name: string, channels: seq<Channel>)

  function Keys(chs: seq<Channel>): (ks: seq<string>)
    ensures |ks| == |chs| && forall i | 0 <= i < |chs| :: ks[i] == chs[i].key
  {
    seq(|chs|, i requires 0 <= i < |chs| => chs[i].key)
  }

  /** implode('', array_keys($aComponents)) */
  function KeyName(chs: seq<Channel>): string
  {
    if chs == [] then "" else chs[0].key + KeyName(chs[1..])
  }

  /** The size stored under `key` ($aComponents[$key]), if any. */
  function Lookup(chs: seq<Channel>, key: string): (r: Option<Size>)
    ensures r.Some? <==> key in Keys(chs)
  {
    if chs == [] then None
    else if chs[0].key == key then Some(chs[0].size)
    else Lookup(chs[1..], key)
  }

  /** unset($aComponents[$key]) */
  function RemoveKey(chs: seq<Channel>, key: string): (r: seq<Channel>)
    ensures key !in Keys(r)
    ensures forall k | k != key :: Lookup(r, k) == Lookup(chs, k)
  {
    if chs == [] then []
    else if chs[0].key == key then RemoveKey(chs[1..], key)
    else [chs[0]] + RemoveKey(chs[1..], key)
  }

  /** new CSSSize($value, $unit, true) */
  function Component(n: Num, unit: Option<string>): Size {
    Size(n, unit, true)
  }

  /** PHP's `!$sName` on a string. */
  predicate Falsy(name: string) {
    name == "" || name == "0"
  }

  /** The colour invariant: the name is the concatenation of the channel keys. */
  predicate NameFollowsKeys(c: ColorState) {
    c.name == KeyName(c.channels)
  }

  /** The three sizes under `k1`, `k2`, `k3`, or the first key that is missing. */
  function Get3(chs: seq<Channel>, k1: string, k2: string, k3: string): (r: Result<(Num, Num, Num), ColorError>)
    ensures r.Ok? <==> k1 in Keys(chs) && k2 in Keys(chs) && k3 in Keys(chs)
    ensures r.Ok? ==> r.value == (Lookup(chs, k1).value.size, Lookup(chs, k2).value.size, Lookup(chs, k3).value.size)
  {
    match (Lookup(chs, k1), Lookup(chs, k2), Lookup(chs, k3))
    case (None, _, _) => Err(MissingChannel(k1))
    case (Some(_), None, _) => Err(MissingChannel(k2))
    case (Some(_), Some(_), None) => Err(MissingChannel(k3))
    case (Some(x), Some(y), Some(z)) => Ok((x.size, y.size, z.size))
  }

  /** The alpha handed to a converter: the stored `a`, or 1. */
  function AlphaOrOne(chs: seq<Channel>): Num {
    match Lookup(chs, "a")
    case Some(a) => a.size
    case None => Int(1)
  }

  // ---------------------------------------------------------------- fromRGB

  /** fromRGB keeps `a` only when it is supplied and its constrained value is not 1. */
  predicate AlphaKept(input: RGBA, u: ColorUtils) {
    input.a.Some? && u.constrainAlpha(input.a.value).Magnitude() != 1.0
  }

  /** The r, g and b components fromRGB stores, normalised. */
  function RGBBase(input: RGBA, u: ColorUtils): (chs: seq<Channel>)
    ensures |chs| == 3
  {
    [Channel("r", Component(u.normalizeRGBValue(input.r), None)),
     Channel("g", Component(u.normalizeRGBValue(input.g), None)),
     Channel("b", Component(u.normalizeRGBValue(input.b), None))]
  }

  /** The state fromRGB leaves behind. */
  function FromRGBState(input: RGBA, u: ColorUtils): ColorState {
    if AlphaKept(input, u) then
      ColorState("rgba", RGBBase(input, u) + [Channel("a", Component(u.constrainAlpha(input.a.value), None))])
    else
      ColorState("rgb", RGBBase(input, u))
  }

  /**
   * fromRGB always stores r, g, b (normalised, in that order) and stores `a`
   * only when alpha is supplied and is not 1 once constrained; the name is
   * `rgba` exactly when `a` is stored, and spells the keys.
   */
  lemma FromRGBStoresChannels(input: RGBA, u: ColorUtils)
    ensures var c := FromRGBState(input, u);
            && Keys(c.channels) == (if AlphaKept(input, u) then ["r", "g", "b", "a"] else ["r", "g", "b"])
            && (c.name == "rgba" <==> Lookup(c.channels, "a").Some?)
            && NameFollowsKeys(c)
            && Lookup(c.channels, "r") == Some(Component(u.normalizeRGBValue(input.r), None))
            && Lookup(c.channels, "g") == Some(Component(u.normalizeRGBValue(input.g), None))
            && Lookup(c.channels, "b") == Some(Component(u.normalizeRGBValue(input.b), None))
            && (AlphaKept(input, u) ==>
                  Lookup(c.channels, "a") == Some(Component(u.constrainAlpha(input.a.value), None)))
  {
    var chs := FromRGBState(input, u).channels;
    assert chs[1..][1..][1..] == chs[3..];
    if AlphaKept(input, u) {
      assert chs[3..][1..] == [];
      assert KeyName(chs[3..]) == "a";
      assert Lookup(chs[3..], "a").Some?;
    } else {
      assert chs[3..] == [];
    }
    assert KeyName(chs[2..]) == "b" + KeyName(chs[3..]);
    assert KeyName(chs[1..]) == "g" + KeyName(chs[2..]);
    assert Lookup(chs, "b") == Lookup(chs[1..], "b") == Lookup(chs[2..], "b");
    if AlphaKept(input, u) {
      assert Lookup(chs, "a") == Lookup(chs[1..], "a") == Lookup(chs[2..], "a") == Lookup(chs[3..], "a");
    }
  }

  /** $aRGB[$sChannel] for the three colour channels. */
  function RGBInput(input: RGBA, key: string): Num
    requires key in ["r", "g", "b"]
  {
    if key == "r" then input.r else if key == "g" then input.g else input.b
  }

  /** fromHSL: convert, then store through fromRGB. */
  function FromHSLState(input: HSLA, u: ColorUtils): ColorState {
    FromRGBState(u.hsl2rgb(input.h, input.s, input.l, input.a.GetOr(Int(1))), u)
  }

  // ------------------------------------------------------------------ toRGB

  /** hsl2rgb's result as the keyed array it is in PHP: r, g, b, then a when present. */
  function RGBPairs(out: RGBA): (pairs: seq<(string, Num)>)
    ensures |pairs| == |RGBChannels(out)|
    ensures forall i | 0 <= i < |pairs| ::
      RGBChannels(out)[i] == Channel(pairs[i].0, Component(pairs[i].1, None))
  {
    [("r", out.r), ("g", out.g), ("b", out.b)] + (if out.a.Some? then [("a", out.a.value)] else [])
  }

  /** The components rebuilt from hsl2rgb's array, in its key order r, g, b, a. */
  function RGBChannels(out: RGBA): seq<Channel> {
    [Channel("r", Component(out.r, None)), Channel("g", Component(out.g, None)),
     Channel("b", Component(out.b, None))]
    + (if out.a.Some? then [Channel("a", Component(out.a.value, None))] else [])
  }

  /** What toRGB does to a colour: the new state, or the fatal error it stops on. */
  function ToRGBState(c: ColorState, u: ColorUtils): Result<ColorState, ColorError> {
    if Falsy(c.name) || c.name == "rgb" then Ok(c)
    else if c.name == "rgba" then
      match Lookup(c.channels, "a")
      case None => Err(MissingChannel("a"))
      case Some(a) =>
        if a.size.Magnitude() >= 1.0 then Ok(ColorState("rgb", RemoveKey(c.channels, "a"))) else Ok(c)
    else
      match Get3(c.channels, "h", "s", "l")
      case Err(e) => Err(e)
      case Ok((h, s, l)) =>
        var out := u.hsl2rgb(h, s, l, AlphaOrOne(c.channels));
        Ok(ColorState(if out.a.Some? then "rgba" else "rgb", RGBChannels(out)))
  }

  // ------------------------------------------------------------------ toHSL

  /** The components built from rgb2hsl's array: s and l carry `%`. */
  function HSLChannels(out: HSLA): seq<Channel> {
    [Channel("h", Component(out.h, None)), Channel("s", Component(out.s, Some("%"))),
     Channel("l", Component(out.l, Some("%")))]
    + (if out.a.Some? then [Channel("a", Component(out.a.value, None))] else [])
  }

  /** What toHSL does to a colour. */
  function ToHSLState(c: ColorState, u: ColorUtils): Result<ColorState, ColorError> {
    if Falsy(c.name) || c.name == "hsl" then Ok(c)
    else if c.name == "hsla" then
      match Lookup(c.channels, "a")
      case None => Err(MissingChannel("a"))
      case Some(a) =>
        if a.size.Magnitude() >= 1.0 then Ok(ColorState("hsl", RemoveKey(c.channels, "a"))) else Ok(c)
    else
      match Get3(c.channels, "r", "g", "b")
      case Err(e) => Err(e)
      case Ok((r, g, b)) =>
        var out := u.rgb2hsl(r, g, b, AlphaOrOne(c.channels));
        Ok(ColorState(if out.a.Some? then "hsla" else "hsl", HSLChannels(out)))
  }

  /** The state after an operation: the new state, or the old one when it stopped on an error. */
  function Settle(r: Result<ColorState, ColorError>, old_: ColorState): ColorState {
    if r.Ok? then r.value else old_
  }

  // ------------------------------------------------------------ getHexValue

  /** The alpha guard of getHexValue: an `a` whose size is not the integer 1 (`!== 1`). */
  predicate AlphaBlocksHex(c: ColorState) {
    Lookup(c.channels, "a").Some? && Lookup(c.channels, "a").value.size != Int(1)
  }

  /**
   * getHexValue: no value when an alpha other than the integer 1 is stored,
   * the hex form of the rgb or hsl channels, and no value for any other name.
   */
  function HexValue(c: ColorState, u: ColorUtils): (r: Result<Option<string>, ColorError>)
    ensures (r.Ok? && r.value.Some?) <==>
            && !AlphaBlocksHex(c)
            && ((c.name == "rgb" && Get3(c.channels, "r", "g", "b").Ok?) ||
                (c.name == "hsl" && Get3(c.channels, "h", "s", "l").Ok?))
    ensures r.Err? ==> !AlphaBlocksHex(c) && (c.name == "rgb" || c.name == "hsl")
  {
    if AlphaBlocksHex(c) then Ok(None)
    else if c.name == "rgb" then
      match Get3(c.channels, "r", "g", "b")
      case Err(e) => Err(e)
      case Ok((r, g, b)) => Ok(Some(u.rgb2hex(r, g, b)))
    else if c.name == "hsl" then
      match Get3(c.channels, "h", "s", "l")
      case Err(e) => Err(e)
      case Ok((h, s, l)) => Ok(Some(u.hsl2hex(h, s, l)))
    else Ok(None)
  }

  /** getNamedColor after its toRGB step: the reverse lookup of the r, g, b sizes. */
  function NamedColorOf(c: ColorState, u: ColorUtils): Result<Option<string>, ColorError> {
    match Get3(c.channels, "r", "g", "b")
    case Err(e) => Err(e)
    case Ok((r, g, b)) => Ok(u.rgb2NamedColor(r, g, b))
  }

  // ------------------------------------------------------------ constructor

  /** What `new CSSColor($mColor)` receives. */
  datatype ColorArg = ArrayArg(entries: map<string, Num>) | StringArg(text: string) | NoColor

  /**
   * The state a new colour starts in. An argument none of the paths accept
   * leaves the name `rgb` and no channel.
   */
  function Constructed(arg: ColorArg, u: ColorUtils): ColorState {
    var blank := ColorState("rgb", []);
    match arg
    case ArrayArg(m) =>
      if "r" in m && "g" in m && "b" in m then
        FromRGBState(RGBA(m["r"], m["g"], m["b"], if "a" in m then Some(m["a"]) else None), u)
      else if "h" in m && "s" in m && "l" in m then
        FromHSLState(HSLA(m["h"], m["s"], m["l"], if "a" in m then Some(m["a"]) else None), u)
      else blank
    case StringArg(s) =>
      if u.namedColor2rgb(s).Some? then FromRGBState(u.namedColor2rgb(s).value, u)
      else if u.hex2rgb(s).Some? then FromRGBState(u.hex2rgb(s).value, u)
      else blank
    case NoColor => blank
  }

  // ----------------------------------------------------------------- lemmas

  lemma {:induction false} KeyNameCoversKey(chs: seq<Channel>, key: string)
    requires key in Keys(chs)
    ensures |KeyName(chs)| >= |key|
  {
    if chs[0].key != key {
      assert Keys(chs) == [chs[0].key] + Keys(chs[1..]);
      KeyNameCoversKey(chs[1..], key);
    }
  }

  lemma {:induction false} EmptyKeyNameAfterRemove(chs: seq<Channel>, key: string)
    requires KeyName(chs) == ""
    ensures KeyName(RemoveKey(chs, key)) == ""
  {
    if chs != [] {
      EmptyKeyNameAfterRemove(chs[1..], key);
    }
  }

  /**
   * When the keys spell `w` followed by `a`, `w` holds no `a`, and one key is
   * `a`, unsetting that key leaves keys that spell `w`.
   */
  lemma {:induction false} RemoveTrailingAlpha(chs: seq<Channel>, w: string)
    requires KeyName(chs) == w + "a"
    requires 'a' !in w
    requires "a" in Keys(chs)
    ensures KeyName(RemoveKey(chs, "a")) == w
  {
    var k0 := chs[0].key;
    var rest := chs[1..];
    assert Keys(chs) == [k0] + Keys(rest);
    if k0 == "a" {
      assert (w + "a")[0] == 'a';
      assert |w| == 0;
      assert KeyName(rest) == "";
      EmptyKeyNameAfterRemove(rest, "a");
    } else {
      KeyNameCoversKey(rest, "a");
      assert |k0| <= |w|;
      assert (w + "a")[..|k0|] == k0;
      assert k0 == w[..|k0|];
      assert KeyName(rest) == w[|k0|..] + "a";
      RemoveTrailingAlpha(rest, w[|k0|..]);
      assert RemoveKey(chs, "a") == [chs[0]] + RemoveKey(rest, "a");
      assert w == k0 + w[|k0|..];
    }
  }

  /** The rebuilt rgb components: keys spell rgb or rgba, `a` exactly when the converter gave one. */
  lemma RGBChannelsFacts(out: RGBA)
    ensures KeyName(RGBChannels(out)) == if out.a.Some? then "rgba" else "rgb"
    ensures Lookup(RGBChannels(out), "a") == if out.a.Some? then Some(Component(out.a.value, None)) else None
  {
    var chs := RGBChannels(out);
    assert chs[1..][1..][1..] == chs[3..];
    if out.a.Some? {
      assert chs[3..][1..] == [];
    } else {
      assert chs[3..] == [];
    }
    assert KeyName(chs[2..]) == "b" + KeyName(chs[3..]);
    assert KeyName(chs[1..]) == "g" + KeyName(chs[2..]);
    assert Lookup(chs, "a") == Lookup(chs[1..], "a") == Lookup(chs[2..], "a") == Lookup(chs[3..], "a");
  }

  /** The rebuilt hsl components: keys spell hsl or hsla, s and l in percent. */
  lemma HSLChannelsFacts(out: HSLA)
    ensures KeyName(HSLChannels(out)) == if out.a.Some? then "hsla" else "hsl"
    ensures Lookup(HSLChannels(out), "a") == if out.a.Some? then Some(Component(out.a.value, None)) else None
    ensures Lookup(HSLChannels(out), "s") == Some(Component(out.s, Some("%")))
    ensures Lookup(HSLChannels(out), "l") == Some(Component(out.l, Some("%")))
  {
    var chs := HSLChannels(out);
    assert chs[1..][1..][1..] == chs[3..];
    if out.a.Some? {
      assert chs[3..][1..] == [];
    } else {
      assert chs[3..] == [];
    }
    assert KeyName(chs[2..]) == "l" + KeyName(chs[3..]);
    assert KeyName(chs[1..]) == "s" + KeyName(chs[2..]);
    assert Lookup(chs, "a") == Lookup(chs[1..], "a") == Lookup(chs[2..], "a") == Lookup(chs[3..], "a");
    assert Lookup(chs, "l") == Lookup(chs[1..], "l") == Lookup(chs[2..], "l");
  }

  /** toRGB keeps the colour invariant: the name still spells the channel keys. */
  lemma ToRGBKeepsNameFollowsKeys(c: ColorState, u: ColorUtils)
    requires NameFollowsKeys(c)
    requires ToRGBState(c, u).Ok?
    ensures NameFollowsKeys(ToRGBState(c, u).value)
  {
    if !(Falsy(c.name) || c.name == "rgb") {
      if c.name == "rgba" {
        if Lookup(c.channels, "a").value.size.Magnitude() >= 1.0 {
          RemoveTrailingAlpha(c.channels, "rgb");
        }
      } else {
        var hsl := Get3(c.channels, "h", "s", "l").value;
        RGBChannelsFacts(u.hsl2rgb(hsl.0, hsl.1, hsl.2, AlphaOrOne(c.channels)));
      }
    }
  }

  /** toHSL keeps the colour invariant. */
  lemma ToHSLKeepsNameFollowsKeys(c: ColorState, u: ColorUtils)
    requires NameFollowsKeys(c)
    requires ToHSLState(c, u).Ok?
    ensures NameFollowsKeys(ToHSLState(c, u).value)
  {
    if !(Falsy(c.name) || c.name == "hsl") {
      if c.name == "hsla" {
        if Lookup(c.channels, "a").value.size.Magnitude() >= 1.0 {
          RemoveTrailingAlpha(c.channels, "hsl");
        }
      } else {
        var rgb := Get3(c.channels, "r", "g", "b").value;
        HSLChannelsFacts(u.rgb2hsl(rgb.0, rgb.1, rgb.2, AlphaOrOne(c.channels)));
      }
    }
  }

  /**
   * toRGB on the rgb family: a colour without a name or named `rgb` is left
   * alone; an `rgba` colour loses its `a` (and becomes `rgb`) exactly when
   * a >= 1, every other channel staying as it was; without an `a` it stops.
   */
  lemma ToRGBOnRGBFamily(c: ColorState, u: ColorUtils)
    requires Falsy(c.name) || c.name == "rgb" || c.name == "rgba"
    ensures Falsy(c.name) || c.name == "rgb" ==> ToRGBState(c, u) == Ok(c)
    ensures c.name == "rgba" && Lookup(c.channels, "a").None? ==> ToRGBState(c, u).Err?
    ensures c.name == "rgba" && Lookup(c.channels, "a").Some? ==>
              var r := ToRGBState(c, u);
              var dropped := Lookup(c.channels, "a").value.size.Magnitude() >= 1.0;
              && r.Ok?
              && (r.value.name == "rgb" <==> dropped)
              && (Lookup(r.value.channels, "a").None? <==> dropped)
              && (forall k | k != "a" :: Lookup(r.value.channels, k) == Lookup(c.channels, k))
              && (!dropped ==> r.value == c)
  {
  }

  /** hsl2rgb never reports an alpha of 1 or more. */
  ghost predicate HSL2RGBAlphaBelowOne(u: ColorUtils) {
    forall h, s, l, a :: u.hsl2rgb(h, s, l, a).a.Some? ==> u.hsl2rgb(h, s, l, a).a.value.Magnitude() < 1.0
  }

  /** rgb2hsl never reports an alpha of 1 or more. */
  ghost predicate RGB2HSLAlphaBelowOne(u: ColorUtils) {
    forall r, g, b, a :: u.rgb2hsl(r, g, b, a).a.Some? ==> u.rgb2hsl(r, g, b, a).a.value.Magnitude() < 1.0
  }

  /**
   * toRGB twice is toRGB once. The conversion branch does not apply the
   * alpha-drop rule itself, so this needs hsl2rgb to report no alpha >= 1.
   */
  lemma ToRGBIdempotent(c: ColorState, u: ColorUtils)
    requires HSL2RGBAlphaBelowOne(u)
    requires ToRGBState(c, u).Ok?
    ensures ToRGBState(ToRGBState(c, u).value, u) == ToRGBState(c, u)
  {
    if !(Falsy(c.name) || c.name == "rgb" || c.name == "rgba") {
      var hsl := Get3(c.channels, "h", "s", "l").value;
      RGBChannelsFacts(u.hsl2rgb(hsl.0, hsl.1, hsl.2, AlphaOrOne(c.channels)));
    }
  }

  /** toHSL twice is toHSL once, when rgb2hsl reports no alpha >= 1. */
  lemma ToHSLIdempotent(c: ColorState, u: ColorUtils)
    requires RGB2HSLAlphaBelowOne(u)
    requires ToHSLState(c, u).Ok?
    ensures ToHSLState(ToHSLState(c, u).value, u) == ToHSLState(c, u)
  {
    if !(Falsy(c.name) || c.name == "hsl" || c.name == "hsla") {
      var rgb := Get3(c.channels, "r", "g", "b").value;
      HSLChannelsFacts(u.rgb2hsl(rgb.0, rgb.1, rgb.2, AlphaOrOne(c.channels)));
    }
  }

  /**
   * toHSL on the hsl family: a colour without a name or named `hsl` is left
   * alone; an `hsla` colour loses its `a` (and becomes `hsl`) exactly when
   * a >= 1, every other channel staying as it was; without an `a` it stops.
   */
  lemma ToHSLOnHSLFamily(c: ColorState, u: ColorUtils)
    requires Falsy(c.name) || c.name == "hsl" || c.name == "hsla"
    ensures Falsy(c.name) || c.name == "hsl" ==> ToHSLState(c, u) == Ok(c)
    ensures c.name == "hsla" && Lookup(c.channels, "a").None? ==> ToHSLState(c, u).Err?
    ensures c.name == "hsla" && Lookup(c.channels, "a").Some? ==>
              var r := ToHSLState(c, u);
              var dropped := Lookup(c.channels, "a").value.size.Magnitude() >= 1.0;
              && r.Ok?
              && (r.value.name == "hsl" <==> dropped)
              && (Lookup(r.value.channels, "a").None? <==> dropped)
              && (forall k | k != "a" :: Lookup(r.value.channels, k) == Lookup(c.channels, k))
              && (!dropped ==> r.value == c)
  {
  }

  /** On the rgb family toRGB is idempotent with no condition on the converters. */
  lemma ToRGBIdempotentOnRGBFamily(c: ColorState, u: ColorUtils)
    requires c.name == "rgb" || c.name == "rgba"
    requires ToRGBState(c, u).Ok?
    ensures ToRGBState(ToRGBState(c, u).value, u) == ToRGBState(c, u)
  {
  }

  /** On the hsl family toHSL is idempotent with no condition on the converters. */
  lemma ToHSLIdempotentOnHSLFamily(c: ColorState, u: ColorUtils)
    requires c.name == "hsl" || c.name == "hsla"
    requires ToHSLState(c, u).Ok?
    ensures ToHSLState(ToHSLState(c, u).value, u) == ToHSLState(c, u)
  {
  }

  /**
   * Why idempotence needs a condition: when hsl2rgb reports an alpha of
   * exactly 1, the first toRGB stores it under the name `rgba`, and the
   * second drops it, so two calls differ from one.
   */
  lemma ToRGBTwiceDropsOpaqueAlpha(h: Num, s: Num, l: Num, u: ColorUtils)
    requires u.hsl2rgb(h, s, l, Int(1)).a == Some(Int(1))
    ensures var c := ColorState("hsl", [Channel("h", Component(h, None)), Channel("s", Component(s, None)),
                                        Channel("l", Component(l, None))]);
            && ToRGBState(c, u).Ok?
            && ToRGBState(c, u).value.name == "rgba"
            && ToRGBState(ToRGBState(c, u).value, u).Ok?
            && ToRGBState(ToRGBState(c, u).value, u).value.name == "rgb"
  {
    var c := ColorState("hsl", [Channel("h", Component(h, None)), Channel("s", Component(s, None)),
                                Channel("l", Component(l, None))]);
    var chs := c.channels;
    assert chs[1..][1..][1..] == [];
    assert Lookup(chs, "a") == None;
    assert Lookup(chs, "h") == Some(Component(h, None));
    assert Lookup(chs, "s") == Lookup(chs[1..], "s") == Some(Component(s, None));
    assert Lookup(chs, "l") == Lookup(chs[1..], "l") == Lookup(chs[1..][1..], "l") == Some(Component(l, None));
    assert Get3(chs, "h", "s", "l") == Ok((h, s, l));
    var out := u.hsl2rgb(h, s, l, Int(1));
    RGBChannelsFacts(out);
  }

  /** The same for toHSL when rgb2hsl reports an alpha of exactly 1. */
  lemma ToHSLTwiceDropsOpaqueAlpha(r: Num, g: Num, b: Num, u: ColorUtils)
    requires u.rgb2hsl(r, g, b, Int(1)).a == Some(Int(1))
    ensures var c := ColorState("rgb", [Channel("r", Component(r, None)), Channel("g", Component(g, None)),
                                        Channel("b", Component(b, None))]);
            && ToHSLState(c, u).Ok?
            && ToHSLState(c, u).value.name == "hsla"
            && ToHSLState(ToHSLState(c, u).value, u).Ok?
            && ToHSLState(ToHSLState(c, u).value, u).value.name == "hsl"
  {
    var out := u.rgb2hsl(r, g, b, Int(1));
    RGBToHSL(r, g, b, u);
    OpaqueHSLAlphaDropped(out, u);
  }

  /** toHSL on a plain `rgb` colour stores rgb2hsl of its channels, alpha 1 passed in. */
  lemma RGBToHSL(r: Num, g: Num, b: Num, u: ColorUtils)
    ensures var c := ColorState("rgb", [Channel("r", Component(r, None)), Channel("g", Component(g, None)),
                                        Channel("b", Component(b, None))]);
            var out := u.rgb2hsl(r, g, b, Int(1));
            ToHSLState(c, u) == Ok(ColorState(if out.a.Some? then "hsla" else "hsl", HSLChannels(out)))
  {
    var chs := [Channel("r", Component(r, None)), Channel("g", Component(g, None)), Channel("b", Component(b, None))];
    assert chs[1..][1..][1..] == [];
    assert Lookup(chs, "a") == Lookup(chs[1..], "a") == Lookup(chs[1..][1..], "a") == None;
    assert Lookup(chs, "r") == Some(Component(r, None));
    assert Lookup(chs, "g") == Lookup(chs[1..], "g") == Some(Component(g, None));
    assert Lookup(chs, "b") == Lookup(chs[1..], "b") == Lookup(chs[1..][1..], "b") == Some(Component(b, None));
    assert Get3(chs, "r", "g", "b") == Ok((r, g, b));
  }

  lemma OpaqueHSLAlphaDropped(out: HSLA, u: ColorUtils)
    requires out.a == Some(Int(1))
    ensures ToHSLState(ColorState("hsla", HSLChannels(out)), u).Ok?
    ensures ToHSLState(ColorState("hsla", HSLChannels(out)), u).value.name == "hsl"
  {
    HSLChannelsFacts(out);
  }

  /**
   * toHSL from the rgb side: s and l carry the unit `%`, and the name is
   * `hsla` exactly when the converter produced an alpha, which is then stored.
   */
  lemma ToHSLFromRGB(c: ColorState, u: ColorUtils)
    requires !(Falsy(c.name) || c.name == "hsl" || c.name == "hsla")
    requires Get3(c.channels, "r", "g", "b").Ok?
    ensures var r := ToHSLState(c, u);
            var rgb := Get3(c.channels, "r", "g", "b").value;
            var out := u.rgb2hsl(rgb.0, rgb.1, rgb.2, AlphaOrOne(c.channels));
            && r.Ok?
            && Lookup(r.value.channels, "s") == Some(Component(out.s, Some("%")))
            && Lookup(r.value.channels, "l") == Some(Component(out.l, Some("%")))
            && (r.value.name == "hsla" <==> out.a.Some?)
            && (Lookup(r.value.channels, "a").Some? <==> out.a.Some?)
  {
    var rgb := Get3(c.channels, "r", "g", "b").value;
    HSLChannelsFacts(u.rgb2hsl(rgb.0, rgb.1, rgb.2, AlphaOrOne(c.channels)));
  }

  /**
   * A colour just stored by fromRGB has a hex value exactly when fromRGB
   * dropped the alpha, and then it is the hex form of the normalised r, g, b.
   */
  lemma HexAfterFromRGB(input: RGBA, u: ColorUtils)
    ensures HexValue(FromRGBState(input, u), u) ==
            if AlphaKept(input, u) then Ok(None)
            else Ok(Some(u.rgb2hex(u.normalizeRGBValue(input.r), u.normalizeRGBValue(input.g),
                                   u.normalizeRGBValue(input.b))))
  {
    FromRGBStoresChannels(input, u);
    if AlphaKept(input, u) {
      var a := Lookup(FromRGBState(input, u).channels, "a").value;
      assert a.size.Magnitude() != 1.0;
      assert a.size != Int(1);
    }
  }

  /** CSSColor, its name and keyed components updated in place. */
  class Color {
    var name: string
    var channels: seq<Channel>

    function State(): ColorState
      reads this
    {
      ColorState(name, channels)
    }

    constructor (arg: ColorArg, u: ColorUtils)
      ensures State() == Constructed(arg, u)
    {
      name := "rgb";
      channels := [];
      new;
      match arg {
        case ArrayArg(m) =>
          if "r" in m && "g" in m && "b" in m {
            FromRGB(RGBA(m["r"], m["g"], m["b"], if "a" in m then Some(m["a"]) else None), u);
          } else if "h" in m && "s" in m && "l" in m {
            FromHSL(HSLA(m["h"], m["s"], m["l"], if "a" in m then Some(m["a"]) else None), u);
          }
        case StringArg(s) =>
          var named := u.namedColor2rgb(s);
          if named.Some? {
            FromRGB(named.value, u);
          } else {
            var hex := u.hex2rgb(s);
            if hex.Some? {
              FromRGB(hex.value, u);
            }
          }
        case NoColor =>
      }
    }

    /** Replace the components by r, g, b and, unless it is 1 once constrained, a. */
    method FromRGB(input: RGBA, u: ColorUtils)
      modifies this
      ensures State() == FromRGBState(input, u)
    {
      var base := RGBBase(input, u);
      channels := [];
      var sName := "rgb";
      var keys := ["r", "g", "b", "a"];
      var i := 0;
      while i < 4
        invariant 0 <= i <= 4
        invariant i <= 3 ==> channels == base[..i] && sName == "rgb"
        invariant i == 4 ==> ColorState(sName, channels) == FromRGBState(input, u)
      {
        var key := keys[i];
        if key == "a" {
          if input.a.Some? {
            var value := u.constrainAlpha(input.a.value);
            if value.Magnitude() != 1.0 {
              sName := sName + "a";
              channels := channels + [Channel(key, Component(value, None))];
            }
          }
        } else {
          var value := u.normalizeRGBValue(RGBInput(input, key));
          channels := channels + [Channel(key, Component(value, None))];
        }
        i := i + 1;
      }
      name := sName;
    }

    method FromHSL(input: HSLA, u: ColorUtils)
      modifies this
      ensures State() == FromHSLState(input, u)
    {
      var rgb := u.hsl2rgb(input.h, input.s, input.l, input.a.GetOr(Int(1)));
      FromRGB(rgb, u);
    }

    /** fromHex: hex2rgb's answer goes to fromRGB; `false` there is a fatal type error. */
    method FromHex(text: string, u: ColorUtils) returns (error: Option<ColorError>)
      modifies this
      ensures u.hex2rgb(text).Some? ==> error == None && State() == FromRGBState(u.hex2rgb(text).value, u)
      ensures u.hex2rgb(text).None? ==> error == Some(NotAnArray) && State() == old(State())
    {
      var rgb := u.hex2rgb(text);
      if rgb.None? {
        return Some(NotAnArray);
      }
      FromRGB(rgb.value, u);
      return None;
    }

    method FromNamedColor(text: string, u: ColorUtils) returns (error: Option<ColorError>)
      modifies this
      ensures u.namedColor2rgb(text).Some? ==>
                error == None && State() == FromRGBState(u.namedColor2rgb(text).value, u)
      ensures u.namedColor2rgb(text).None? ==> error == Some(NotAnArray) && State() == old(State())
    {
      var rgb := u.namedColor2rgb(text);
      if rgb.None? {
        return Some(NotAnArray);
      }
      FromRGB(rgb.value, u);
      return None;
    }

    /** Take over a keyed component array; the name becomes its keys, concatenated. */
    method SetColor(color: seq<Channel>)
      modifies this
      ensures channels == color
      ensures NameFollowsKeys(State())
    {
      name := KeyName(color);
      channels := color;
    }

    method ToRGB(u: ColorUtils) returns (error: Option<ColorError>)
      modifies this
      ensures State() == Settle(ToRGBState(old(State()), u), old(State()))
      ensures error.None? <==> ToRGBState(old(State()), u).Ok?
      ensures error.Some? ==> error.value == ToRGBState(old(State()), u).error
    {
      var sName := name;
      var comps := channels;
      if Falsy(sName) || sName == "rgb" {
        return None;
      }
      if sName == "rgba" {
        var a := Lookup(comps, "a");
        if a.None? {
          return Some(MissingChannel("a"));
        }
        if a.value.size.Magnitude() >= 1.0 {
          channels := RemoveKey(channels, "a");
          name := "rgb";
        }
        return None;
      }
      var hsl := Get3(comps, "h", "s", "l");
      if hsl.Err? {
        return Some(hsl.error);
      }
      var out := u.hsl2rgb(hsl.value.0, hsl.value.1, hsl.value.2, AlphaOrOne(comps));
      var pairs := RGBPairs(out);
      channels := [];
      var i := 0;
      while i < |pairs|
        invariant 0 <= i <= |pairs|
        invariant channels == RGBChannels(out)[..i]
      {
        var (key, val) := pairs[i];
        channels := channels + [Channel(key, Component(val, None))];
        i := i + 1;
      }
      assert RGBChannels(out)[..i] == RGBChannels(out);
      name := if out.a.Some? then "rgba" else "rgb";
      return None;
    }

    method ToHSL(u: ColorUtils) returns (error: Option<ColorError>)
      modifies this
      ensures State() == Settle(ToHSLState(old(State()), u), old(State()))
      ensures error.None? <==> ToHSLState(old(State()), u).Ok?
      ensures error.Some? ==> error.value == ToHSLState(old(State()), u).error
    {
      var sName := name;
      var comps := channels;
      if Falsy(sName) || sName == "hsl" {
        return None;
      }
      if sName == "hsla" {
        var a := Lookup(comps, "a");
        if a.None? {
          return Some(MissingChannel("a"));
        }
        if a.value.size.Magnitude() >= 1.0 {
          channels := RemoveKey(channels, "a");
          name := "hsl";
        }
        return None;
      }
      var rgb := Get3(comps, "r", "g", "b");
      if rgb.Err? {
        return Some(rgb.error);
      }
      var out := u.rgb2hsl(rgb.value.0, rgb.value.1, rgb.value.2, AlphaOrOne(comps));
      channels := [Channel("h", Component(out.h, None))];
      channels := channels + [Channel("s", Component(out.s, Some("%")))];
      channels := channels + [Channel("l", Component(out.l, Some("%")))];
      var sHSL := "hsl";
      if out.a.Some? {
        channels := channels + [Channel("a", Component(out.a.value, None))];
        sHSL := "hsla";
      }
      name := sHSL;
      return None;
    }

    /** getNamedColor: toRGB in place, then the reverse lookup of r, g, b. */
    method GetNamedColor(u: ColorUtils) returns (named: Result<Option<string>, ColorError>)
      modifies this
      ensures State() == Settle(ToRGBState(old(State()), u), old(State()))
      ensures ToRGBState(old(State()), u).Err? ==> named == Err(ToRGBState(old(State()), u).error)
      ensures ToRGBState(old(State()), u).Ok? ==> named == NamedColorOf(State(), u)
    {
      var error := ToRGB(u);
      if error.Some? {
        return Err(error.value);
      }
      named := NamedColorOf(State(), u);
    }
  }
}
