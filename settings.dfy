/**
 * The configuration class: the screen geometry, the target box, the projection constants and the
 * rule by which a parsed settings file updates the class attributes.
 */
module Settings {
  import opened Wrappers
  import opened PyOps
  import Arith

  datatype Margins = Margins(top: nat, bottom: nat, left: nat, right: nat)

  /** A geographic rectangle in WGS84 degrees. */
  datatype GeoBox = GeoBox(north: real, south: real, east: real, west: real) {
    predicate Ordered() {
      south <= north && west <= east
    }
  }

  /**
   * The attributes of the configuration class that the core reads. `displayWidth` and
   * `displayHeight` are attributes of their own: the class computes them once from the screen
   * size and the margins, and a settings file may overwrite either side independently.
   */
  datatype Config = Config(
    adbPath: string,
    deviceId: Option<string>,
    zoom: int,
    screenWidth: int,
    screenHeight: int,
    bounds: GeoBox,
    margins: Margins,
    displayWidth: int,
    displayHeight: int,
    overlap: real,
    swipeDuration: int,
    minDataPoints: int)

  const ShippedScreenWidth: int := 1080
  const ShippedScreenHeight: int := 2340
  const ShippedMargins: Margins := Margins(200, 150, 50, 50)

  /** The configuration as shipped. */
  const Shipped: Config := Config(
    "/opt/homebrew/bin/adb",
    None,
    14,
    ShippedScreenWidth,
    ShippedScreenHeight,
    GeoBox(29.7, 29.6, 91.2, 91.05),
    ShippedMargins,
    ShippedScreenWidth - ShippedMargins.left - ShippedMargins.right,
    ShippedScreenHeight - ShippedMargins.top - ShippedMargins.bottom,
    0.2,
    500,
    100)

  /** The displayable map area is the screen minus the UI margins, 980 x 1990 pixels as shipped. */
  lemma ShippedDisplayArea()
    ensures Shipped.displayWidth == Shipped.screenWidth - Shipped.margins.left - Shipped.margins.right
    ensures Shipped.displayHeight == Shipped.screenHeight - Shipped.margins.top - Shipped.margins.bottom
    ensures Shipped.displayWidth == 980 && Shipped.displayHeight == 1990
    ensures Shipped.bounds.Ordered() && Shipped.bounds.south < Shipped.bounds.north
  {
  }

  const EarthCircumference: real := 40075016.686
  const MetersPerDegreeLat: real := 111320.0
  /** cos(29.65 degrees), the reference latitude of the projection, as a decimal constant. */
  const CosRefLat: real := 0.8690635528865556

  lemma CosRefLatInUnitInterval()
    ensures 0.0 < CosRefLat < 1.0
  {
  }

  function Pow2Nat(k: nat): (p: nat)
    ensures p >= 1
  {
    if k == 0 then 1 else 2 * Pow2Nat(k - 1)
  }

  /** Python's `2 ** z` for an integer `z`, which is a fraction when `z` is negative. */
  function Pow2(z: int): (p: real)
    ensures p > 0.0
  {
    if z >= 0 then Pow2Nat(z) as real else 1.0 / (Pow2Nat(-z) as real)
  }

  lemma Pow2Succ(z: int)
    ensures Pow2(z + 1) == 2.0 * Pow2(z)
  {
    if z < -1 {
      var q := Pow2Nat(-z - 1) as real;
      assert Pow2Nat(-z) as real == 2.0 * q;
      assert Pow2(z) == 1.0 / (2.0 * q);
      assert Pow2(z + 1) == 1.0 / q;
    }
  }

  /** The zoom level a call uses: the given one, or the configured one when it is `None`. */
  function ZoomOf(cfg: Config, zoom: Option<int>): int {
    zoom.GetOr(cfg.zoom)
  }

  /** Meters per pixel of the tile projection at the reference latitude and the given zoom. */
  function MetersPerPixel(cfg: Config, zoom: Option<int>): (m: real)
    ensures m > 0.0
  {
    EarthCircumference * CosRefLat / (256.0 * Pow2(ZoomOf(cfg, zoom)))
  }

  /** One zoom level more halves the ground distance of a pixel. */
  lemma MetersPerPixelHalves(cfg: Config, z: int)
    ensures 2.0 * MetersPerPixel(cfg, Some(z + 1)) == MetersPerPixel(cfg, Some(z))
  {
    Pow2Succ(z);
    var a := EarthCircumference * CosRefLat;
    var p := Pow2(z);
    assert MetersPerPixel(cfg, Some(z + 1)) == a / (256.0 * (2.0 * p));
    assert MetersPerPixel(cfg, Some(z)) == a / (256.0 * p);
  }

  lemma {:induction false} Pow2Increasing(a: int, b: int)
    requires a < b
    ensures Pow2(a) < Pow2(b)
    decreases b - a
  {
    Pow2Succ(b - 1);
    if a < b - 1 {
      Pow2Increasing(a, b - 1);
    }
  }

  /** A higher zoom level always gives a pixel a smaller ground distance. */
  lemma MetersPerPixelDecreasing(cfg: Config, z1: int, z2: int)
    requires z1 < z2
    ensures MetersPerPixel(cfg, Some(z2)) < MetersPerPixel(cfg, Some(z1))
  {
    Pow2Increasing(z1, z2);
    Arith.DivAntitone(EarthCircumference * CosRefLat, 256.0 * Pow2(z1), 256.0 * Pow2(z2));
  }

  /**
   * A `None` zoom gives the ground distance of the configured zoom, and of no other zoom, so
   * leaving the zoom out is the same as passing the configured one.
   */
  lemma MetersPerPixelDefaultZoom(cfg: Config, z: int)
    ensures MetersPerPixel(cfg, None) == MetersPerPixel(cfg, Some(z)) <==> z == cfg.zoom
  {
    if z < cfg.zoom {
      MetersPerPixelDecreasing(cfg, z, cfg.zoom);
    } else if z > cfg.zoom {
      MetersPerPixelDecreasing(cfg, cfg.zoom, z);
    }
  }

  /** Degrees of latitude and of longitude per pixel. */
  datatype PerPixel = PerPixel(lat: real, lng: real)

  /**
   * Degrees per pixel: latitude by the meters per degree, longitude additionally corrected for
   * meridian convergence, so a pixel spans more degrees of longitude than of latitude.
   */
  function CoordinatePerPixel(cfg: Config, zoom: Option<int>): (r: PerPixel)
    ensures r.lat == r.lng * CosRefLat
    ensures 0.0 < r.lat < r.lng
  {
    var m := MetersPerPixel(cfg, zoom);
    var r := PerPixel(m / MetersPerDegreeLat, m / (MetersPerDegreeLat * CosRefLat));
    assert r.lng * CosRefLat == m / MetersPerDegreeLat;
    r
  }

  /** Pan distances in pixels between neighbouring capture cells. */
  datatype SwipeSteps = SwipeSteps(horizontal: int, vertical: int)

  /** `int(display * (1 - overlap))` on one axis. */
  function SwipeStep(display: int, overlap: real): (step: int)
    ensures 0 <= display && 0.0 <= overlap <= 1.0 ==>
              0 <= step <= display && step as real <= display as real * (1.0 - overlap) < step as real + 1.0
  {
    var x := display as real * (1.0 - overlap);
    assert 0 <= display && 0.0 <= overlap <= 1.0 ==> 0.0 <= x <= display as real by {
      if 0 <= display && 0.0 <= overlap <= 1.0 {
        assert x == display as real - display as real * overlap;
        Arith.MulNonNeg(display as real, overlap);
        Arith.MulNonNeg(display as real, 1.0 - overlap);
      }
    }
    Trunc(x)
  }

  /**
   * With an overlap ratio in [0, 1] the step lies in [0, display], so two consecutive frames share
   * `display - step >= 0` pixels.
   */
  function SwipeDistancePixels(cfg: Config): (r: SwipeSteps)
    ensures 0 <= cfg.displayWidth && 0.0 <= cfg.overlap <= 1.0 ==> 0 <= r.horizontal <= cfg.displayWidth
    ensures 0 <= cfg.displayHeight && 0.0 <= cfg.overlap <= 1.0 ==> 0 <= r.vertical <= cfg.displayHeight
  {
    SwipeSteps(SwipeStep(cfg.displayWidth, cfg.overlap), SwipeStep(cfg.displayHeight, cfg.overlap))
  }

  /** As shipped the steps are 784 and 1592 pixels. */
  lemma ShippedSwipeDistance()
    ensures SwipeDistancePixels(Shipped) == SwipeSteps(784, 1592)
  {
    assert 980.0 * (1.0 - 0.2) == 784.0;
    assert 1990.0 * (1.0 - 0.2) == 1592.0;
  }

  /**
   * The attribute table of the configuration class, updated in place from a parsed settings file.
   */
  class ConfigClass<V> {
    var attributes: map<string, V>

    constructor (initial: map<string, V>)
      ensures attributes == initial
    {
      attributes := initial;
    }

    /**
     * `load_from_file` after the file has been read and parsed: `parsed` is `None` when the file is
     * missing or could not be read or parsed (nothing changes then); otherwise it lists the items
     * of the parsed object in order.
     */
    method LoadFromParsed(parsed: Option<seq<(string, V)>>)
      modifies this
      ensures attributes == if parsed.None? then old(attributes) else Merge(old(attributes), parsed.value)
    {
      if parsed.Some? {
        var items := parsed.value;
        var i := 0;
        while i < |items|
          invariant 0 <= i <= |items|
          invariant attributes == Merge(old(attributes), items[..i])
        {
          var (key, value) := items[i];
          if key in attributes {
            attributes := attributes[key := value];
          }
          assert items[..i + 1][..i] == items[..i];
          i := i + 1;
        }
        assert items[..|items|] == items;
      }
    }
  }

  /** The `setattr` loop: each item overwrites an attribute that already exists. */
  function Merge<V>(attrs: map<string, V>, items: seq<(string, V)>): map<string, V>
    decreases |items|
  {
    if items == [] then attrs
    else
      var prev := Merge(attrs, items[..|items| - 1]);
      var (key, value) := items[|items| - 1];
      if key in prev then prev[key := value] else prev
  }

  /** Loading never adds or removes an attribute. */
  lemma {:induction false} MergeKeepsKeys<V>(attrs: map<string, V>, items: seq<(string, V)>)
    ensures Merge(attrs, items).Keys == attrs.Keys
    decreases |items|
  {
    if items != [] {
      MergeKeepsKeys(attrs, items[..|items| - 1]);
    }
  }

  /** An attribute the file does not mention keeps its value. */
  lemma {:induction false} MergeLeavesUnmentioned<V>(attrs: map<string, V>, items: seq<(string, V)>, key: string)
    requires key in attrs
    requires forall i :: 0 <= i < |items| ==> items[i].0 != key
    ensures key in Merge(attrs, items) && Merge(attrs, items)[key] == attrs[key]
    decreases |items|
  {
    if items != [] {
      MergeLeavesUnmentioned(attrs, items[..|items| - 1], key);
      MergeKeepsKeys(attrs, items[..|items| - 1]);
    }
  }

  /** An existing attribute the file mentions takes the value of its last mention. */
  lemma {:induction false} MergeLastMentionWins<V>(attrs: map<string, V>, items: seq<(string, V)>, k: nat)
    requires k < |items| && items[k].0 in attrs
    requires forall i :: k < i < |items| ==> items[i].0 != items[k].0
    ensures items[k].0 in Merge(attrs, items) && Merge(attrs, items)[items[k].0] == items[k].1
    decreases |items|
  {
    MergeKeepsKeys(attrs, items);
    MergeKeepsKeys(attrs, items[..|items| - 1]);
    if k < |items| - 1 {
      MergeLastMentionWins(attrs, items[..|items| - 1], k);
    }
  }
}
