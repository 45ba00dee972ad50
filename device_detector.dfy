/** The decision whether to show the on-screen controls (src/utils/deviceDetector.js).
    The browser's `window` and `navigator` are read by the caller and passed in. */
module Utils {
  import opened Optional

  /** Viewports narrower than this many pixels count as mobile. */
  const MobileBreakpoint := 768

  /** The options object; `forceShow` may be left out. */
  datatype DetectConfig = DetectConfig(forceShow: Option<bool>)

  /** The browser signals the detector reads: whether `ontouchstart` is a property of
      `window`, the two touch-point counts of `navigator` (missing in some browsers),
      and `window.innerWidth`. */
  datatype BrowserSignals = BrowserSignals(
    hasOnTouchStart: bool,
    maxTouchPoints: Option<int>,
    msMaxTouchPoints: Option<int>,
    innerWidth: int)

  datatype DeviceProfile = DeviceProfile(
    isTouchDevice: bool,
    isMobileViewport: bool,
    shouldShowControls: bool)

  /** `count > 0`, where a missing count compares false. */
  function Positive(count: Option<int>): bool {
    count.Some? && count.value > 0
  }

  function DetectDevice(config: DetectConfig, env: BrowserSignals): (p: DeviceProfile)
    ensures p.isTouchDevice <==>
              env.hasOnTouchStart || Positive(env.maxTouchPoints) || Positive(env.msMaxTouchPoints)
    ensures p.isMobileViewport <==> env.innerWidth < MobileBreakpoint
    ensures p.shouldShowControls <==>
              config.forceShow == Some(true) || p.isTouchDevice || p.isMobileViewport
  {
    var forceShow := config.forceShow.GetOr(false);
    var isTouchDevice := env.hasOnTouchStart || Positive(env.maxTouchPoints) || Positive(env.msMaxTouchPoints);
    var isMobileViewport := env.innerWidth < MobileBreakpoint;
    DeviceProfile(isTouchDevice, isMobileViewport, forceShow || isTouchDevice || isMobileViewport)
  }

  /** Forcing the controls shows them whatever the browser reports. */
  lemma ForceShowWins(env: BrowserSignals)
    ensures DetectDevice(DetectConfig(Some(true)), env).shouldShowControls
  {
  }

  /** Leaving `forceShow` out is the same as passing false. */
  lemma ForceShowDefaultsToFalse(env: BrowserSignals)
    ensures DetectDevice(DetectConfig(None), env) == DetectDevice(DetectConfig(Some(false)), env)
  {
  }

  /** Missing touch-point counts do not make a touch device. */
  lemma MissingCountsAreFalse(hasOnTouchStart: bool, width: int)
    ensures DetectDevice(DetectConfig(None), BrowserSignals(hasOnTouchStart, None, None, width)).isTouchDevice
            == hasOnTouchStart
  {
  }

  /** Without a touch signal and without forcing, the controls are shown exactly on
      viewports narrower than the breakpoint. */
  lemma DesktopDecidesByWidth(config: DetectConfig, env: BrowserSignals)
    requires config.forceShow != Some(true)
    requires !DetectDevice(config, env).isTouchDevice
    ensures DetectDevice(config, env).shouldShowControls <==> env.innerWidth < MobileBreakpoint
  {
  }

  /** Narrowing the viewport never hides controls that a wider one shows. */
  lemma NarrowerNeverHides(config: DetectConfig, env: BrowserSignals, width: int)
    requires width <= env.innerWidth
    requires DetectDevice(config, env).shouldShowControls
    ensures DetectDevice(config, env.(innerWidth := width)).shouldShowControls
  {
  }

  /** The breakpoint: 767 pixels shows the controls, 768 does not; forcing shows them at 1024. */
  lemma BreakpointExamples()
    ensures DetectDevice(DetectConfig(Some(false)), BrowserSignals(false, Some(0), None, 767)).shouldShowControls
    ensures !DetectDevice(DetectConfig(Some(false)), BrowserSignals(false, Some(0), None, 768)).shouldShowControls
    ensures DetectDevice(DetectConfig(Some(true)), BrowserSignals(false, Some(0), None, 1024)).shouldShowControls
  {
  }
}
