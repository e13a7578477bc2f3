/**
  The userscript's run (redbook/ua_presets.user.js): the identity overrides
  every target gets, the PC and mobile override groups, the debug marker, and
  the identity re-applied to each loaded iframe. Each `override*` function is
  a state change of the page's host objects; `Spoofed` is the whole run as a
  function of the objects before it.
 */
module PageSpoof {
  import opened Wrappers
  import opened Text
  import opened SpoofPresets
  import opened HostObjects

  // ------------------------------------------------------------- identity

  const IdentityPlaces: set<(Target, Prop)> :=
    {(Navigator, UserAgent), (Navigator, Platform), (Navigator, AppVersion), (Navigator, Vendor)}

  /** `overrideNavigatorSimple`: four independent best-effort definitions. */
  function NavigatorSimple(objs: Objects, preset: SpoofPreset): (r: Objects)
    ensures r.Keys == objs.Keys
    ensures forall t, p :: (t, p) !in IdentityPlaces ==> ValueAt(r, t, p) == ValueAt(objs, t, p)
  {
    var withUa := DefineProp(objs, Navigator, UserAgent, Str(preset.ua));
    var withPlatform := DefineProp(withUa, Navigator, Platform, Str(preset.platform));
    var withVersion := DefineProp(withPlatform, Navigator, AppVersion, Str(preset.appVersion));
    DefineProp(withVersion, Navigator, Vendor, Str(preset.vendor))
  }

  /** `overrideUserAgentData`: the fake `navigator.userAgentData`, best effort. */
  function UserAgentDataOverride(objs: Objects, preset: SpoofPreset): (r: Objects)
    ensures r.Keys == objs.Keys
    ensures forall t, p :: (t, p) != (Navigator, UserAgentData) ==> ValueAt(r, t, p) == ValueAt(objs, t, p)
  {
    DefineProp(objs, Navigator, UserAgentData, UaData(preset.uaData))
  }

  /** On configurable objects the five identity properties read the preset's values. */
  lemma {:induction false} IdentityOverridesSet(objs: Objects, preset: SpoofPreset)
    requires Configurable(objs) && Navigator in objs
    ensures Configurable(UserAgentDataOverride(NavigatorSimple(objs, preset), preset))
    ensures var r := UserAgentDataOverride(NavigatorSimple(objs, preset), preset);
      ValueAt(r, Navigator, UserAgent) == Some(Str(preset.ua))
      && ValueAt(r, Navigator, Platform) == Some(Str(preset.platform))
      && ValueAt(r, Navigator, AppVersion) == Some(Str(preset.appVersion))
      && ValueAt(r, Navigator, Vendor) == Some(Str(preset.vendor))
      && ValueAt(r, Navigator, UserAgentData) == Some(UaData(preset.uaData))
  {
    var withUa := DefineProp(objs, Navigator, UserAgent, Str(preset.ua));
    DefinePropKeepsConfigurable(objs, Navigator, UserAgent, Str(preset.ua));
    var withPlatform := DefineProp(withUa, Navigator, Platform, Str(preset.platform));
    DefinePropKeepsConfigurable(withUa, Navigator, Platform, Str(preset.platform));
    var withVersion := DefineProp(withPlatform, Navigator, AppVersion, Str(preset.appVersion));
    DefinePropKeepsConfigurable(withPlatform, Navigator, AppVersion, Str(preset.appVersion));
    var simple := DefineProp(withVersion, Navigator, Vendor, Str(preset.vendor));
    DefinePropKeepsConfigurable(withVersion, Navigator, Vendor, Str(preset.vendor));
    assert simple == NavigatorSimple(objs, preset);
    DefinePropKeepsConfigurable(simple, Navigator, UserAgentData, UaData(preset.uaData));
  }

  // ------------------------------------------------------ geometry blocks

  const ScreenPlaces: set<(Target, Prop)> :=
    {(Screen, Width), (Screen, Height), (Screen, AvailWidth), (Screen, AvailHeight),
     (Window, InnerWidth), (Window, InnerHeight), (Window, OuterWidth), (Window, OuterHeight),
     (Window, DevicePixelRatio)}

  /** The nine definitions of the screen overrides, in the order the script makes them. */
  function ScreenOps(width: int, height: int, availHeight: int, ratio: int): (ops: seq<Op>)
    ensures |ops| == 9 && WritesWithin(ops, ScreenPlaces) && DistinctPlaces(ops)
    ensures forall i :: 0 <= i < |ops| ==> ops[i].Define?
  {
    [Define(Screen, Width, Num(width)), Define(Screen, Height, Num(height)),
     Define(Screen, AvailWidth, Num(width)), Define(Screen, AvailHeight, Num(availHeight)),
     Define(Window, InnerWidth, Num(width)), Define(Window, InnerHeight, Num(height)),
     Define(Window, OuterWidth, Num(width)), Define(Window, OuterHeight, Num(height)),
     Define(Window, DevicePixelRatio, Num(ratio))]
  }

  /** `overrideScreenPropertiesForPC`: a 1920 x 1080 screen with a 40-pixel taskbar, ratio 1. */
  function PcScreenOps(): seq<Op>
  {
    ScreenOps(1920, 1080, 1040, 1)
  }

  /** The phone size by default; the ipad and android targets have their own. */
  function MobileSize(target: string): (int, int)
  {
    if target == "ipad" then (768, 1024)
    else if target == "android" then (412, 915)
    else (375, 667)
  }

  /** `overrideScreenPropertiesForMobile`: the target's size, a 44-pixel status bar, ratio 2. */
  function MobileScreenOps(target: string): seq<Op>
  {
    var (width, height) := MobileSize(target);
    ScreenOps(width, height, height - 44, 2)
  }

  /** The objects after `try { ops } catch (e) {}`, for a block that writes only the given places. */
  function Block(objs: Objects, ops: seq<Op>, places: set<(Target, Prop)>): (r: Objects)
    requires WritesWithin(ops, places)
    ensures r.Keys == objs.Keys
    ensures forall t, p :: (t, p) !in places ==> ValueAt(r, t, p) == ValueAt(objs, t, p)
  {
    TryBlockOutside(objs, ops, places);
    TryBlock(objs, ops).objects
  }

  const TouchHandlerPlaces: set<(Target, Prop)> :=
    {(Window, OnTouchStart), (Window, OnTouchMove), (Window, OnTouchEnd)}

  const TouchPlaces: set<(Target, Prop)> := {(Navigator, MaxTouchPoints)} + TouchHandlerPlaces

  /** The three guarded `delete window.ontouch*` statements. */
  function TouchDeletes(): (ops: seq<Op>)
    ensures WritesWithin(ops, TouchHandlerPlaces) && DistinctPlaces(ops)
  {
    [DeleteIfPresent(Window, OnTouchStart), DeleteIfPresent(Window, OnTouchMove), DeleteIfPresent(Window, OnTouchEnd)]
  }

  /**
    `overrideTouchSupportForPC`: no touch points, then, in a nested block,
    remove the touch handlers the window has. The removals run only when the
    definition did not throw.
   */
  function TouchForPc(objs: Objects): (r: Objects)
    ensures r.Keys == objs.Keys
    ensures forall t, p :: (t, p) !in TouchPlaces ==> ValueAt(r, t, p) == ValueAt(objs, t, p)
  {
    var define := [Define(Navigator, MaxTouchPoints, Num(0))];
    assert WritesWithin(define, {(Navigator, MaxTouchPoints)});
    TryBlockOutside(objs, define, {(Navigator, MaxTouchPoints)});
    var o := TryBlock(objs, define);
    if o.completed then Block(o.objects, TouchDeletes(), TouchHandlerPlaces) else o.objects
  }

  /** A single definition in its own `try` block. */
  function DefineBlock(objs: Objects, target: Target, prop: Prop, v: Value): (r: Objects)
    ensures r.Keys == objs.Keys
    ensures forall t, p :: (t, p) != (target, prop) ==> ValueAt(r, t, p) == ValueAt(objs, t, p)
  {
    var ops := [Define(target, prop, v)];
    assert WritesWithin(ops, {(target, prop)});
    Block(objs, ops, {(target, prop)})
  }

  /**
    `overrideMediaQueriesForPC`: the window's `matchMedia` is replaced, by
    plain assignment, with a filter around the one it had.
   */
  function MediaQueriesForPc(objs: Objects): (r: Objects)
    ensures r.Keys == objs.Keys
    ensures forall t, p :: (t, p) != (Window, MatchMedia) ==> ValueAt(r, t, p) == ValueAt(objs, t, p)
  {
    var ops := [Assign(Window, MatchMedia, MediaFilter(ValueAt(objs, Window, MatchMedia)))];
    assert WritesWithin(ops, {(Window, MatchMedia)});
    Block(objs, ops, {(Window, MatchMedia)})
  }

  /** `overrideConnectionFor*`: only when the browser exposes `navigator.connection`. */
  function ConnectionOverride(objs: Objects, kind: string): (r: Objects)
    ensures r.Keys == objs.Keys
    ensures forall t, p :: (t, p) != (Connection, ConnectionType) ==> ValueAt(r, t, p) == ValueAt(objs, t, p)
  {
    if Connection in objs then DefineBlock(objs, Connection, ConnectionType, Str(kind)) else objs
  }

  const OrientationPlaces: set<(Target, Prop)> := {(Screen, Orientation), (Window, Orientation)}

  /** The statements of `overrideOrientationForPC`: `screen.orientation` only when the screen has one. */
  function OrientationOps(objs: Objects): (ops: seq<Op>)
    ensures WritesWithin(ops, OrientationPlaces) && DistinctPlaces(ops)
  {
    (if ValueAt(objs, Screen, Orientation).Some? then [Define(Screen, Orientation, OrientationInfo(0, "landscape-primary"))] else [])
    + [Define(Window, Orientation, Num(0))]
  }

  /**
    `overrideOrientationForPC`. Reading `screen.orientation` on a page without
    `screen` throws before any definition, so that page is left as it was.
   */
  function OrientationForPc(objs: Objects): (r: Objects)
    ensures r.Keys == objs.Keys
    ensures forall t, p :: (t, p) !in OrientationPlaces ==> ValueAt(r, t, p) == ValueAt(objs, t, p)
    ensures Screen !in objs ==> r == objs
  {
    if Screen in objs then Block(objs, OrientationOps(objs), OrientationPlaces) else objs
  }

  /** The debug marker `window.__UA_SPOOFED__`, by plain assignment; its timestamp is not modelled. */
  function MarkSpoofed(objs: Objects, target: string, preset: SpoofPreset): (r: Objects)
    ensures r.Keys == objs.Keys
    ensures forall t, p :: (t, p) != (Window, SpoofMarker) ==> ValueAt(r, t, p) == ValueAt(objs, t, p)
  {
    var ops := [Assign(Window, SpoofMarker, Marker(target, preset.ua))];
    assert WritesWithin(ops, {(Window, SpoofMarker)});
    Block(objs, ops, {(Window, SpoofMarker)})
  }

  // ------------------------------------------------- what the blocks write

  /** The nine sizes a page reads after a screen block. */
  predicate ShowsScreen(r: Objects, width: int, height: int, availHeight: int, ratio: int)
  {
    ValueAt(r, Screen, Width) == Some(Num(width)) && ValueAt(r, Screen, Height) == Some(Num(height))
    && ValueAt(r, Screen, AvailWidth) == Some(Num(width)) && ValueAt(r, Screen, AvailHeight) == Some(Num(availHeight))
    && ValueAt(r, Window, InnerWidth) == Some(Num(width)) && ValueAt(r, Window, InnerHeight) == Some(Num(height))
    && ValueAt(r, Window, OuterWidth) == Some(Num(width)) && ValueAt(r, Window, OuterHeight) == Some(Num(height))
    && ValueAt(r, Window, DevicePixelRatio) == Some(Num(ratio))
  }

  /** A later stage that writes only `places`, none of them a screen place, keeps the sizes. */
  lemma ShowsScreenKept(a: Objects, b: Objects, places: set<(Target, Prop)>, width: int, height: int, availHeight: int, ratio: int)
    requires ShowsScreen(a, width, height, availHeight, ratio)
    requires forall t, p :: (t, p) !in places ==> ValueAt(b, t, p) == ValueAt(a, t, p)
    requires (Screen, Width) !in places && (Screen, Height) !in places
    requires (Screen, AvailWidth) !in places && (Screen, AvailHeight) !in places
    requires (Window, InnerWidth) !in places && (Window, InnerHeight) !in places
    requires (Window, OuterWidth) !in places && (Window, OuterHeight) !in places
    requires (Window, DevicePixelRatio) !in places
    ensures ShowsScreen(b, width, height, availHeight, ratio)
  {
  }

  /** On configurable objects the screen block sets all nine sizes. */
  lemma ScreenBlockSets(objs: Objects, ops: seq<Op>, width: int, height: int, availHeight: int, ratio: int)
    requires Configurable(objs) && Screen in objs && Window in objs
    requires ops == ScreenOps(width, height, availHeight, ratio)
    ensures var r := Block(objs, ops, ScreenPlaces);
      Configurable(r) && ShowsScreen(r, width, height, availHeight, ratio)
  {
    assert ops[0] == Define(Screen, Width, Num(width)) && ops[1] == Define(Screen, Height, Num(height));
    assert ops[2] == Define(Screen, AvailWidth, Num(width)) && ops[3] == Define(Screen, AvailHeight, Num(availHeight));
    assert ops[4] == Define(Window, InnerWidth, Num(width)) && ops[5] == Define(Window, InnerHeight, Num(height));
    assert ops[6] == Define(Window, OuterWidth, Num(width)) && ops[7] == Define(Window, OuterHeight, Num(height));
    assert ops[8] == Define(Window, DevicePixelRatio, Num(ratio));
    assert DefinesOnly(objs, ops) by {
      forall i | 0 <= i < |ops| ensures !ops[i].Assign? && ops[i].target in objs {
        assert Place(ops[i]) in ScreenPlaces;
      }
    }
    BlockSets(objs, ops, ScreenPlaces);
  }

  /** On configurable objects every statement of a block of distinct definitions and deletions takes effect. */
  lemma BlockSets(objs: Objects, ops: seq<Op>, places: set<(Target, Prop)>)
    requires Configurable(objs) && WritesWithin(ops, places) && DefinesOnly(objs, ops) && DistinctPlaces(ops)
    ensures var r := Block(objs, ops, places);
      Configurable(r) && forall i :: 0 <= i < |ops| ==>
        ValueAt(r, ops[i].target, ops[i].prop) == if ops[i].Define? then Some(ops[i].value) else None
  {
    TryBlockWrites(objs, ops);
    TryBlockCompletes(objs, ops);
  }

  /** No touch points and none of the three touch handlers. */
  predicate ShowsNoTouch(r: Objects)
  {
    ValueAt(r, Navigator, MaxTouchPoints) == Some(Num(0))
    && ValueAt(r, Window, OnTouchStart).None? && ValueAt(r, Window, OnTouchMove).None? && ValueAt(r, Window, OnTouchEnd).None?
  }

  /** On configurable objects the PC touch block zeroes the touch points and removes the three handlers. */
  lemma TouchForPcSets(objs: Objects)
    requires Configurable(objs) && Navigator in objs && Window in objs
    ensures var r := TouchForPc(objs);
      Configurable(r) && ShowsNoTouch(r)
  {
    var define := [Define(Navigator, MaxTouchPoints, Num(0))];
    TryBlockWrites(objs, define);
    TryBlockCompletes(objs, define);
    assert define[0].prop == MaxTouchPoints;
    var o := TryBlock(objs, define);
    TryBlockFrame(objs, define, Window, Width);
    TouchDeletesSets(o.objects, TouchDeletes());
  }

  lemma TouchDeletesSets(objs: Objects, ops: seq<Op>)
    requires Configurable(objs) && Window in objs && ops == TouchDeletes()
    ensures var r := Block(objs, ops, TouchHandlerPlaces);
      Configurable(r) && ValueAt(r, Window, OnTouchStart).None? && ValueAt(r, Window, OnTouchMove).None?
      && ValueAt(r, Window, OnTouchEnd).None?
  {
    assert ops[0] == DeleteIfPresent(Window, OnTouchStart) && ops[1] == DeleteIfPresent(Window, OnTouchMove);
    assert ops[2] == DeleteIfPresent(Window, OnTouchEnd);
    assert DefinesOnly(objs, ops);
    BlockSets(objs, ops, TouchHandlerPlaces);
  }

  /** On configurable objects a single definition takes effect. */
  lemma DefineBlockSets(objs: Objects, target: Target, prop: Prop, v: Value)
    requires Configurable(objs) && target in objs
    ensures Configurable(DefineBlock(objs, target, prop, v))
    ensures ValueAt(DefineBlock(objs, target, prop, v), target, prop) == Some(v)
  {
    TryBlockWrites(objs, [Define(target, prop, v)]);
    TryBlockCompletes(objs, [Define(target, prop, v)]);
  }

  /** The filter is installed whenever the window's `matchMedia` can be assigned. */
  lemma MediaQueriesForPcSets(objs: Objects)
    requires Window in objs
    ensures Configurable(objs) ==> Configurable(MediaQueriesForPc(objs))
    ensures CanAssign(objs[Window], MatchMedia) ==>
      ValueAt(MediaQueriesForPc(objs), Window, MatchMedia) == Some(MediaFilter(ValueAt(objs, Window, MatchMedia)))
  {
    var ops := [Assign(Window, MatchMedia, MediaFilter(ValueAt(objs, Window, MatchMedia)))];
    assert ops[..0] == [];
    assert TryBlock(objs, ops) == Step(Outcome(objs, true), ops[0]);
    if CanAssign(objs[Window], MatchMedia) {
      var written := Perform(objs, ops[0]);
      assert written.Some?;
      assert ValueAt(written.value, Window, MatchMedia) == Some(MediaFilter(ValueAt(objs, Window, MatchMedia)));
    }
    if Configurable(objs) {
      TryBlockKeepsConfigurable(objs, ops);
    }
  }

  lemma ConnectionOverrideSets(objs: Objects, kind: string)
    requires Configurable(objs)
    ensures Configurable(ConnectionOverride(objs, kind))
    ensures Connection in objs ==> ValueAt(ConnectionOverride(objs, kind), Connection, ConnectionType) == Some(Str(kind))
  {
    if Connection in objs {
      DefineBlockSets(objs, Connection, ConnectionType, Str(kind));
    }
  }

  /** `window.orientation` reads 0, and an existing `screen.orientation` reads landscape at angle 0. */
  lemma OrientationForPcSets(objs: Objects)
    requires Configurable(objs) && Screen in objs && Window in objs
    ensures var r := OrientationForPc(objs);
      Configurable(r) && ValueAt(r, Window, Orientation) == Some(Num(0))
      && (ValueAt(objs, Screen, Orientation).Some? ==>
            ValueAt(r, Screen, Orientation) == Some(OrientationInfo(0, "landscape-primary")))
      && (ValueAt(objs, Screen, Orientation).None? ==> ValueAt(r, Screen, Orientation).None?)
  {
    var ops := OrientationOps(objs);
    TryBlockWrites(objs, ops);
    TryBlockCompletes(objs, ops);
    assert ops[|ops| - 1] == Define(Window, Orientation, Num(0));
    if ValueAt(objs, Screen, Orientation).Some? {
      assert ops[0] == Define(Screen, Orientation, OrientationInfo(0, "landscape-primary"));
    } else {
      assert ops == [Define(Window, Orientation, Num(0))];
      TryBlockFrame(objs, ops, Screen, Orientation);
      assert !Writes(ops, Screen, Orientation);
    }
  }

  // ---------------------------------------------------------------- groups

  const PcDisplayPlaces: set<(Target, Prop)> := ScreenPlaces + TouchPlaces

  const PcCapabilityPlaces: set<(Target, Prop)> :=
    OrientationPlaces + {(Window, MatchMedia), (Navigator, HardwareConcurrency), (Connection, ConnectionType)}

  const PcPlaces: set<(Target, Prop)> := PcDisplayPlaces + PcCapabilityPlaces

  /** The first two PC overrides: screen sizes, then touch support. */
  function PcDisplay(objs: Objects): (r: Objects)
    ensures r.Keys == objs.Keys
    ensures forall t, p :: (t, p) !in PcDisplayPlaces ==> ValueAt(r, t, p) == ValueAt(objs, t, p)
  {
    TouchForPc(Block(objs, PcScreenOps(), ScreenPlaces))
  }

  /** The remaining PC overrides: media queries, cores, connection, orientation. */
  function PcCapabilities(objs: Objects): (r: Objects)
    ensures r.Keys == objs.Keys
    ensures forall t, p :: (t, p) !in PcCapabilityPlaces ==> ValueAt(r, t, p) == ValueAt(objs, t, p)
  {
    var media := MediaQueriesForPc(objs);
    var cores := DefineBlock(media, Navigator, HardwareConcurrency, Num(8));
    var connection := ConnectionOverride(cores, "ethernet");
    OrientationForPc(connection)
  }

  /** The PC group, in the script's order; the pointer-event hook has no effect and the viewport rewrite is DOM work. */
  function PcGroup(objs: Objects): (r: Objects)
    ensures r.Keys == objs.Keys
    ensures forall t, p :: (t, p) !in PcPlaces ==> ValueAt(r, t, p) == ValueAt(objs, t, p)
  {
    PcCapabilities(PcDisplay(objs))
  }

  const MobilePlaces: set<(Target, Prop)> :=
    ScreenPlaces + {(Navigator, MaxTouchPoints), (Navigator, HardwareConcurrency), (Connection, ConnectionType)}

  function MobileGroup(objs: Objects, target: string): (r: Objects)
    ensures r.Keys == objs.Keys
    ensures forall t, p :: (t, p) !in MobilePlaces ==> ValueAt(r, t, p) == ValueAt(objs, t, p)
  {
    var screen := Block(objs, MobileScreenOps(target), ScreenPlaces);
    var touch := DefineBlock(screen, Navigator, MaxTouchPoints, Num(5));
    var cores := DefineBlock(touch, Navigator, HardwareConcurrency, Num(4));
    ConnectionOverride(cores, "wifi")
  }

  /**
    What a page reads after the PC group: a 1920 x 1080 desktop without
    touch, eight cores, landscape orientation and (when the browser reports a
    connection) a wired one.
   */
  predicate ShowsPc(r: Objects, hadScreenOrientation: bool, hasConnection: bool)
  {
    ShowsScreen(r, 1920, 1080, 1040, 1) && ShowsNoTouch(r)
    && ValueAt(r, Navigator, HardwareConcurrency) == Some(Num(8))
    && ValueAt(r, Window, Orientation) == Some(Num(0))
    && (hadScreenOrientation ==> ValueAt(r, Screen, Orientation) == Some(OrientationInfo(0, "landscape-primary")))
    && (hasConnection ==> ValueAt(r, Connection, ConnectionType) == Some(Str("ethernet")))
  }

  /** On configurable objects the display overrides take full effect. */
  lemma PcDisplaySets(objs: Objects)
    requires Configurable(objs) && Navigator in objs && Screen in objs && Window in objs
    ensures var r := PcDisplay(objs);
      Configurable(r) && ShowsScreen(r, 1920, 1080, 1040, 1) && ShowsNoTouch(r)
  {
    DisplaySets(objs, PcScreenOps(), 1920, 1080, 1040, 1);
  }

  lemma DisplaySets(objs: Objects, ops: seq<Op>, width: int, height: int, availHeight: int, ratio: int)
    requires Configurable(objs) && Navigator in objs && Screen in objs && Window in objs
    requires ops == ScreenOps(width, height, availHeight, ratio)
    ensures var r := TouchForPc(Block(objs, ops, ScreenPlaces));
      Configurable(r) && ShowsScreen(r, width, height, availHeight, ratio) && ShowsNoTouch(r)
  {
    ScreenBlockSets(objs, ops, width, height, availHeight, ratio);
    TouchKeepsScreen(Block(objs, ops, ScreenPlaces), width, height, availHeight, ratio);
  }

  /** No touch place is a screen place. */
  lemma ScreenOutsideTouch()
    ensures (Screen, Width) !in TouchPlaces && (Screen, Height) !in TouchPlaces
    ensures (Screen, AvailWidth) !in TouchPlaces && (Screen, AvailHeight) !in TouchPlaces
    ensures (Window, InnerWidth) !in TouchPlaces && (Window, InnerHeight) !in TouchPlaces
    ensures (Window, OuterWidth) !in TouchPlaces && (Window, OuterHeight) !in TouchPlaces
    ensures (Window, DevicePixelRatio) !in TouchPlaces
  {
  }

  /** The PC touch block leaves the sizes a screen block set. */
  lemma TouchKeepsScreen(screen: Objects, width: int, height: int, availHeight: int, ratio: int)
    requires Configurable(screen) && Navigator in screen && Window in screen
    requires ShowsScreen(screen, width, height, availHeight, ratio)
    ensures var r := TouchForPc(screen);
      Configurable(r) && ShowsScreen(r, width, height, availHeight, ratio) && ShowsNoTouch(r)
  {
    TouchForPcSets(screen);
    ScreenOutsideTouch();
    ShowsScreenKept(screen, TouchForPc(screen), TouchPlaces, width, height, availHeight, ratio);
  }

  /** On configurable objects the capability overrides take full effect. */
  lemma PcCapabilitiesSet(objs: Objects)
    requires Configurable(objs) && Navigator in objs && Screen in objs && Window in objs
    ensures var r := PcCapabilities(objs);
      Configurable(r)
      && ValueAt(r, Navigator, HardwareConcurrency) == Some(Num(8))
      && ValueAt(r, Window, Orientation) == Some(Num(0))
      && (ValueAt(objs, Screen, Orientation).Some? ==> ValueAt(r, Screen, Orientation) == Some(OrientationInfo(0, "landscape-primary")))
      && (Connection in objs ==> ValueAt(r, Connection, ConnectionType) == Some(Str("ethernet")))
  {
    var media := MediaQueriesForPc(objs);
    MediaQueriesForPcSets(objs);
    var cores := DefineBlock(media, Navigator, HardwareConcurrency, Num(8));
    DefineBlockSets(media, Navigator, HardwareConcurrency, Num(8));
    var connection := ConnectionOverride(cores, "ethernet");
    ConnectionOverrideSets(cores, "ethernet");
    OrientationForPcSets(connection);
  }

  /** No capability place is a screen or touch place. */
  lemma DisplayOutsideCapabilities()
    ensures (Screen, Width) !in PcCapabilityPlaces && (Screen, Height) !in PcCapabilityPlaces
    ensures (Screen, AvailWidth) !in PcCapabilityPlaces && (Screen, AvailHeight) !in PcCapabilityPlaces
    ensures (Window, InnerWidth) !in PcCapabilityPlaces && (Window, InnerHeight) !in PcCapabilityPlaces
    ensures (Window, OuterWidth) !in PcCapabilityPlaces && (Window, OuterHeight) !in PcCapabilityPlaces
    ensures (Window, DevicePixelRatio) !in PcCapabilityPlaces
    ensures (Navigator, MaxTouchPoints) !in PcCapabilityPlaces
    ensures (Window, OnTouchStart) !in PcCapabilityPlaces && (Window, OnTouchMove) !in PcCapabilityPlaces
    ensures (Window, OnTouchEnd) !in PcCapabilityPlaces
  {
  }

  /** The capability overrides turn a PC display into a PC. */
  lemma CapabilitiesShowPc(display: Objects)
    requires Configurable(display) && Navigator in display && Screen in display && Window in display
    requires ShowsScreen(display, 1920, 1080, 1040, 1) && ShowsNoTouch(display)
    ensures Configurable(PcCapabilities(display))
    ensures ShowsPc(PcCapabilities(display), ValueAt(display, Screen, Orientation).Some?, Connection in display)
  {
    PcCapabilitiesSet(display);
    DisplayOutsideCapabilities();
    ShowsScreenKept(display, PcCapabilities(display), PcCapabilityPlaces, 1920, 1080, 1040, 1);
  }

  /** The display overrides do not touch the screen's orientation. */
  lemma OrientationOutsideDisplay()
    ensures (Screen, Orientation) !in PcDisplayPlaces
  {
  }

  /** On configurable objects the PC group takes full effect. */
  lemma PcGroupSets(objs: Objects)
    requires Configurable(objs) && Navigator in objs && Screen in objs && Window in objs
    ensures Configurable(PcGroup(objs))
    ensures ShowsPc(PcGroup(objs), ValueAt(objs, Screen, Orientation).Some?, Connection in objs)
  {
    var display := PcDisplay(objs);
    PcDisplaySets(objs);
    OrientationOutsideDisplay();
    CapabilitiesShowPc(display);
  }

  /** What a page reads after the mobile group: the target's size, touch, four cores, wifi. */
  predicate ShowsMobile(r: Objects, target: string, hasConnection: bool)
  {
    var (width, height) := MobileSize(target);
    ShowsScreen(r, width, height, height - 44, 2)
    && ValueAt(r, Navigator, MaxTouchPoints) == Some(Num(5))
    && ValueAt(r, Navigator, HardwareConcurrency) == Some(Num(4))
    && (hasConnection ==> ValueAt(r, Connection, ConnectionType) == Some(Str("wifi")))
  }

  /** On configurable objects the mobile group takes full effect. */
  lemma MobileGroupSets(objs: Objects, target: string)
    requires Configurable(objs) && Navigator in objs && Screen in objs && Window in objs
    ensures Configurable(MobileGroup(objs, target))
    ensures ShowsMobile(MobileGroup(objs, target), target, Connection in objs)
  {
    var (width, height) := MobileSize(target);
    var screen := Block(objs, MobileScreenOps(target), ScreenPlaces);
    ScreenBlockSets(objs, MobileScreenOps(target), width, height, height - 44, 2);
    var touch := DefineBlock(screen, Navigator, MaxTouchPoints, Num(5));
    DefineBlockSets(screen, Navigator, MaxTouchPoints, Num(5));
    var cores := DefineBlock(touch, Navigator, HardwareConcurrency, Num(4));
    DefineBlockSets(touch, Navigator, HardwareConcurrency, Num(4));
    ConnectionOverrideSets(cores, "wifi");
  }


  // ------------------------------------------------------------ whole run

  /** The five identity properties a page reads for a preset. */
  predicate ShowsIdentity(r: Objects, preset: SpoofPreset)
  {
    ValueAt(r, Navigator, UserAgent) == Some(Str(preset.ua))
    && ValueAt(r, Navigator, Platform) == Some(Str(preset.platform))
    && ValueAt(r, Navigator, AppVersion) == Some(Str(preset.appVersion))
    && ValueAt(r, Navigator, Vendor) == Some(Str(preset.vendor))
    && ValueAt(r, Navigator, UserAgentData) == Some(UaData(preset.uaData))
  }

  /** A later stage that writes only `places`, none of them an identity place, keeps the identity. */
  lemma ShowsIdentityKept(a: Objects, b: Objects, places: set<(Target, Prop)>, preset: SpoofPreset)
    requires ShowsIdentity(a, preset)
    requires forall t, p :: (t, p) !in places ==> ValueAt(b, t, p) == ValueAt(a, t, p)
    requires OutsideIdentity(places)
    ensures ShowsIdentity(b, preset)
  {
  }

  /** An identity place is none of the places in `places`. */
  predicate OutsideIdentity(places: set<(Target, Prop)>)
  {
    (Navigator, UserAgent) !in places && (Navigator, Platform) !in places
    && (Navigator, AppVersion) !in places && (Navigator, Vendor) !in places
    && (Navigator, UserAgentData) !in places
  }

  /** No PC group place is an identity place. */
  lemma IdentityOutsidePc()
    ensures OutsideIdentity(PcPlaces)
  {
    assert OutsideIdentity(ScreenPlaces);
    assert OutsideIdentity(TouchPlaces);
    assert OutsideIdentity(PcDisplayPlaces);
    assert OutsideIdentity(OrientationPlaces);
    assert OutsideIdentity(PcCapabilityPlaces);
  }

  /** No mobile group place is an identity place. */
  lemma IdentityOutsideMobile()
    ensures OutsideIdentity(MobilePlaces)
  {
    assert OutsideIdentity(ScreenPlaces);
  }

  /** The PC group keeps the identity. */
  lemma PcGroupKeepsIdentity(identity: Objects, preset: SpoofPreset)
    requires ShowsIdentity(identity, preset)
    ensures ShowsIdentity(PcGroup(identity), preset)
  {
    IdentityOutsidePc();
    ShowsIdentityKept(identity, PcGroup(identity), PcPlaces, preset);
  }

  /** The mobile group keeps the identity. */
  lemma MobileGroupKeepsIdentity(identity: Objects, target: string, preset: SpoofPreset)
    requires ShowsIdentity(identity, preset)
    ensures ShowsIdentity(MobileGroup(identity, target), preset)
  {
    IdentityOutsideMobile();
    ShowsIdentityKept(identity, MobileGroup(identity, target), MobilePlaces, preset);
  }

  /** The identity overrides do not touch the screen's orientation. */
  lemma OrientationOutsideIdentity()
    ensures (Screen, Orientation) !in IdentityPlaces
  {
  }

  /** The run's stages up to the group, for a selected target and its preset. */
  function Grouped(objs: Objects, target: string, preset: SpoofPreset): (r: Objects)
    ensures r.Keys == objs.Keys
  {
    var identity := UserAgentDataOverride(NavigatorSimple(objs, preset), preset);
    match CategoryOf(target)
    case Pc => PcGroup(identity)
    case Mobile => MobileGroup(identity, target)
    case Neither => identity
  }

  /** The whole run for a selected target and its preset: identity, the target's group, the marker. */
  function Spoofed(objs: Objects, target: string, preset: SpoofPreset): (r: Objects)
    ensures r.Keys == objs.Keys
    ensures forall t, p :: (t, p) != (Window, SpoofMarker) ==> ValueAt(r, t, p) == ValueAt(Grouped(objs, target, preset), t, p)
  {
    MarkSpoofed(Grouped(objs, target, preset), target, preset)
  }

  /** Every target's page reads its preset's identity, whichever group follows. */
  lemma SpoofedIdentity(objs: Objects, target: string, preset: SpoofPreset)
    requires Configurable(objs) && Navigator in objs && Screen in objs && Window in objs
    ensures ShowsIdentity(Spoofed(objs, target, preset), preset)
  {
    var identity := UserAgentDataOverride(NavigatorSimple(objs, preset), preset);
    IdentityOverridesSet(objs, preset);
    match CategoryOf(target)
    case Pc => PcGroupKeepsIdentity(identity, preset);
    case Mobile => MobileGroupKeepsIdentity(identity, target, preset);
    case Neither =>
    MarkerKeepsIdentity(Grouped(objs, target, preset), Spoofed(objs, target, preset), preset);
  }

  /** The marker leaves the identity. */
  lemma MarkerKeepsIdentity(a: Objects, b: Objects, preset: SpoofPreset)
    requires ShowsIdentity(a, preset)
    requires forall t, p :: (t, p) != (Window, SpoofMarker) ==> ValueAt(b, t, p) == ValueAt(a, t, p)
    ensures ShowsIdentity(b, preset)
  {
  }

  /** A PC target's page reads as a PC. */
  lemma SpoofedPc(objs: Objects, target: string, preset: SpoofPreset)
    requires Configurable(objs) && Navigator in objs && Screen in objs && Window in objs
    requires CategoryOf(target) == Pc
    ensures ShowsPc(Spoofed(objs, target, preset), ValueAt(objs, Screen, Orientation).Some?, Connection in objs)
  {
    var identity := UserAgentDataOverride(NavigatorSimple(objs, preset), preset);
    IdentityOverridesSet(objs, preset);
    OrientationOutsideIdentity();
    assert ValueAt(identity, Screen, Orientation) == ValueAt(objs, Screen, Orientation);
    PcGroupSets(identity);
    ShowsPcKept(Grouped(objs, target, preset), Spoofed(objs, target, preset), ValueAt(objs, Screen, Orientation).Some?, Connection in objs);
  }

  /** The marker leaves what a PC page reads. */
  lemma ShowsPcKept(a: Objects, b: Objects, hadScreenOrientation: bool, hasConnection: bool)
    requires ShowsPc(a, hadScreenOrientation, hasConnection)
    requires forall t, p :: (t, p) != (Window, SpoofMarker) ==> ValueAt(b, t, p) == ValueAt(a, t, p)
    ensures ShowsPc(b, hadScreenOrientation, hasConnection)
  {
  }

  /** A mobile target's page reads as that device. */
  lemma SpoofedMobile(objs: Objects, target: string, preset: SpoofPreset)
    requires Configurable(objs) && Navigator in objs && Screen in objs && Window in objs
    requires CategoryOf(target) == Mobile
    ensures ShowsMobile(Spoofed(objs, target, preset), target, Connection in objs)
  {
    var identity := UserAgentDataOverride(NavigatorSimple(objs, preset), preset);
    IdentityOverridesSet(objs, preset);
    MobileGroupSets(identity, target);
    ShowsMobileKept(Grouped(objs, target, preset), Spoofed(objs, target, preset), target, Connection in objs);
  }

  /** The marker leaves what a mobile page reads. */
  lemma ShowsMobileKept(a: Objects, b: Objects, target: string, hasConnection: bool)
    requires ShowsMobile(a, target, hasConnection)
    requires forall t, p :: (t, p) != (Window, SpoofMarker) ==> ValueAt(b, t, p) == ValueAt(a, t, p)
    ensures ShowsMobile(b, target, hasConnection)
  {
  }

  /** A target of neither list changes only the identity and the marker. */
  lemma SpoofedNeither(objs: Objects, target: string, preset: SpoofPreset)
    requires CategoryOf(target) == Neither
    ensures forall t, p ::
      ((t, p) !in IdentityPlaces && (t, p) != (Navigator, UserAgentData) && (t, p) != (Window, SpoofMarker))
      ==> ValueAt(Spoofed(objs, target, preset), t, p) == ValueAt(objs, t, p)
  {
  }

  /**
    With the shipped configuration (no auto-selection, target `mac`) every
    page, whatever its user agent, reads the mac identity and a PC display.
   */
  lemma ShippedRunShowsMac(objs: Objects, userAgent: string)
    requires Configurable(objs) && Navigator in objs && Screen in objs && Window in objs
    ensures var target := SelectTarget(AutoSelect, userAgent);
      var r := Spoofed(objs, target, PresetOf(target));
      target == "mac"
      && ShowsIdentity(r, UaPresets["mac"])
      && ShowsPc(r, ValueAt(objs, Screen, Orientation).Some?, Connection in objs)
  {
    var target := SelectTarget(AutoSelect, userAgent);
    ShippedTargetIsMac(userAgent);
    SpoofedIdentity(objs, target, PresetOf(target));
    SpoofedPc(objs, target, PresetOf(target));
  }

  // --------------------------------------------------------------- iframes

  /** The five places the load handler writes in the frame's navigator. */
  const FramePlaces: set<(Target, Prop)> := IdentityPlaces + {(Navigator, UserAgentData)}

  /** The load handler's `try` block: five getter definitions on the frame's navigator. */
  function FrameIdentityOps(preset: SpoofPreset): (ops: seq<Op>)
    ensures |ops| == 5 && WritesWithin(ops, FramePlaces) && DistinctPlaces(ops)
    ensures forall i :: 0 <= i < |ops| ==> ops[i].Define? && ops[i].target == Navigator
  {
    [Define(Navigator, UserAgent, Str(preset.ua)), Define(Navigator, Platform, Str(preset.platform)),
     Define(Navigator, AppVersion, Str(preset.appVersion)), Define(Navigator, Vendor, Str(preset.vendor)),
     Define(Navigator, UserAgentData, FrameUaData(preset.uaData))]
  }

  /**
    The patched `document.createElement`: an element whose tag name
    lower-cases to "iframe" gets a load handler, which rewrites the identity
    in the frame's window when it has one. `frame` is that window's objects
    (`None` when `contentWindow` is null); the result is the same window
    after the handler ran.
   */
  function FrameLoaded(tagName: string, frame: Option<Objects>, preset: SpoofPreset): (r: Option<Objects>)
    ensures r.Some? <==> frame.Some?
    ensures r.Some? ==> r.value.Keys == frame.value.Keys
    ensures r.Some? ==> forall t, p :: (t, p) !in FramePlaces ==> ValueAt(r.value, t, p) == ValueAt(frame.value, t, p)
    ensures Lower(tagName) != "iframe" ==> r == frame
  {
    if Lower(tagName) != "iframe" || frame.None? then frame
    else
      var ops := FrameIdentityOps(preset);
      TryBlockOutside(frame.value, ops, FramePlaces);
      Some(TryBlock(frame.value, ops).objects)
  }

  /** What a loaded frame reads: the preset's identity, with the frame's own `userAgentData`. */
  predicate ShowsFrameIdentity(r: Objects, preset: SpoofPreset)
  {
    ValueAt(r, Navigator, UserAgent) == Some(Str(preset.ua))
    && ValueAt(r, Navigator, Platform) == Some(Str(preset.platform))
    && ValueAt(r, Navigator, AppVersion) == Some(Str(preset.appVersion))
    && ValueAt(r, Navigator, Vendor) == Some(Str(preset.vendor))
    && ValueAt(r, Navigator, UserAgentData) == Some(FrameUaData(preset.uaData))
  }

  /**
    A configurable frame reads the same identity as the top window; its
    `getHighEntropyValues` answers every key as the top window's does.
   */
  lemma FrameLoadedSets(tagName: string, frame: Objects, preset: SpoofPreset)
    requires Lower(tagName) == "iframe"
    requires Configurable(frame) && Navigator in frame
    ensures FrameLoaded(tagName, Some(frame), preset).Some?
    ensures ShowsFrameIdentity(FrameLoaded(tagName, Some(frame), preset).value, preset)
    ensures forall key :: IframeEntropyValueFor(preset.uaData.highEntropy, key) == EntropyValueFor(preset.uaData.highEntropy, key)
  {
    FrameIdentitySets(frame, FrameIdentityOps(preset), preset);
    forall key ensures IframeEntropyValueFor(preset.uaData.highEntropy, key) == EntropyValueFor(preset.uaData.highEntropy, key) {
      IframeEntropyAgrees(preset.uaData.highEntropy, key);
    }
  }

  lemma FrameIdentitySets(frame: Objects, ops: seq<Op>, preset: SpoofPreset)
    requires Configurable(frame) && Navigator in frame
    requires ops == FrameIdentityOps(preset)
    ensures ShowsFrameIdentity(TryBlock(frame, ops).objects, preset)
  {
    assert ops[0] == Define(Navigator, UserAgent, Str(preset.ua));
    assert ops[1] == Define(Navigator, Platform, Str(preset.platform));
    assert ops[2] == Define(Navigator, AppVersion, Str(preset.appVersion));
    assert ops[3] == Define(Navigator, Vendor, Str(preset.vendor));
    assert ops[4] == Define(Navigator, UserAgentData, FrameUaData(preset.uaData));
    TryBlockWrites(frame, ops);
  }

  /**
    Unlike the top window's best-effort definitions, the frame's block stops
    at its first throw: a frame whose `userAgent` cannot be redefined keeps
    all five properties.
   */
  lemma FrameLoadedAborts(tagName: string, frame: Objects, preset: SpoofPreset)
    requires Navigator in frame && !CanDefine(frame[Navigator], UserAgent)
    ensures FrameLoaded(tagName, Some(frame), preset) == Some(frame)
  {
    var ops := FrameIdentityOps(preset);
    assert ops[..1] == [Define(Navigator, UserAgent, Str(preset.ua))];
    assert ops[..1][..0] == [];
    TryBlockAborted(frame, ops, 1);
  }
}
