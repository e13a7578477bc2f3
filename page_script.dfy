/**
  The userscript as it runs: the host objects of a window are mutable
  state, each `override*` function of redbook/ua_presets.user.js is a method
  that changes them in place, and each method is proved against the stage
  function of `PageSpoof` that says what it leaves behind.
 */
module PageScript {
  import opened Wrappers
  import opened SpoofPresets
  import opened HostObjects
  import opened PageSpoof

  /** One window's `navigator`, `screen`, `window` and `navigator.connection`. */
  class Realm {
    var objects: Objects

    constructor(objects: Objects)
      ensures this.objects == objects
    {
      this.objects := objects;
    }

    /** One host statement: it takes effect, or throws and changes nothing. */
    method Execute(op: Op) returns (ok: bool)
      modifies this
      ensures ok <==> Perform(old(objects), op).Some?
      ensures objects == if ok then Perform(old(objects), op).value else old(objects)
    {
      var r := Perform(objects, op);
      if r.Some? {
        objects := r.value;
        ok := true;
      } else {
        ok := false;
      }
    }

    /** `defineProp`: a getter definition, else an assignment, else nothing; it never throws. */
    method DefineProp(target: Target, prop: Prop, v: Value)
      modifies this
      ensures objects == HostObjects.DefineProp(old(objects), target, prop, v)
    {
      var defined := Execute(Define(target, prop, v));
      if !defined {
        var written := Execute(Assign(target, prop, v));
      }
    }

    /**
      `try { ops } catch (e) {}`: the loop steps through the block's straight-line
      statements in order and stops at the first that throws.
     */
    method TryStatements(ops: seq<Op>) returns (completed: bool)
      modifies this
      ensures Outcome(objects, completed) == TryBlock(old(objects), ops)
    {
      ghost var start := objects;
      completed := true;
      var i := 0;
      while i < |ops| && completed
        invariant 0 <= i <= |ops|
        invariant TryBlock(start, ops[..i]) == Outcome(objects, completed)
      {
        assert ops[..i + 1][..i] == ops[..i];
        completed := Execute(ops[i]);
        i := i + 1;
      }
      if completed {
        assert ops[..i] == ops;
      } else {
        TryBlockAborted(start, ops, i);
      }
    }
  }

  /** The script's state: the top window, the selected target and its preset. */
  class Page {
    const window: Realm
    var selectTarget: string
    var preset: SpoofPreset

    /** The start of the script: `SELECT_TARGET`, replaced by the auto-pick when enabled, then the preset. */
    constructor(window: Realm, autoSelect: bool, pageUserAgent: string)
      ensures this.window == window
      ensures selectTarget == SelectTarget(autoSelect, pageUserAgent)
      ensures preset == PresetOf(selectTarget)
    {
      this.window := window;
      var target := InitialTarget;
      if autoSelect {
        target := AutoPick(pageUserAgent, target);
      }
      selectTarget := target;
      preset := PresetOf(target);
    }

    method OverrideNavigatorSimple()
      modifies window
      ensures window.objects == NavigatorSimple(old(window.objects), preset)
    {
      window.DefineProp(Navigator, UserAgent, Str(preset.ua));
      window.DefineProp(Navigator, Platform, Str(preset.platform));
      window.DefineProp(Navigator, AppVersion, Str(preset.appVersion));
      window.DefineProp(Navigator, Vendor, Str(preset.vendor));
    }

    method OverrideUserAgentData()
      modifies window
      ensures window.objects == UserAgentDataOverride(old(window.objects), preset)
    {
      window.DefineProp(Navigator, UserAgentData, UaData(preset.uaData));
    }

    method OverrideScreenForPc()
      modifies window
      ensures window.objects == Block(old(window.objects), PcScreenOps(), ScreenPlaces)
    {
      var _ := window.TryStatements(PcScreenOps());
    }

    method OverrideScreenForMobile()
      modifies window
      ensures window.objects == Block(old(window.objects), MobileScreenOps(selectTarget), ScreenPlaces)
    {
      var width, height := 375, 667;
      if selectTarget == "ipad" {
        width, height := 768, 1024;
      } else if selectTarget == "android" {
        width, height := 412, 915;
      }
      var _ := window.TryStatements(ScreenOps(width, height, height - 44, 2));
    }

    /** The touch-handler deletions form a nested block that runs only after the definition succeeded. */
    method OverrideTouchForPc()
      modifies window
      ensures window.objects == TouchForPc(old(window.objects))
    {
      var defined := window.TryStatements([Define(Navigator, MaxTouchPoints, Num(0))]);
      if defined {
        var _ := window.TryStatements(TouchDeletes());
      }
    }

    method OverrideTouchForMobile()
      modifies window
      ensures window.objects == DefineBlock(old(window.objects), Navigator, MaxTouchPoints, Num(5))
    {
      var _ := window.TryStatements([Define(Navigator, MaxTouchPoints, Num(5))]);
    }

    method OverrideMediaQueriesForPc()
      modifies window
      ensures window.objects == MediaQueriesForPc(old(window.objects))
    {
      var original := ValueAt(window.objects, Window, MatchMedia);
      var _ := window.TryStatements([Assign(Window, MatchMedia, MediaFilter(original))]);
    }

    method OverrideHardwareConcurrency(cores: int)
      modifies window
      ensures window.objects == DefineBlock(old(window.objects), Navigator, HardwareConcurrency, Num(cores))
    {
      var _ := window.TryStatements([Define(Navigator, HardwareConcurrency, Num(cores))]);
    }

    method OverrideConnection(kind: string)
      modifies window
      ensures window.objects == ConnectionOverride(old(window.objects), kind)
    {
      if Connection in window.objects {
        var _ := window.TryStatements([Define(Connection, ConnectionType, Str(kind))]);
      }
    }

    method OverrideOrientationForPc()
      modifies window
      ensures window.objects == OrientationForPc(old(window.objects))
    {
      if Screen in window.objects {
        var _ := window.TryStatements(OrientationOps(window.objects));
      }
    }

    method MarkSpoofed()
      modifies window
      ensures window.objects == PageSpoof.MarkSpoofed(old(window.objects), selectTarget, preset)
    {
      var _ := window.TryStatements([Assign(Window, SpoofMarker, Marker(selectTarget, preset.ua))]);
    }

    /** The script's body, in its order: identity, the target's group, then the marker. */
    method Run()
      modifies window
      ensures window.objects == Spoofed(old(window.objects), selectTarget, preset)
    {
      OverrideNavigatorSimple();
      OverrideUserAgentData();
      ghost var identity := window.objects;
      if selectTarget in PcPlatforms {
        OverrideScreenForPc();
        OverrideTouchForPc();
        assert window.objects == PcDisplay(identity);
        OverrideMediaQueriesForPc();
        OverrideHardwareConcurrency(8);
        OverrideConnection("ethernet");
        OverrideOrientationForPc();
      } else if selectTarget in MobilePlatforms {
        OverrideScreenForMobile();
        OverrideTouchForMobile();
        OverrideHardwareConcurrency(4);
        OverrideConnection("wifi");
      }
      assert window.objects == Grouped(old(window.objects), selectTarget, preset);
      MarkSpoofed();
    }

    /** The load handler the patched `createElement` attaches to iframes, run on the frame's window. */
    method OnFrameLoad(tagName: string, frame: Realm?)
      modifies frame
      ensures frame != null ==> frame.objects == FrameLoaded(tagName, Some(old(frame.objects)), preset).value
    {
      if Text.Lower(tagName) == "iframe" && frame != null {
        var _ := frame.TryStatements(FrameIdentityOps(preset));
      }
    }
  }
}
