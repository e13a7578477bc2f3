/**
  The page's host objects as the userscript sees them: `navigator`,
  `screen`, `window` and (when the browser has one) `navigator.connection`,
  each a table of the properties the script touches. A property records its
  current value and the two flags that decide whether the script's writes
  succeed: `Object.defineProperty` needs a configurable property (or an
  extensible object, for a new one), plain assignment a writable one, and
  `delete` a configurable one. A failing write throws; the script's
  `try` blocks stop at the first throw.
 */
module HostObjects {
  import opened Wrappers
  import opened SpoofPresets

  datatype Target = Navigator | Screen | Window | Connection

  /**
    The properties the script reads or writes, by their JavaScript names:
    userAgent, platform, appVersion, vendor, userAgentData, maxTouchPoints,
    hardwareConcurrency (navigator); width, height, availWidth, availHeight,
    orientation (screen); innerWidth, innerHeight, outerWidth, outerHeight,
    devicePixelRatio, orientation, ontouchstart, ontouchmove, ontouchend,
    matchMedia, __UA_SPOOFED__ (window); type (connection).
   */
  datatype Prop =
    | UserAgent | Platform | AppVersion | Vendor | UserAgentData | MaxTouchPoints | HardwareConcurrency
    | Width | Height | AvailWidth | AvailHeight | Orientation
    | InnerWidth | InnerHeight | OuterWidth | OuterHeight | DevicePixelRatio
    | OnTouchStart | OnTouchMove | OnTouchEnd | MatchMedia | SpoofMarker | ConnectionType

  /**
    What a property holds; `HostValue` is anything the page had that the
    script never inspects. `UaData` is the top window's fake
    `userAgentData`, `FrameUaData` the one installed in iframes, whose
    `getHighEntropyValues` tests truthiness instead of membership.
   */
  datatype Value =
    | Str(s: string)
    | Num(n: int)
    | OrientationInfo(angle: int, kind: string)
    | UaData(data: AgentData)
    | FrameUaData(data: AgentData)
    | MediaFilter(original: Option<Value>)
    | Marker(preset: string, ua: string)
    | HostValue(id: nat)

  datatype Property = Property(value: Value, configurable: bool, writable: bool)

  datatype HostObject = HostObject(props: map<Prop, Property>, extensible: bool)

  type Objects = map<Target, HostObject>

  /** What the page reads from `target.prop`; `None` when the object or the property is missing. */
  function ValueAt(objs: Objects, target: Target, prop: Prop): Option<Value>
  {
    if target in objs && prop in objs[target].props then Some(objs[target].props[prop].value) else None
  }

  predicate CanDefine(o: HostObject, prop: Prop)
  {
    if prop in o.props then o.props[prop].configurable else o.extensible
  }

  predicate CanAssign(o: HostObject, prop: Prop)
  {
    if prop in o.props then o.props[prop].writable else o.extensible
  }

  /** A getter installed with `configurable: true` and no setter. */
  function Defined(o: HostObject, prop: Prop, v: Value): HostObject
  {
    o.(props := o.props[prop := Property(v, true, false)])
  }

  /** Plain assignment: an existing property keeps its flags; a new one is an ordinary data property. */
  function Assigned(o: HostObject, prop: Prop, v: Value): HostObject
  {
    if prop in o.props then o.(props := o.props[prop := o.props[prop].(value := v)])
    else o.(props := o.props[prop := Property(v, true, true)])
  }

  /** One statement of a `try` block. */
  datatype Op =
    | Define(target: Target, prop: Prop, value: Value)
    | Assign(target: Target, prop: Prop, value: Value)
    | DeleteIfPresent(target: Target, prop: Prop)

  /** The (object, property) an operation writes. */
  function Place(op: Op): (Target, Prop)
  {
    (op.target, op.prop)
  }

  /**
    The effect of one statement, or `None` when it throws. `DeleteIfPresent`
    is `if (t.p !== undefined) delete t.p`: a missing property is skipped.
   */
  function Perform(objs: Objects, op: Op): (r: Option<Objects>)
    ensures r.Some? ==> r.value.Keys == objs.Keys
    ensures r.Some? ==> forall t, p :: (t, p) != Place(op) ==> ValueAt(r.value, t, p) == ValueAt(objs, t, p)
    ensures r.None? <==> (op.target !in objs
      || (op.Define? && !CanDefine(objs[op.target], op.prop))
      || (op.Assign? && !CanAssign(objs[op.target], op.prop))
      || (op.DeleteIfPresent? && op.prop in objs[op.target].props && !objs[op.target].props[op.prop].configurable))
  {
    if op.target !in objs then None
    else
      var o := objs[op.target];
      match op
      case Define(t, p, v) => if CanDefine(o, p) then Some(objs[t := Defined(o, p, v)]) else None
      case Assign(t, p, v) => if CanAssign(o, p) then Some(objs[t := Assigned(o, p, v)]) else None
      case DeleteIfPresent(t, p) =>
        if p !in o.props then Some(objs)
        else if o.props[p].configurable then Some(objs[t := o.(props := o.props - {p})])
        else None
  }

  /**
    `defineProp`: try a getter definition, fall back to assignment, and give
    up silently. It never throws; when both writes would throw it leaves
    everything as it was.
   */
  function DefineProp(objs: Objects, target: Target, prop: Prop, v: Value): (r: Objects)
    ensures r.Keys == objs.Keys
    ensures forall t, p :: (t, p) != (target, prop) ==> ValueAt(r, t, p) == ValueAt(objs, t, p)
    ensures target in objs && (CanDefine(objs[target], prop) || CanAssign(objs[target], prop)) ==>
      ValueAt(r, target, prop) == Some(v)
    ensures !(target in objs && (CanDefine(objs[target], prop) || CanAssign(objs[target], prop))) ==>
      r == objs
  {
    match Perform(objs, Define(target, prop, v))
    case Some(defined) => defined
    case None =>
      match Perform(objs, Assign(target, prop, v))
      case Some(written) => written
      case None => objs
  }

  /** The objects after a `try` block, and whether it ran to the end without throwing. */
  datatype Outcome = Outcome(objects: Objects, completed: bool)

  /** One more statement: skipped once an earlier one threw. */
  function Step(o: Outcome, op: Op): Outcome
  {
    if !o.completed then o
    else match Perform(o.objects, op)
      case Some(next) => Outcome(next, true)
      case None => Outcome(o.objects, false)
  }

  /** `try { ops } catch (e) {}`. */
  function TryBlock(objs: Objects, ops: seq<Op>): Outcome
    decreases |ops|
  {
    if ops == [] then Outcome(objs, true)
    else Step(TryBlock(objs, ops[..|ops| - 1]), ops[|ops| - 1])
  }

  // --------------------------------------------------------------- frames

  /** Whether any statement of the block writes the place. */
  predicate Writes(ops: seq<Op>, target: Target, prop: Prop)
  {
    exists i :: 0 <= i < |ops| && Place(ops[i]) == (target, prop)
  }

  /** One statement changes no object other than its own, and no other place. */
  lemma StepFrame(o: Outcome, op: Op, target: Target, prop: Prop)
    ensures Step(o, op).objects.Keys == o.objects.Keys
    ensures Place(op) != (target, prop) ==> ValueAt(Step(o, op).objects, target, prop) == ValueAt(o.objects, target, prop)
  {
  }

  /** A block leaves the set of objects alone, and every place none of its statements writes. */
  lemma {:induction false} TryBlockFrame(objs: Objects, ops: seq<Op>, target: Target, prop: Prop)
    ensures TryBlock(objs, ops).objects.Keys == objs.Keys
    ensures !Writes(ops, target, prop) ==> ValueAt(TryBlock(objs, ops).objects, target, prop) == ValueAt(objs, target, prop)
    decreases |ops|
  {
    if ops != [] {
      var front := ops[..|ops| - 1];
      var last := ops[|ops| - 1];
      TryBlockFrame(objs, front, target, prop);
      StepFrame(TryBlock(objs, front), last, target, prop);
      if !Writes(ops, target, prop) {
        assert !Writes(front, target, prop) by {
          forall i | 0 <= i < |front| ensures Place(front[i]) != (target, prop) {
            assert front[i] == ops[i];
          }
        }
        assert Place(last) != (target, prop);
      }
    }
  }

  // ---------------------------------------------------- open host objects

  /**
    Every object is extensible and every property configurable: the state in
    which `Object.defineProperty` and `delete` cannot throw.
   */
  predicate Configurable(objs: Objects)
  {
    forall t :: t in objs ==>
      (objs[t].extensible && forall p :: p in objs[t].props ==> objs[t].props[p].configurable)
  }

  /** Definitions, assignments and deletions all keep the objects configurable. */
  lemma PerformKeepsConfigurable(objs: Objects, op: Op)
    requires Configurable(objs)
    ensures Perform(objs, op).Some? ==> Configurable(Perform(objs, op).value)
  {
  }

  lemma DefinePropKeepsConfigurable(objs: Objects, target: Target, prop: Prop, v: Value)
    requires Configurable(objs)
    ensures Configurable(DefineProp(objs, target, prop, v))
  {
    PerformKeepsConfigurable(objs, Define(target, prop, v));
    PerformKeepsConfigurable(objs, Assign(target, prop, v));
  }

  /** Only definitions and deletions, on objects that exist. */
  predicate DefinesOnly(objs: Objects, ops: seq<Op>)
  {
    forall i :: 0 <= i < |ops| ==> !ops[i].Assign? && ops[i].target in objs
  }

  /** On configurable objects a block of definitions and deletions never throws. */
  lemma {:induction false} TryBlockCompletes(objs: Objects, ops: seq<Op>)
    requires Configurable(objs) && DefinesOnly(objs, ops)
    ensures TryBlock(objs, ops).completed
    ensures Configurable(TryBlock(objs, ops).objects)
    decreases |ops|
  {
    if ops != [] {
      var front := ops[..|ops| - 1];
      var last := ops[|ops| - 1];
      assert DefinesOnly(objs, front) by {
        forall i | 0 <= i < |front| ensures !front[i].Assign? && front[i].target in objs {
          assert front[i] == ops[i];
        }
      }
      TryBlockCompletes(objs, front);
      var before := TryBlock(objs, front).objects;
      TryBlockFrame(objs, front, last.target, last.prop);
      PerformKeepsConfigurable(before, last);
    }
  }

  /**
    On configurable objects, the place a block writes last holds what that
    statement wrote: the defined value, or nothing after a deletion.
   */
  lemma {:induction false} TryBlockLastWrite(objs: Objects, ops: seq<Op>, i: nat)
    requires Configurable(objs) && DefinesOnly(objs, ops)
    requires i < |ops|
    requires forall j :: i < j < |ops| ==> Place(ops[j]) != Place(ops[i])
    ensures ValueAt(TryBlock(objs, ops).objects, ops[i].target, ops[i].prop)
      == if ops[i].Define? then Some(ops[i].value) else None
    decreases |ops|
  {
    var front := ops[..|ops| - 1];
    var last := ops[|ops| - 1];
    assert DefinesOnly(objs, front) by {
      forall j | 0 <= j < |front| ensures !front[j].Assign? && front[j].target in objs {
        assert front[j] == ops[j];
      }
    }
    TryBlockCompletes(objs, front);
    TryBlockFrame(objs, front, last.target, last.prop);
    if i < |ops| - 1 {
      assert front[i] == ops[i];
      TryBlockLastWrite(objs, front, i);
    }
  }

  /** Every statement of the block writes one of the given places. */
  predicate WritesWithin(ops: seq<Op>, places: set<(Target, Prop)>)
  {
    forall i :: 0 <= i < |ops| ==> Place(ops[i]) in places
  }

  /** The frame of a whole block, stated over a set of places that covers its statements. */
  lemma TryBlockOutside(objs: Objects, ops: seq<Op>, places: set<(Target, Prop)>)
    requires WritesWithin(ops, places)
    ensures TryBlock(objs, ops).objects.Keys == objs.Keys
    ensures forall t, p :: (t, p) !in places ==>
      ValueAt(TryBlock(objs, ops).objects, t, p) == ValueAt(objs, t, p)
  {
    TryBlockFrame(objs, ops, Navigator, UserAgent);
    forall t, p | (t, p) !in places
      ensures ValueAt(TryBlock(objs, ops).objects, t, p) == ValueAt(objs, t, p)
    {
      TryBlockFrame(objs, ops, t, p);
    }
  }

  /** No two statements of the block write the same place. */
  predicate DistinctPlaces(ops: seq<Op>)
  {
    forall i, j :: 0 <= i < j < |ops| ==> Place(ops[i]) != Place(ops[j])
  }

  /** On configurable objects every statement of such a block takes effect. */
  lemma TryBlockWrites(objs: Objects, ops: seq<Op>)
    requires Configurable(objs) && DefinesOnly(objs, ops) && DistinctPlaces(ops)
    ensures TryBlock(objs, ops).completed
    ensures forall i :: 0 <= i < |ops| ==>
      ValueAt(TryBlock(objs, ops).objects, ops[i].target, ops[i].prop)
        == if ops[i].Define? then Some(ops[i].value) else None
  {
    TryBlockCompletes(objs, ops);
    forall i | 0 <= i < |ops|
      ensures ValueAt(TryBlock(objs, ops).objects, ops[i].target, ops[i].prop)
        == if ops[i].Define? then Some(ops[i].value) else None
    {
      TryBlockLastWrite(objs, ops, i);
    }
  }

  /** Once a statement has thrown, the rest of the block is skipped. */
  lemma {:induction false} TryBlockAborted(objs: Objects, ops: seq<Op>, k: nat)
    requires k <= |ops| && !TryBlock(objs, ops[..k]).completed
    ensures TryBlock(objs, ops) == TryBlock(objs, ops[..k])
    decreases |ops| - k
  {
    if k < |ops| {
      assert ops[..k + 1][..k] == ops[..k];
      TryBlockAborted(objs, ops, k + 1);
    } else {
      assert ops[..k] == ops;
    }
  }

  /** Whatever a block does, and wherever it stops, configurable objects stay configurable. */
  lemma {:induction false} TryBlockKeepsConfigurable(objs: Objects, ops: seq<Op>)
    requires Configurable(objs)
    ensures Configurable(TryBlock(objs, ops).objects)
    decreases |ops|
  {
    if ops != [] {
      var front := ops[..|ops| - 1];
      TryBlockKeepsConfigurable(objs, front);
      PerformKeepsConfigurable(TryBlock(objs, front).objects, ops[|ops| - 1]);
    }
  }
}
