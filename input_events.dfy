/** The input-event record handed to the foreign binary and its read-only
    accessors (lib/falso_ndk/AInput.cpp, from AInputEvent_create on). */
module InputEvents {

  newtype int32 = x: int | -0x8000_0000 <= x < 0x8000_0000

  /** A 32-bit float. The accessors only store and return axis values, so a
      float is kept as its bit pattern and never computed with. */
  datatype Float = Float(bits: bv32)

  /** The float `0`, returned for a missing event or an unsupported axis. */
  const Zero: Float := Float(0)

  /** Capacity of the per-pointer arrays of a motion event. */
  const MaxPointers: nat := 10

  type PointerIds = s: seq<int32> | |s| == 10 witness [0, 0, 0, 0, 0, 0, 0, 0, 0, 0]

  type AxisSlots = s: seq<Float> | |s| == 10
    witness [Float(0), Float(0), Float(0), Float(0), Float(0),
             Float(0), Float(0), Float(0), Float(0), Float(0)]

  /** Values of the Android NDK's android/input.h that the accessors use. */
  const AINPUT_SOURCE_UNKNOWN: int32 := 0
  const AXIS_X: int32 := 0
  const AXIS_Y: int32 := 1
  const AXIS_Z: int32 := 11
  const AXIS_RX: int32 := 12
  const AXIS_RY: int32 := 13
  const AXIS_RZ: int32 := 14
  const AXIS_HAT_X: int32 := 15
  const AXIS_HAT_Y: int32 := 16
  const AXIS_LTRIGGER: int32 := 17
  const AXIS_RTRIGGER: int32 := 18
  const AXIS_GAS: int32 := 22
  const AXIS_BRAKE: int32 := 23

  /** The fields of an `inputEvent`. Key events use the key fields, motion
      events the motion fields; nothing checks which is which. */
  datatype EventData = EventData(
    eventType: int32,
    source: int32,
    action: int32,
    keyCode: int32,
    repeatCount: int32,
    scanCode: int32,
    motionAction: int32,
    pointerCount: nat,
    pointerIds: PointerIds,
    x: AxisSlots,
    y: AxisSlots,
    z: AxisSlots,
    rz: AxisSlots,
    hatX: AxisSlots,
    hatY: AxisSlots,
    lTrigger: AxisSlots,
    rTrigger: AxisSlots)

  /** A heap-allocated event; `AInputEvent*` is `InputEvent?`, NULL is `null`. */
  class InputEvent {
    const data: EventData

    constructor (d: EventData)
      ensures data == d
    {
      data := d;
    }
  }

  /** The events currently allocated by AInputEvent_create and not yet freed. */
  class EventHeap {
    var live: set<InputEvent>

    /** AInputEvent_create: a new event holding a verbatim copy of the template. */
    method Create(template: EventData) returns (e: InputEvent)
      modifies this
      ensures fresh(e) && e.data == template
      ensures live == old(live) + {e}
    {
      e := new InputEvent(template);
      live := live + {e};
    }

    /** free(e) for a non-null event; freeing an event twice is undefined in C. */
    method Free(e: InputEvent?)
      requires e == null || e in live
      modifies this
      ensures live == if e == null then old(live) else old(live) - {e}
    {
      if e != null {
        live := live - {e};
      }
    }
  }

  /** Pointer indices of 10 and above read slot 9. */
  function ClampIndex(index: nat): (i: nat)
    ensures i < MaxPointers
    ensures index < MaxPointers ==> i == index
    ensures index >= MaxPointers ==> i == MaxPointers - 1
  {
    if index >= 10 then 9 else index
  }

  function GetType(e: InputEvent?): (r: int32)
    ensures e == null ==> r == -1
    ensures e != null ==> r == e.data.eventType
  {
    if e == null then -1 else e.data.eventType
  }

  function GetSource(e: InputEvent?): (r: int32)
    ensures e == null ==> r == AINPUT_SOURCE_UNKNOWN
    ensures e != null ==> r == e.data.source
  {
    if e == null then AINPUT_SOURCE_UNKNOWN else e.data.source
  }

  function KeyGetAction(e: InputEvent?): (r: int32)
    ensures e == null ==> r == 0
    ensures e != null ==> r == e.data.action
  {
    if e == null then 0 else e.data.action
  }

  function KeyGetKeyCode(e: InputEvent?): (r: int32)
    ensures e == null ==> r == 0
    ensures e != null ==> r == e.data.keyCode
  {
    if e == null then 0 else e.data.keyCode
  }

  function KeyGetRepeatCount(e: InputEvent?): (r: int32)
    ensures e == null ==> r == 0
    ensures e != null ==> r == e.data.repeatCount
  {
    if e == null then 0 else e.data.repeatCount
  }

  function KeyGetScanCode(e: InputEvent?): (r: int32)
    ensures e == null ==> r == 0
    ensures e != null ==> r == e.data.scanCode
  {
    if e == null then 0 else e.data.scanCode
  }

  /** The motion action is a field of its own, distinct from the key action. */
  function MotionGetAction(e: InputEvent?): (r: int32)
    ensures e == null ==> r == 0
    ensures e != null ==> r == e.data.motionAction
  {
    if e == null then 0 else e.data.motionAction
  }

  function MotionGetPointerCount(e: InputEvent?): (r: nat)
    ensures e == null ==> r == 0
    ensures e != null ==> r == e.data.pointerCount
  {
    if e == null then 0 else e.data.pointerCount
  }

  function MotionGetPointerId(e: InputEvent?, index: nat): (r: int32)
    ensures e == null ==> r == 0
    ensures e != null && index < MaxPointers ==> r == e.data.pointerIds[index]
    ensures e != null && index >= MaxPointers ==> r == e.data.pointerIds[9]
  {
    if e == null then 0 else e.data.pointerIds[ClampIndex(index)]
  }

  function MotionGetX(e: InputEvent?, index: nat): (r: Float)
    ensures e == null ==> r == Zero
    ensures e != null && index < MaxPointers ==> r == e.data.x[index]
    ensures e != null && index >= MaxPointers ==> r == e.data.x[9]
  {
    if e == null then Zero else e.data.x[ClampIndex(index)]
  }

  function MotionGetY(e: InputEvent?, index: nat): (r: Float)
    ensures e == null ==> r == Zero
    ensures e != null && index < MaxPointers ==> r == e.data.y[index]
    ensures e != null && index >= MaxPointers ==> r == e.data.y[9]
  {
    if e == null then Zero else e.data.y[ClampIndex(index)]
  }

  /** The axes whose value is read from a per-pointer array of the event. */
  predicate StoredAxis(axis: int32)
  {
    axis == AXIS_X || axis == AXIS_Y || axis == AXIS_Z || axis == AXIS_RZ ||
    axis == AXIS_HAT_X || axis == AXIS_HAT_Y || axis == AXIS_LTRIGGER || axis == AXIS_RTRIGGER
  }

  /** AMotionEvent_getAxisValue. The index is NOT clamped here: it must be in
      range whenever the axis reads an array. RX, RY, GAS, BRAKE and unknown
      axes give 0 without reading anything. */
  function AxisValue(e: InputEvent?, axis: int32, index: nat): (r: Float)
    requires e == null || !StoredAxis(axis) || index < MaxPointers
    ensures e == null || !StoredAxis(axis) ==> r == Zero
    ensures e != null && axis == AXIS_X ==> r == e.data.x[index]
    ensures e != null && axis == AXIS_Y ==> r == e.data.y[index]
    ensures e != null && axis == AXIS_Z ==> r == e.data.z[index]
    ensures e != null && axis == AXIS_RZ ==> r == e.data.rz[index]
    ensures e != null && axis == AXIS_HAT_X ==> r == e.data.hatX[index]
    ensures e != null && axis == AXIS_HAT_Y ==> r == e.data.hatY[index]
    ensures e != null && axis == AXIS_LTRIGGER ==> r == e.data.lTrigger[index]
    ensures e != null && axis == AXIS_RTRIGGER ==> r == e.data.rTrigger[index]
  {
    if e == null then Zero
    else if axis == AXIS_X then e.data.x[index]
    else if axis == AXIS_Y then e.data.y[index]
    else if axis == AXIS_Z then e.data.z[index]
    else if axis == AXIS_RZ then e.data.rz[index]
    else if axis == AXIS_HAT_X then e.data.hatX[index]
    else if axis == AXIS_HAT_Y then e.data.hatY[index]
    else if axis == AXIS_LTRIGGER then e.data.lTrigger[index]
    else if axis == AXIS_RTRIGGER then e.data.rTrigger[index]
    else Zero
  }

  /** No history is kept: every historical sample is the current value. */
  function HistoricalAxisValue(e: InputEvent?, axis: int32, index: nat, history: nat): (r: Float)
    requires e == null || !StoredAxis(axis) || index < MaxPointers
    ensures r == AxisValue(e, axis, index)
  {
    AxisValue(e, axis, index)
  }

  /** For an index in range, the X and Y accessors agree with the axis lookup;
      past the end they read the last slot, where the axis lookup may not be
      asked at all. */
  lemma AccessorsAgreeWithAxisValue(e: InputEvent, index: nat)
    ensures index < MaxPointers ==>
              MotionGetX(e, index) == AxisValue(e, AXIS_X, index) &&
              MotionGetY(e, index) == AxisValue(e, AXIS_Y, index)
    ensures index >= MaxPointers ==>
              MotionGetX(e, index) == AxisValue(e, AXIS_X, 9) &&
              MotionGetY(e, index) == AxisValue(e, AXIS_Y, 9) &&
              MotionGetPointerId(e, index) == MotionGetPointerId(e, 9)
  {
  }
}
