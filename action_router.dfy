/**
 * The action controller (src/controllers/actionController.js): the single
 * entry point through which every input source reaches the reducer. It
 * shapes the payload of each known action type and hands exactly one action
 * to `dispatch`; an unknown type dispatches nothing.
 *
 * Payloads arrive as untyped JavaScript values, so the router is modelled at
 * that level; `Decode` then reads a dispatched action as a reducer action.
 */
module ActionRouter {
  import opened Basics
  import opened Materials
  import opened Reducer

  /** The JavaScript values a payload is built from. */
  datatype Value =
    | Undefined
    | Null
    | Num(n: real)
    | Text(s: string)
    | Mat(m: Material)
    | Obj(fields: map<string, Value>)

  /** `{ type, payload }`; `payload` is `None` when the object has no such property. */
  datatype JsAction = JsAction(kind: string, payload: Option<Value>)

  /** What one call of `dispatchAction` does. */
  datatype Outcome =
    | Dispatched(action: JsAction)   // `dispatch` called once, with this action
    | Ignored                        // unknown type: only a warning is logged
    | Threw                          // a property of an `undefined` or `null` payload was read

  const PLACE_DRAFT := "PLACE_DRAFT"
  const DELETE_DRAFT := "DELETE_DRAFT"
  const DELETE_CONFIRMED := "DELETE_CONFIRMED"
  const SET_MATERIAL := "SET_MATERIAL"
  const CONFIRM_DRAFT := "CONFIRM_DRAFT"
  const UNDO := "UNDO"
  const COLLAPSE := "COLLAPSE"
  const CANCEL_COLLAPSE := "CANCEL_COLLAPSE"

  /** The types the router knows, in the order of its `switch`. */
  const ROUTED: seq<string> :=
    [PLACE_DRAFT, DELETE_DRAFT, DELETE_CONFIRMED, SET_MATERIAL, CONFIRM_DRAFT, UNDO, COLLAPSE, CANCEL_COLLAPSE]

  /** The routed types whose dispatched action carries no payload. */
  const BARE_TYPES: seq<string> := [CONFIRM_DRAFT, UNDO, COLLAPSE, CANCEL_COLLAPSE]

  /** A property read `v.key`: `None` when it throws, `Some(Undefined)` for a missing property. */
  function Get(v: Value, key: string): (r: Option<Value>)
    ensures r.None? <==> v.Undefined? || v.Null?
  {
    match v
    case Undefined => None
    case Null => None
    case Obj(fields) => Some(if key in fields then fields[key] else Undefined)
    case Mat(m) =>
      Some(if key == "name" then Text(m.name)
           else if key == "color" then Text(m.color)
           else if key == "emissive" then Text(m.emissive)
           else if key == "density" then Num(m.density as real)
           else if key == "strength" then Num(m.strength as real)
           else if key == "weightFactor" then Num(m.weightFactor)
           else Undefined)
    case _ => Some(Undefined)
  }

  /** `{ id: payload.id }` */
  function IdPayload(payload: Value): Option<Value> {
    match Get(payload, "id")
    case None => None
    case Some(id) => Some(Obj(map["id" := id]))
  }

  /**
   * `dispatchAction(dispatch, type, payload)`. Every routed type dispatches
   * exactly one action of the same type, unless it reads a property of a
   * missing payload; every other type dispatches nothing.
   */
  function Route(kind: string, payload: Value): (r: Outcome)
    ensures r.Dispatched? ==> r.action.kind == kind
    ensures r.Ignored? <==> kind !in ROUTED
    ensures r.Threw? <==> kind in ROUTED && kind !in BARE_TYPES && (payload.Undefined? || payload.Null?)
  {
    if kind == PLACE_DRAFT then
      if payload.Undefined? || payload.Null? then Threw
      else
        Dispatched(JsAction(PLACE_DRAFT, Some(Obj(map[
          "x" := Get(payload, "x").value,
          "y" := Get(payload, "y").value,
          "z" := Get(payload, "z").value,
          "material" := Get(payload, "material").value]))))
    else if kind == DELETE_DRAFT || kind == DELETE_CONFIRMED then
      match IdPayload(payload)
      case None => Threw
      case Some(p) => Dispatched(JsAction(kind, Some(p)))
    else if kind == SET_MATERIAL then
      match Get(payload, "material")
      case None => Threw
      case Some(m) => Dispatched(JsAction(SET_MATERIAL, Some(m)))
    else if kind in BARE_TYPES then
      Dispatched(JsAction(kind, None))
    else
      Ignored
  }

  /** `array[i]`, `undefined` past the end. */
  function At(a: seq<Value>, i: nat): Value {
    if i < |a| then a[i] else Undefined
  }

  /**
   * `createPlaceAction(position, material)`: a placement whose payload the
   * router passes on unchanged, whatever the position and material are.
   */
  function CreatePlaceAction(position: seq<Value>, material: Value): (a: JsAction)
    ensures a.kind == PLACE_DRAFT && a.payload.Some?
    ensures Route(a.kind, a.payload.value) == Dispatched(a)
  {
    assert Obj(map["x" := At(position, 0), "y" := At(position, 1), "z" := At(position, 2), "material" := material]).fields.Keys
      == {"x", "y", "z", "material"};
    JsAction(PLACE_DRAFT, Some(Obj(map["x" := At(position, 0), "y" := At(position, 1), "z" := At(position, 2), "material" := material])))
  }

  /**
   * `createDeleteAction(cubeId, status)`: a draft deletion exactly when the
   * status is the string "draft", a confirmed-cube deletion otherwise, with
   * a payload the router passes on unchanged.
   */
  function CreateDeleteAction(cubeId: Value, status: Value): (a: JsAction)
    ensures a.kind == DELETE_DRAFT <==> status == Text("draft")
    ensures a.kind == DELETE_CONFIRMED <==> status != Text("draft")
    ensures a.payload.Some?
    ensures Route(a.kind, a.payload.value) == Dispatched(a)
  {
    JsAction(if status == Text("draft") then DELETE_DRAFT else DELETE_CONFIRMED, Some(Obj(map["id" := cubeId])))
  }

  /**
   * `createMaterialAction(material)`: the router unwraps the payload it
   * builds and dispatches the bare `material`, not the wrapping object.
   */
  function CreateMaterialAction(material: Value): (a: JsAction)
    ensures a.kind == SET_MATERIAL && a.payload.Some?
    ensures Route(a.kind, a.payload.value) == Dispatched(JsAction(SET_MATERIAL, Some(material)))
  {
    JsAction(SET_MATERIAL, Some(Obj(map["material" := material])))
  }

  /** A JavaScript number that is an integer. */
  predicate IsInteger(v: Value) {
    v.Num? && v.n.Floor as real == v.n
  }

  /**
   * The reducer action a dispatched object stands for, when its payload has
   * the shape the reducer reads; `None` for a payload of another shape.
   */
  function Decode(a: JsAction): Option<Action> {
    match a.payload
    case None =>
      if a.kind == CONFIRM_DRAFT then Some(ConfirmDraft)
      else if a.kind == UNDO then Some(Undo)
      else if a.kind == COLLAPSE then Some(Collapse)
      else if a.kind == CANCEL_COLLAPSE then Some(CancelCollapse)
      else None
    case Some(p) =>
      if a.kind == SET_MATERIAL then
        if p.Mat? then Some(SetMaterial(p.m)) else None
      else if !p.Obj? then None
      else if a.kind == PLACE_DRAFT then
        var x, y, z, m := Get(p, "x").value, Get(p, "y").value, Get(p, "z").value, Get(p, "material").value;
        if x.Num? && y.Num? && z.Num? && m.Mat? then Some(PlaceDraft(x.n, y.n, z.n, m.m)) else None
      else if a.kind == DELETE_DRAFT || a.kind == DELETE_CONFIRMED then
        var id := Get(p, "id").value;
        if !IsInteger(id) then None
        else if a.kind == DELETE_DRAFT then Some(DeleteDraft(id.n.Floor))
        else Some(DeleteConfirmed(id.n.Floor))
      else None
  }

  // ---- Routing ----

  /** The countdown update is not a routed type: it only reaches the reducer directly. */
  lemma CountdownNotRouted(payload: Value)
    ensures Route("UPDATE_COUNTDOWN", payload) == Ignored
  {
  }

  /**
   * A placement's dispatched payload holds exactly `x`, `y`, `z` and
   * `material`, copied from the input payload, and nothing else of it.
   */
  lemma PlacePayloadShape(fields: map<string, Value>)
    ensures var r := Route(PLACE_DRAFT, Obj(fields));
      && r.Dispatched? && r.action.payload.Some? && r.action.payload.value.Obj?
      && r.action.payload.value.fields.Keys == {"x", "y", "z", "material"}
      && forall k :: k in r.action.payload.value.fields ==>
           r.action.payload.value.fields[k] == (if k in fields then fields[k] else Undefined)
  {
    var r := Route(PLACE_DRAFT, Obj(fields));
    assert r.action.payload.value.fields.Keys == {"x", "y", "z", "material"};
  }

  /** Both deletions dispatch a payload holding only the id. */
  lemma DeletePayloadShape(kind: string, fields: map<string, Value>)
    requires kind == DELETE_DRAFT || kind == DELETE_CONFIRMED
    ensures Route(kind, Obj(fields)) == Dispatched(JsAction(kind, Some(Obj(map["id" := if "id" in fields then fields["id"] else Undefined]))))
  {
  }

  /** The payload-free types dispatch an action without a payload, whatever was passed. */
  lemma BareTypesDropPayload(kind: string, payload: Value)
    requires kind in BARE_TYPES
    ensures Route(kind, payload) == Dispatched(JsAction(kind, None))
    ensures Decode(Route(kind, payload).action).Some?
  {
  }

  // ---- Action builders ----

  /** Routing the payload built by `createMaterialAction(m)` dispatches `m` itself, unwrapped. */
  lemma MaterialActionRoundTrip(m: Material)
    ensures Route(SET_MATERIAL, CreateMaterialAction(Mat(m)).payload.value) == Dispatched(JsAction(SET_MATERIAL, Some(Mat(m))))
    ensures Decode(Route(SET_MATERIAL, CreateMaterialAction(Mat(m)).payload.value).action) == Some(SetMaterial(m))
  {
  }

  /**
   * A placement built from a numeric position and a material, routed and
   * read by the reducer, places a draft at that position with that material.
   */
  lemma PlaceActionRoundTrip(x: real, y: real, z: real, m: Material)
    ensures var a := CreatePlaceAction([Num(x), Num(y), Num(z)], Mat(m));
      && Route(a.kind, a.payload.value) == Dispatched(a)
      && Decode(a) == Some(PlaceDraft(x, y, z, m))
  {
    var a := CreatePlaceAction([Num(x), Num(y), Num(z)], Mat(m));
    assert a.payload.value.fields.Keys == {"x", "y", "z", "material"};
  }

  /**
   * A deletion built for a cube and routed reaches the reducer as the
   * deletion of that id from the list its status names.
   */
  lemma DeleteActionRoundTrip(id: int, status: Value)
    ensures var a := CreateDeleteAction(Num(id as real), status);
      && Route(a.kind, a.payload.value) == Dispatched(a)
      && Decode(a) == Some(if status == Text("draft") then DeleteDraft(id) else DeleteConfirmed(id))
  {
    assert (id as real).Floor == id;
  }

}
