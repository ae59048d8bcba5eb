/** What each action of Controllers/VillaAPIController.cs does to the shared
    villa list, as functions from the list before the request to the response
    and the list after it. The controller class (VillaApiController.dfy) runs
    the same actions as methods over its own list and is proved against these
    functions. */
module VillaActions {
  import opened VillaDto

  /** The HTTP results the actions produce. ServerError is the explicit
      `StatusCode(500)`; Crashed is an unhandled NullReferenceException, which the
      framework also answers with status 500. */
  datatype Outcome<+T> =
    | Ok(value: T)
    | Created(value: T)
    | NoContent
    | BadRequest
    | NotFound
    | ServerError
    | Crashed

  /** The response to one request and the villa list it leaves behind. */
  datatype Step<+T> = Step(outcome: Outcome<T>, list: seq<Villa>)

  /** LINQ `FirstOrDefault(p)`, giving the position of the element it returns
      (None for the default, `null`). */
  function FirstIndex<T>(s: seq<T>, p: T -> bool): (r: Option<nat>)
    ensures r.Some? ==> r.value < |s| && p(s[r.value]) && forall j | 0 <= j < r.value :: !p(s[j])
    ensures r.None? ==> forall j | 0 <= j < |s| :: !p(s[j])
  {
    if s == [] then None
    else if p(s[0]) then Some(0)
    else match FirstIndex(s[1..], p)
      case None => None
      case Some(k) => Some(k + 1)
  }

  /** `villaList.FirstOrDefault(v => v.Id == id)`: the first villa with that id. */
  function IndexOfId(s: seq<Villa>, id: int): (r: Option<nat>)
    ensures r.Some? ==> r.value < |s| && s[r.value].id == id && forall j | 0 <= j < r.value :: s[j].id != id
    ensures r.None? <==> forall j | 0 <= j < |s| :: s[j].id != id
  {
    FirstIndex(s, (v: Villa) => v.id == id)
  }

  /** True when `v.Name.ToLower() == key` evaluates to false without throwing. */
  predicate NameDiffers(v: Villa, key: string)
  {
    v.name.Some? && ToLower(v.name.value) != key
  }

  /** How the duplicate-name query of CreateVilla ends: it throws on a null name,
      finds a villa with the same lower-cased name, or finds none. */
  datatype Scan = NullName | Duplicate | NoClash

  /** `villaList.FirstOrDefault(v => v.Name.ToLower() == key)`. The query stops
      at the first villa whose name is null (the call throws) or equal to `key`. */
  function NameScan(s: seq<Villa>, key: string): (r: Scan)
    ensures r == NullName <==>
      exists i | 0 <= i < |s| :: s[i].name.None? && forall j | 0 <= j < i :: NameDiffers(s[j], key)
    ensures r == Duplicate <==>
      exists i | 0 <= i < |s| :: s[i].name.Some? && ToLower(s[i].name.value) == key &&
        forall j | 0 <= j < i :: NameDiffers(s[j], key)
    ensures r == NoClash <==> forall i | 0 <= i < |s| :: NameDiffers(s[i], key)
  {
    match FirstIndex(s, (v: Villa) => !NameDiffers(v, key))
    case None => NoClash
    case Some(i) => if s[i].name.None? then NullName else Duplicate
  }

  /** The id of `villaList.OrderByDescending(v => v.Id).FirstOrDefault()` on a
      list that is not empty: the largest id. */
  function MaxId(s: seq<Villa>): (r: Int32)
    requires s != []
    ensures exists i | 0 <= i < |s| :: s[i].id == r
    ensures forall i | 0 <= i < |s| :: s[i].id <= r
  {
    if |s| == 1 then s[0].id
    else
      var m := MaxId(s[1..]);
      if s[0].id >= m then s[0].id else m
  }

  /** The id CreateVilla assigns: the largest id plus one, in unchecked 32-bit
      arithmetic, so that `int.MaxValue + 1` is `int.MinValue`. */
  function NextId(s: seq<Villa>): (r: Int32)
    requires s != []
    ensures MaxId(s) < Int32Max ==> r == MaxId(s) + 1 && forall i | 0 <= i < |s| :: s[i].id < r
    ensures MaxId(s) == Int32Max ==> r == Int32Min
  {
    Wrap32(MaxId(s) + 1)
  }

  /** One operation of a JSON Patch document, reduced to the assignment it makes
      to a VillaDTO property: "replace" and "add" set the property to the given
      value, "remove" sets it to its default (null for Name, 0 otherwise). */
  datatype PatchOp =
    | SetId(id: Int32)
    | SetName(name: Option<string>)
    | SetOccupancy(occupancy: Int32)
    | SetSqFt(sqFt: Int32)

  /** One patch operation: the property it names takes the operation's value and
      the other three keep theirs. */
  function ApplyOp(v: Villa, op: PatchOp): (r: Villa)
    ensures r.id == (if op.SetId? then op.id else v.id)
    ensures r.name == (if op.SetName? then op.name else v.name)
    ensures r.occupancy == (if op.SetOccupancy? then op.occupancy else v.occupancy)
    ensures r.sqFt == (if op.SetSqFt? then op.sqFt else v.sqFt)
  {
    match op
    case SetId(x) => v.(id := x)
    case SetName(n) => v.(name := n)
    case SetOccupancy(x) => v.(occupancy := x)
    case SetSqFt(x) => v.(sqFt := x)
  }

  /** `patchDoc.ApplyTo(villa)`: the operations in document order. A property no
      operation names keeps its value. */
  function ApplyPatch(v: Villa, ops: seq<PatchOp>): (r: Villa)
    decreases |ops|
    ensures (forall k | 0 <= k < |ops| :: !ops[k].SetId?) ==> r.id == v.id
    ensures (forall k | 0 <= k < |ops| :: !ops[k].SetName?) ==> r.name == v.name
    ensures (forall k | 0 <= k < |ops| :: !ops[k].SetOccupancy?) ==> r.occupancy == v.occupancy
    ensures (forall k | 0 <= k < |ops| :: !ops[k].SetSqFt?) ==> r.sqFt == v.sqFt
  {
    if ops == [] then v else ApplyPatch(ApplyOp(v, ops[0]), ops[1..])
  }

  /** GetVillas: the list itself, whatever it holds. */
  function GetVillas(s: seq<Villa>): (r: Outcome<seq<Villa>>)
    ensures r.Ok? && r.value == s
  {
    Ok(s)
  }

  /** GetVilla: id 0 is refused before the list is consulted; any other id,
      negative ones included, yields the first villa with that id. */
  function GetVilla(s: seq<Villa>, id: Int32): (r: Outcome<Villa>)
    ensures id == 0 ==> r == BadRequest
    ensures id != 0 ==> (r == NotFound <==> forall i | 0 <= i < |s| :: s[i].id != id)
    ensures id != 0 && r != NotFound ==>
      r.Ok? &&
      exists i | 0 <= i < |s| :: s[i] == r.value && s[i].id == id &&
        forall j | 0 <= j < i :: s[j].id != id
  {
    if id == 0 then BadRequest
    else match IndexOfId(s, id)
      case None => NotFound
      case Some(i) => Ok(s[i])
  }

  /** CreateVilla on a body that passed model validation. The duplicate-name
      query runs first (and throws on a stored null name), then the id check,
      then the id allocation (which throws on an empty list); a successful call
      appends the body with its new id. */
  function Create(s: seq<Villa>, body: Villa): (r: Step<Villa>)
    requires ValidVilla(body)
    ensures NameScan(s, ToLower(body.name.value)) == NullName ==> r == Step(Crashed, s)
    ensures NameScan(s, ToLower(body.name.value)) == Duplicate ==> r == Step(BadRequest, s)
    ensures NameScan(s, ToLower(body.name.value)) == NoClash && body.id > 0 ==> r == Step(ServerError, s)
    ensures NameScan(s, ToLower(body.name.value)) == NoClash && body.id <= 0 && s == [] ==> r == Step(Crashed, s)
    ensures r.outcome.Created? <==>
      NameScan(s, ToLower(body.name.value)) == NoClash && body.id <= 0 && s != []
    ensures r.outcome.Created? ==>
      var v := r.outcome.value;
      r.list == s + [v] && v == body.(id := v.id) &&
      (MaxId(s) < Int32Max ==> v.id == MaxId(s) + 1 && forall i | 0 <= i < |s| :: s[i].id < v.id) &&
      (MaxId(s) == Int32Max ==> v.id == Int32Min)
  {
    match NameScan(s, ToLower(body.name.value))
    case NullName => Step(Crashed, s)
    case Duplicate => Step(BadRequest, s)
    case NoClash =>
      if body.id > 0 then Step(ServerError, s)
      else if s == [] then Step(Crashed, s)
      else
        var v := body.(id := NextId(s));
        Step(Created(v), s + [v])
  }

  /** DeleteVilla. An id below 1 is not refused (the BadRequest built for it is
      dropped), so every id goes to the lookup; the first villa with that id is
      removed and the others keep their order. */
  function Delete(s: seq<Villa>, id: Int32): (r: Step<()>)
    ensures r.outcome == NotFound <==> forall i | 0 <= i < |s| :: s[i].id != id
    ensures r.outcome == NotFound ==> r.list == s
    ensures r.outcome != NotFound ==>
      r.outcome == NoContent && |r.list| == |s| - 1 &&
      exists i | 0 <= i < |s| :: s[i].id == id && (forall j | 0 <= j < i :: s[j].id != id) &&
        r.list == s[..i] + s[i + 1..]
  {
    match IndexOfId(s, id)
    case None => Step(NotFound, s)
    case Some(i) => Step(NoContent, s[..i] + s[i + 1..])
  }

  /** UpdateVilla on a body that passed model validation. A bad id is refused
      before the lookup; a missing villa makes the assignments throw; otherwise
      the first villa with that id takes the body's Name, Occupancy and SqFt and
      keeps its id, which equals the body's. Name uniqueness is not checked. */
  function Update(s: seq<Villa>, id: Int32, body: Villa): (r: Step<()>)
    requires ValidVilla(body)
    ensures r.outcome == BadRequest <==> id < 1 || id != body.id
    ensures r.outcome == Crashed <==> 1 <= id == body.id && forall i | 0 <= i < |s| :: s[i].id != id
    ensures r.outcome != NoContent ==> r.list == s
    ensures r.outcome == NoContent || r.outcome == BadRequest || r.outcome == Crashed
    ensures r.outcome == NoContent ==>
      |r.list| == |s| &&
      exists i | 0 <= i < |s| :: s[i].id == id && (forall j | 0 <= j < i :: s[j].id != id) &&
        r.list[i] == body && r.list[i].id == s[i].id &&
        forall j | 0 <= j < |s| && j != i :: r.list[j] == s[j]
  {
    if id < 1 || id != body.id then Step(BadRequest, s)
    else match IndexOfId(s, id)
      case None => Step(Crashed, s)
      case Some(i) =>
        Step(NoContent, s[i := s[i].(name := body.name, occupancy := body.occupancy, sqFt := body.sqFt)])
  }

  /** PartialUpdateVilla. The patch (None for a null document) is applied to the
      stored villa before `ModelState.IsValid` is consulted, so a BadRequest at
      that point leaves the patched villa in the list. */
  function PartialUpdate(s: seq<Villa>, id: Int32, patch: Option<seq<PatchOp>>, modelStateValid: bool): (r: Step<()>)
    ensures id < 1 || patch.None? ==> r == Step(BadRequest, s)
    ensures 1 <= id && patch.Some? ==> (r.outcome == NotFound <==> forall i | 0 <= i < |s| :: s[i].id != id)
    ensures r.outcome == NotFound ==> r.list == s
    ensures 1 <= id && patch.Some? && r.outcome != NotFound ==>
      (if modelStateValid then r.outcome == NoContent else r.outcome == BadRequest) &&
      exists i | 0 <= i < |s| :: s[i].id == id && (forall j | 0 <= j < i :: s[j].id != id) &&
        r.list == s[i := ApplyPatch(s[i], patch.value)]
  {
    if id < 1 || patch.None? then Step(BadRequest, s)
    else match IndexOfId(s, id)
      case None => Step(NotFound, s)
      case Some(i) =>
        var patched := s[i := ApplyPatch(s[i], patch.value)];
        if !modelStateValid then Step(BadRequest, patched) else Step(NoContent, patched)
  }
}
