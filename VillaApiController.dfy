/** Controllers/VillaAPIController.cs: the six actions over the one villa list
    they share (`VillaStore.villaList`, here a field of the controller). Each
    action leaves the list and answers exactly as the matching function of
    VillaActions says; what those functions promise is proved there and in
    VillaProperties. */
module VillaApi {
  import opened VillaDto
  import opened VillaActions

  class VillaApiController {
    /** The villa list, in insertion order. */
    var villaList: seq<Villa>

    /** A controller over the list's seed data. */
    constructor (seed: seq<Villa>)
      ensures villaList == seed
    {
      villaList := seed;
    }

    /** GET api/VillaAPI. */
    method GetVillas() returns (r: Outcome<seq<Villa>>)
      ensures r == Ok(villaList)
    {
      r := VillaActions.GetVillas(villaList);
    }

    /** GET api/VillaAPI/{id}: reads the list and changes nothing. */
    method GetVilla(id: Int32) returns (r: Outcome<Villa>)
      ensures r == VillaActions.GetVilla(villaList, id)
    {
      if id == 0 {
        return BadRequest;
      }
      var found := IndexOfId(villaList, id);
      if found.None? {
        return NotFound;
      }
      r := Ok(villaList[found.value]);
    }

    /** POST api/VillaAPI with a body that passed model validation. */
    method CreateVilla(body: Villa) returns (r: Outcome<Villa>)
      requires ValidVilla(body)
      modifies this
      ensures r == Create(old(villaList), body).outcome
      ensures villaList == Create(old(villaList), body).list
    {
      var scan := NameScan(villaList, ToLower(body.name.value));
      if scan == NullName {
        return Crashed;
      }
      if scan == Duplicate {
        return BadRequest;
      }
      if body.id > 0 {
        return ServerError;
      }
      if villaList == [] {
        return Crashed;
      }
      var created := body.(id := NextId(villaList));
      villaList := villaList + [created];
      r := Created(created);
    }

    /** DELETE api/VillaAPI/{id}. */
    method DeleteVilla(id: Int32) returns (r: Outcome<()>)
      modifies this
      ensures r == Delete(old(villaList), id).outcome
      ensures villaList == Delete(old(villaList), id).list
    {
      var found := IndexOfId(villaList, id);
      if found.None? {
        return NotFound;
      }
      var i := found.value;
      villaList := villaList[..i] + villaList[i + 1..];
      r := NoContent;
    }

    /** PUT api/VillaAPI/{id} with a body that passed model validation: the
        stored villa's Name, Occupancy and SqFt are assigned one by one. */
    method UpdateVilla(id: Int32, body: Villa) returns (r: Outcome<()>)
      requires ValidVilla(body)
      modifies this
      ensures r == Update(old(villaList), id, body).outcome
      ensures villaList == Update(old(villaList), id, body).list
    {
      if id < 1 || id != body.id {
        return BadRequest;
      }
      var found := IndexOfId(villaList, id);
      if found.None? {
        return Crashed;
      }
      var i := found.value;
      villaList := villaList[i := villaList[i].(name := body.name)];
      villaList := villaList[i := villaList[i].(occupancy := body.occupancy)];
      villaList := villaList[i := villaList[i].(sqFt := body.sqFt)];
      r := NoContent;
    }

    /** PATCH api/VillaAPI/{id}: `patch` is None for a null document and
        `modelStateValid` is the value of `ModelState.IsValid` after the patch. */
    method PartialUpdateVilla(id: Int32, patch: Option<seq<PatchOp>>, modelStateValid: bool) returns (r: Outcome<()>)
      modifies this
      ensures r == PartialUpdate(old(villaList), id, patch, modelStateValid).outcome
      ensures villaList == PartialUpdate(old(villaList), id, patch, modelStateValid).list
    {
      if id < 1 || patch.None? {
        return BadRequest;
      }
      var found := IndexOfId(villaList, id);
      if found.None? {
        return NotFound;
      }
      var i := found.value;
      villaList := villaList[i := ApplyPatch(villaList[i], patch.value)];
      if !modelStateValid {
        return BadRequest;
      }
      r := NoContent;
    }
  }
}
