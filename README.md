# MagicVilla villa API: a Dafny model

The villa API keeps every villa in one in-memory list, shared by all requests.
Its controller has six actions over that list:

- list all villas;
- get one villa by id;
- create a villa, which gets the largest stored id plus one;
- delete a villa;
- replace a villa's fields (PUT);
- patch a villa with a JSON Patch document (PATCH).

A villa (VillaDTO) has four fields: an `int` Id, a Name, an `int` Occupancy and
an `int` SqFt. Only Name is validated. It is `[Required]` and `[MaxLength(20)]`.

The model has four files:

- `VillaDto.dfy`: the record. It also has the validation predicate, C# `int`
  with unchecked wrap-around, null as `Option`, and the lower-casing used to
  compare names.
- `VillaActions.dfy`: each action as a function. The function takes the list
  before the request. It gives back the response and the list after it.
  LINQ `FirstOrDefault` and `OrderByDescending` are modelled here as
  `FirstIndex`, `IndexOfId`, `NameScan` and `MaxId`.
- `VillaProperties.dfy`: properties that span requests. These cover id and
  name uniqueness, lookups after a create, update or delete, and concrete lists
  on which the actions behave oddly.
- `VillaApiController.dfy`: the controller as a class. It owns `villaList`.
  Each action is a method proved equal to its function in VillaActions.

The responses are `Ok`, `Created`, `NoContent`, `BadRequest`, `NotFound`,
`ServerError` and `Crashed`. `ServerError` is the explicit `StatusCode(500)`.
`Crashed` is an unhandled `NullReferenceException`. The framework also answers
that with status 500.

The model follows the controller as written. One would expect ids and names to
stay unique, a patch to be all-or-nothing, the first villa to get id 1, and a
missing villa to give NotFound. The code differs in these ways:

- On an empty list, creating a villa dereferences `null` while allocating the
  id. The call crashes; the villa does not get id 1 (`CreateOnEmptyListCrashes`).
- The id is the largest id plus one, in unchecked 32-bit arithmetic. After
  `int.MaxValue` it wraps to `int.MinValue` and can repeat an existing id
  (`CreateAfterMaxIdDuplicatesId`).
- If every stored id is negative and the largest is -1, the new villa gets
  id 0. GetVilla then refuses that id (`CreateThenGet`).
- PUT on a missing id dereferences `null`, so it crashes instead of answering
  NotFound.
- PUT does not re-check names, so two villas can end up with the same name
  (`UpdateCanDuplicateName`).
- DELETE builds a BadRequest for ids below 1 but does not return it. Every id
  goes on to the lookup (`DeleteAcceptsIdZero`).
- PATCH changes the stored villa before it reads `ModelState.IsValid`. A
  BadRequest at that point keeps the change (`PatchKeptAfterBadRequest`).
- A patch may rewrite Id, so two villas can end up with the same id
  (`PatchCanDuplicateId`).
- A patch may set Name to null. After that, every create whose name matches
  no villa stored before the null one throws in the duplicate-name check,
  until that villa is renamed or deleted (`NullNameBlocksCreate`). A name that
  matches an earlier villa still gets BadRequest (`DuplicateBeforeNullName`).
- The duplicate-name check runs before the id check. A body that has a
  duplicate name and a preset id gets BadRequest, not status 500
  (`DuplicateNameBeforeIdCheck`).

## Model

| member | source | states |
|---|---|---|
| `VillaDto.Wrap32` | MagicVilla_VillaAPI/Controllers/VillaAPIController.cs:87 | unchecked `int` arithmetic: in-range values are kept, and the result is congruent to the input modulo 2^32 |
| `VillaDto.Required` | MagicVilla_VillaAPI/Models/Dto/VillaDTO.cs:9 | `[Required]` accepts a name exactly when it is not null and has a character that is not white space |
| `VillaDto.MaxLength20` | MagicVilla_VillaAPI/Models/Dto/VillaDTO.cs:10 | `[MaxLength(20)]` lets null through and accepts a string exactly when it has fewer than 21 characters |
| `VillaDto.ValidVilla` | MagicVilla_VillaAPI/Models/Dto/VillaDTO.cs:9-11 | a villa that passes validation has a non-null name of 1 to 20 characters |
| `VillaDto.ValidVillaName` | MagicVilla_VillaAPI/Models/Dto/VillaDTO.cs:9-11 | a villa is valid exactly when its Name is non-null, has 1 to 20 characters, and has at least one character that is not white space |
| `VillaDto.AllWhiteSpaceAt` | MagicVilla_VillaAPI/Models/Dto/VillaDTO.cs:9 | the white-space test of `[Required]` holds exactly when every character is white space |
| `VillaDto.ValidityIgnoresNumbers` | MagicVilla_VillaAPI/Models/Dto/VillaDTO.cs:7-13 | Id, Occupancy and SqFt take no part in validity; any `int` values are accepted |
| `VillaDto.LowerChar` | MagicVilla_VillaAPI/Controllers/VillaAPIController.cs:72 | an upper-case ASCII letter maps to its lower-case letter, every other character is unchanged, and no result is upper case |
| `VillaDto.ToLower` | MagicVilla_VillaAPI/Controllers/VillaAPIController.cs:72 | lower-casing keeps the length and lower-cases each character where it stands |
| `VillaDto.ToLowerIdempotent` | MagicVilla_VillaAPI/Controllers/VillaAPIController.cs:72 | lower-casing twice is the same as lower-casing once |
| `VillaDto.CaseOnlyDifferenceIgnored` | MagicVilla_VillaAPI/Controllers/VillaAPIController.cs:72 | two names that differ only in letter case count as the same name |
| `VillaActions.FirstIndex` | MagicVilla_VillaAPI/Controllers/VillaAPIController.cs:51 | `FirstOrDefault` finds an element that matches, with no match before it; None means nothing matches |
| `VillaActions.IndexOfId` | MagicVilla_VillaAPI/Controllers/VillaAPIController.cs:105 | finds the first villa with the id; None exactly when no villa has it |
| `VillaActions.NameScan` | MagicVilla_VillaAPI/Controllers/VillaAPIController.cs:72 | the duplicate-name query throws exactly when a null name comes before any match; it finds a duplicate exactly when a match comes before any null name; it finds nothing exactly when every name is non-null and different |
| `VillaActions.MaxId` | MagicVilla_VillaAPI/Controllers/VillaAPIController.cs:87 | on a non-empty list, the id of the first villa in descending id order is a stored id and no stored id is larger |
| `VillaActions.NextId` | MagicVilla_VillaAPI/Controllers/VillaAPIController.cs:87 | below `int.MaxValue` the new id is the largest id plus one and greater than every stored id; at `int.MaxValue` it wraps to `int.MinValue` |
| `VillaActions.ApplyOp` | MagicVilla_VillaAPI/Controllers/VillaAPIController.cs:147 | one operation sets the field it names to its value and leaves the other three fields as they were |
| `VillaActions.ApplyPatch` | MagicVilla_VillaAPI/Controllers/VillaAPIController.cs:147 | a field that no operation names keeps its value |
| `VillaActions.GetVillas` | MagicVilla_VillaAPI/Controllers/VillaAPIController.cs:30-36 | returns Ok with the whole list as it is |
| `VillaActions.GetVilla` | MagicVilla_VillaAPI/Controllers/VillaAPIController.cs:43-59 | id 0 is BadRequest before any lookup; any other id, negatives included, is NotFound exactly when no villa has it; otherwise it is Ok with the first villa that has it |
| `VillaActions.Create` | MagicVilla_VillaAPI/Controllers/VillaAPIController.cs:65-93 | the duplicate-name query walks the list once and the first villa that is null-named or has the same lower-cased name decides: a null name there crashes, a match is BadRequest; only when it finds neither, Id > 0 is ServerError, then an empty list crashes; every failure leaves the list unchanged; on success the list grows by one villa at the end, which is the body with id equal to the largest id plus one (wrapping at `int.MaxValue`) |
| `VillaActions.Delete` | MagicVilla_VillaAPI/Controllers/VillaAPIController.cs:99-112 | NotFound, with the list unchanged, exactly when no villa has the id (ids below 1 are not refused); otherwise NoContent, and exactly the first villa with that id is removed while the others keep their order |
| `VillaActions.Update` | MagicVilla_VillaAPI/Controllers/VillaAPIController.cs:117-130 | BadRequest exactly when id < 1 or id differs from the body's Id; crash exactly when no villa has the id; both leave the list unchanged; otherwise the first villa with that id becomes the body, keeping its id, and every other villa and the length are unchanged |
| `VillaActions.PartialUpdate` | MagicVilla_VillaAPI/Controllers/VillaAPIController.cs:135-154 | id < 1 or a null document is BadRequest, and a missing id is NotFound, both with the list unchanged; otherwise the first villa with that id is replaced by its patched form, and the answer is NoContent when the model state is valid and BadRequest when it is not (the change stays either way) |
| `VillaProperties.NextIdFresh` | MagicVilla_VillaAPI/Controllers/VillaAPIController.cs:87 | the new id differs from every stored id exactly when the increment does not wrap or no villa holds `int.MinValue` |
| `VillaProperties.CreatePreservesUniqueIds` | MagicVilla_VillaAPI/Controllers/VillaAPIController.cs:87-89 | if ids are unique and the id CreateVilla would allocate is held by no villa (the list is empty, the largest id is below `int.MaxValue`, or no villa holds `int.MinValue`), ids are still unique after CreateVilla |
| `VillaProperties.CreatePreservesUniqueNames` | MagicVilla_VillaAPI/Controllers/VillaAPIController.cs:72-89 | CreateVilla keeps names unique ignoring case; on success every stored name was non-null and different from the new one |
| `VillaProperties.CreateThenGet` | MagicVilla_VillaAPI/Controllers/VillaAPIController.cs:87-92 | after a successful create whose allocated id is fresh (the largest id is below `int.MaxValue` or no villa holds `int.MinValue`), GetVilla on the new id returns the body with that id, unless the id is 0 |
| `VillaProperties.DeleteRemovesOne` | MagicVilla_VillaAPI/Controllers/VillaAPIController.cs:105-110 | a successful delete takes exactly one villa with that id out of the multiset of villas |
| `VillaProperties.DeletePreservesUniqueIds` | MagicVilla_VillaAPI/Controllers/VillaAPIController.cs:105-110 | DeleteVilla keeps ids unique |
| `VillaProperties.DeletePreservesUniqueNames` | MagicVilla_VillaAPI/Controllers/VillaAPIController.cs:105-110 | DeleteVilla keeps names unique ignoring case |
| `VillaProperties.DeleteThenGet` | MagicVilla_VillaAPI/Controllers/VillaAPIController.cs:105-111 | with unique ids, GetVilla on the id after DeleteVilla is NotFound (BadRequest for id 0) |
| `VillaProperties.UpdatePreservesUniqueIds` | MagicVilla_VillaAPI/Controllers/VillaAPIController.cs:123-127 | UpdateVilla never changes an id, so it keeps ids unique |
| `VillaProperties.UpdateThenGet` | MagicVilla_VillaAPI/Controllers/VillaAPIController.cs:119-129 | after a successful update, GetVilla on the id returns the body |
| `VillaProperties.PartialUpdatePreservesUniqueIds` | MagicVilla_VillaAPI/Controllers/VillaAPIController.cs:140-147 | a patch with no operation on Id keeps ids unique, whatever the answer |
| `VillaProperties.ApplyPatchConcat` | MagicVilla_VillaAPI/Controllers/VillaAPIController.cs:147 | applying a document split in two is the same as applying its two halves one after the other |
| `VillaProperties.LastOperationWins` | MagicVilla_VillaAPI/Controllers/VillaAPIController.cs:147 | the last operation on a field sets that field's final value |
| `VillaProperties.AllocationFollowsMaximum` | MagicVilla_VillaAPI/Controllers/VillaAPIController.cs:87-89 | with ids {1, 2, 4}, the created villa gets id 5 and is appended |
| `VillaProperties.DuplicateNameBeforeIdCheck` | MagicVilla_VillaAPI/Controllers/VillaAPIController.cs:72-85 | "pool" duplicates "Pool", and a preset id does not turn that BadRequest into status 500 |
| `VillaProperties.CreateOnEmptyListCrashes` | MagicVilla_VillaAPI/Controllers/VillaAPIController.cs:87 | on an empty list, a valid body with Id <= 0 crashes and the list stays empty |
| `VillaProperties.CreateAfterMaxIdDuplicatesId` | MagicVilla_VillaAPI/Controllers/VillaAPIController.cs:87 | with ids `int.MinValue` and `int.MaxValue`, the new villa gets `int.MinValue` and ids stop being unique |
| `VillaProperties.NullNameBlocksCreate` | MagicVilla_VillaAPI/Controllers/VillaAPIController.cs:72 | a patch that removes Name stores null; on that one-villa list every valid create then crashes |
| `VillaProperties.DuplicateBeforeNullName` | MagicVilla_VillaAPI/Controllers/VillaAPIController.cs:72-75 | when a matching name comes before a null name, the query stops at the match and the create is BadRequest, not a crash |
| `VillaProperties.DeleteAcceptsIdZero` | MagicVilla_VillaAPI/Controllers/VillaAPIController.cs:101-110 | a villa stored with id 0 is deleted, and the answer is NoContent |
| `VillaProperties.UpdateCanDuplicateName` | MagicVilla_VillaAPI/Controllers/VillaAPIController.cs:119-127 | PUT can give a villa another villa's name in different case, so names stop being unique |
| `VillaProperties.PatchCanDuplicateId` | MagicVilla_VillaAPI/Controllers/VillaAPIController.cs:147 | a patch that sets Id to another villa's id makes ids no longer unique |
| `VillaProperties.PatchKeptAfterBadRequest` | MagicVilla_VillaAPI/Controllers/VillaAPIController.cs:147-150 | with an invalid model state, the answer is BadRequest and the patched occupancy stays stored |
| `VillaApi.VillaApiController.GetVillas` | MagicVilla_VillaAPI/Controllers/VillaAPIController.cs:30-36 | returns Ok with the controller's list and changes nothing |
| `VillaApi.VillaApiController.GetVilla` | MagicVilla_VillaAPI/Controllers/VillaAPIController.cs:43-59 | answers as `VillaActions.GetVilla` does on the current list and changes nothing |
| `VillaApi.VillaApiController.CreateVilla` | MagicVilla_VillaAPI/Controllers/VillaAPIController.cs:65-93 | the response and the new list are those of `VillaActions.Create` on the old list |
| `VillaApi.VillaApiController.DeleteVilla` | MagicVilla_VillaAPI/Controllers/VillaAPIController.cs:99-112 | the response and the new list are those of `VillaActions.Delete` on the old list |
| `VillaApi.VillaApiController.UpdateVilla` | MagicVilla_VillaAPI/Controllers/VillaAPIController.cs:117-130 | the three field assignments give the response and list of `VillaActions.Update` on the old list |
| `VillaApi.VillaApiController.PartialUpdateVilla` | MagicVilla_VillaAPI/Controllers/VillaAPIController.cs:135-154 | the in-place patch gives the response and list of `VillaActions.PartialUpdate` on the old list |

## Left out

- Logging through `ILogging` is an external sink. It does not affect the list.
- Routing, the response-type attributes, the URL that `CreatedAtRoute` builds
  and the `ActionResult` wrappers are framework glue. Only the response kind
  and its payload are kept.
- `JsonPatchDocument.ApplyTo` is a foreign library. Each patch operation is
  reduced to the field assignment it makes: `replace` and `add` set the field,
  and `remove` sets it to null or 0. The model leaves out operations on an
  unknown path or with a value of the wrong type (these throw inside the
  library), and the `test`, `move` and `copy` operations.
- The automatic model validation of `[ApiController]` is a precondition of
  CreateVilla and UpdateVilla: the body must be valid. Because of this, the
  body is never null, and the null check in CreateVilla (line 78) cannot
  fire. `ModelState.IsValid` in PartialUpdateVilla is a boolean input.
- `ToLower()` depends on the culture. The model lower-cases ASCII letters only.
- `[MaxLength(20)]` counts UTF-16 code units. The model counts characters, so
  the two differ for characters outside the Basic Multilingual Plane.
- The list is static and process-wide, and requests may touch it
  concurrently. The model gives the list to one controller object and runs
  requests one at a time. The seed data is in a file that is not part of this
  model, so the constructor takes it as a parameter.
- Villas are C# objects. The list, GetVilla's result and CreateVilla's body
  share references. The model treats villas as values, so it leaves out
  changes a caller could make through such a shared reference.
- CreatePreservesUniqueIds: requires the allocated id to be fresh, because
  after `int.MaxValue` it wraps and can repeat one
  (`CreateAfterMaxIdDuplicatesId`).
- CreateThenGet: requires the allocated id to be fresh, for the same reason;
  otherwise GetVilla finds the older villa with that id first.
- PartialUpdatePreservesUniqueIds: covers only patches with no operation on
  Id, because a patch can set any id (`PatchCanDuplicateId`).
