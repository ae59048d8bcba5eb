/** What the controller's actions promise about the villa list across requests:
    which invariants each action keeps, what a lookup sees after a change, and
    concrete lists on which the actions break the expectations that ids and
    names stay unique and that a refused request changes nothing (wrapped ids,
    duplicate names, a patch kept after BadRequest). */
module VillaProperties {
  import opened VillaDto
  import opened VillaActions

  /** No two villas share an id. */
  predicate UniqueIds(s: seq<Villa>)
  {
    forall i, j | 0 <= i < j < |s| :: s[i].id != s[j].id
  }

  /** No two villas have names that are equal ignoring case. */
  predicate UniqueNames(s: seq<Villa>)
  {
    forall i, j | 0 <= i < j < |s| ::
      s[i].name.Some? && s[j].name.Some? ==> ToLower(s[i].name.value) != ToLower(s[j].name.value)
  }

  /** The id the next CreateVilla allocates is held by no villa: the list is
      empty (the allocation then throws), or the increment of the largest id does
      not wrap, or it wraps onto `int.MinValue` and no villa holds that. */
  predicate FreshNextId(s: seq<Villa>)
  {
    s == [] || MaxId(s) < Int32Max || forall i | 0 <= i < |s| :: s[i].id != Int32Min
  }

  /** The allocated id is new exactly when the increment does not wrap or no
      villa already holds `int.MinValue`. */
  lemma NextIdFresh(s: seq<Villa>)
    requires s != []
    ensures (forall i | 0 <= i < |s| :: s[i].id != NextId(s)) <==>
            (MaxId(s) < Int32Max || forall i | 0 <= i < |s| :: s[i].id != Int32Min)
  {
  }

  /** A successful CreateVilla keeps ids unique whenever the id it allocates is
      fresh; CreateAfterMaxIdDuplicatesId below shows a list where it is not. */
  lemma CreatePreservesUniqueIds(s: seq<Villa>, body: Villa)
    requires ValidVilla(body) && UniqueIds(s) && FreshNextId(s)
    ensures UniqueIds(Create(s, body).list)
  {
    if s != [] {
      NextIdFresh(s);
    }
  }

  /** A successful CreateVilla keeps names unique ignoring case, and the name it
      stores is not null: the duplicate query has seen every stored name. */
  lemma CreatePreservesUniqueNames(s: seq<Villa>, body: Villa)
    requires ValidVilla(body) && UniqueNames(s)
    ensures UniqueNames(Create(s, body).list)
    ensures Create(s, body).outcome.Created? ==>
      forall i | 0 <= i < |s| :: s[i].name.Some? && !SameNameIgnoringCase(s[i].name.value, body.name.value)
  {
  }

  /** Create followed by Get on the allocated id returns the body with that id
      when the allocated id is fresh, unless it is 0 (every stored id was
      negative, the largest -1), which GetVilla refuses. */
  lemma CreateThenGet(s: seq<Villa>, body: Villa)
    requires ValidVilla(body) && FreshNextId(s)
    requires Create(s, body).outcome.Created?
    ensures var v := Create(s, body).outcome.value;
      v == body.(id := v.id) &&
      GetVilla(Create(s, body).list, v.id) == if v.id == 0 then BadRequest else Ok(v)
  {
    var r := Create(s, body);
    var v := r.outcome.value;
    NextIdFresh(s);
    assert r.list[|s|] == v;
    if v.id != 0 {
      assert forall j | 0 <= j < |s| :: r.list[j] == s[j] && r.list[j].id != v.id;
      var g := GetVilla(r.list, v.id);
      assert g != NotFound;
    }
  }

  /** Cutting position `i` out of a list takes exactly `s[i]` out of its multiset. */
  lemma MultisetRemoveAt(s: seq<Villa>, i: nat)
    requires i < |s|
    ensures multiset(s[..i] + s[i + 1..]) + multiset{s[i]} == multiset(s)
  {
    assert s == s[..i] + [s[i]] + s[i + 1..];
  }

  /** DeleteVilla removes exactly the villa it reports: the multiset of villas
      loses that one and nothing else. */
  lemma DeleteRemovesOne(s: seq<Villa>, id: Int32)
    requires Delete(s, id).outcome == NoContent
    ensures exists i | 0 <= i < |s| :: s[i].id == id && multiset(Delete(s, id).list) + multiset{s[i]} == multiset(s)
  {
    var i := IndexOfId(s, id).value;
    MultisetRemoveAt(s, i);
  }

  /** DeleteVilla keeps ids unique. */
  lemma DeletePreservesUniqueIds(s: seq<Villa>, id: Int32)
    requires UniqueIds(s)
    ensures UniqueIds(Delete(s, id).list)
  {
  }

  /** DeleteVilla keeps names unique ignoring case. */
  lemma DeletePreservesUniqueNames(s: seq<Villa>, id: Int32)
    requires UniqueNames(s)
    ensures UniqueNames(Delete(s, id).list)
  {
  }

  /** Once ids are unique, a successful or failed DeleteVilla leaves no villa
      with that id: GetVilla answers NotFound (BadRequest for id 0). */
  lemma DeleteThenGet(s: seq<Villa>, id: Int32)
    requires UniqueIds(s)
    ensures GetVilla(Delete(s, id).list, id) == if id == 0 then BadRequest else NotFound
  {
  }

  /** UpdateVilla never changes an id, so it keeps ids unique. */
  lemma UpdatePreservesUniqueIds(s: seq<Villa>, id: Int32, body: Villa)
    requires ValidVilla(body) && UniqueIds(s)
    ensures UniqueIds(Update(s, id, body).list)
  {
  }

  /** After a successful UpdateVilla, GetVilla on that id returns the body. */
  lemma UpdateThenGet(s: seq<Villa>, id: Int32, body: Villa)
    requires ValidVilla(body) && Update(s, id, body).outcome == NoContent
    ensures GetVilla(Update(s, id, body).list, id) == Ok(body)
  {
  }

  /** A patch without an operation on Id keeps ids unique, whether or not the
      request ends in BadRequest. */
  lemma PartialUpdatePreservesUniqueIds(s: seq<Villa>, id: Int32, ops: seq<PatchOp>, modelStateValid: bool)
    requires UniqueIds(s)
    requires forall k | 0 <= k < |ops| :: !ops[k].SetId?
    ensures UniqueIds(PartialUpdate(s, id, Some(ops), modelStateValid).list)
  {
  }

  /** `patchDoc.ApplyTo` runs the operations one after the other: a document
      split in two has the effect of its halves in turn. */
  lemma {:induction false} ApplyPatchConcat(v: Villa, a: seq<PatchOp>, b: seq<PatchOp>)
    ensures ApplyPatch(v, a + b) == ApplyPatch(ApplyPatch(v, a), b)
    decreases |a|
  {
    if a == [] {
      assert a + b == b;
    } else {
      assert (a + b)[0] == a[0] && (a + b)[1..] == a[1..] + b;
      ApplyPatchConcat(ApplyOp(v, a[0]), a[1..], b);
    }
  }

  /** The last operation of a document decides the property it names. */
  lemma LastOperationWins(v: Villa, ops: seq<PatchOp>, op: PatchOp)
    ensures var r := ApplyPatch(v, ops + [op]);
      match op
      case SetId(x) => r.id == x
      case SetName(n) => r.name == n
      case SetOccupancy(x) => r.occupancy == x
      case SetSqFt(x) => r.sqFt == x
  {
    ApplyPatchConcat(v, ops, [op]);
    assert ApplyPatch(ApplyPatch(v, ops), [op]) == ApplyOp(ApplyPatch(v, ops), op);
  }

  // Concrete lists on which ids or names stop being unique, a create throws,
  // or a refused request still changes the list.

  /** Ids {1, 2, 4}: the next villa gets 5, one more than the largest id, even
      though 3 is free. */
  lemma AllocationFollowsMaximum(s: seq<Villa>)
    requires s == [Villa(1, Some("Pool"), 4, 750), Villa(2, Some("Lake"), 2, 500), Villa(4, Some("Hut"), 2, 300)]
    ensures Create(s, Villa(0, Some("Cabin"), 3, 400)) ==
      Step(Created(Villa(5, Some("Cabin"), 3, 400)), s + [Villa(5, Some("Cabin"), 3, 400)])
  {
    assert MaxId(s[2..]) == 4 && MaxId(s[1..]) == 4;
    assert ToLower("Cabin") == "cabin";
    assert forall i | 0 <= i < |s| :: NameDiffers(s[i], "cabin");
  }

  /** A name that differs only in case is a duplicate, and the duplicate check
      comes before the id check: a body with a preset id is still a BadRequest. */
  lemma DuplicateNameBeforeIdCheck()
    ensures Create([Villa(1, Some("Pool"), 4, 750)], Villa(9, Some("pool"), 4, 750)) ==
      Step(BadRequest, [Villa(1, Some("Pool"), 4, 750)])
  {
    assert ToLower("Pool") == "pool" && ToLower("pool") == "pool";
  }

  /** On an empty list the id allocation dereferences null: the first villa
      cannot be created. */
  lemma CreateOnEmptyListCrashes(body: Villa)
    requires ValidVilla(body) && body.id <= 0
    ensures Create([], body) == Step(Crashed, [])
  {
  }

  /** With villas at `int.MinValue` and `int.MaxValue` the allocated id wraps to
      `int.MinValue` and two villas end up sharing it. */
  lemma CreateAfterMaxIdDuplicatesId()
    ensures var s := [Villa(Int32Min, Some("N"), 1, 1), Villa(Int32Max, Some("S"), 1, 1)];
      var r := Create(s, Villa(0, Some("E"), 1, 1));
      UniqueIds(s) && r.outcome == Created(Villa(Int32Min, Some("E"), 1, 1)) && !UniqueIds(r.list)
  {
    var s := [Villa(Int32Min, Some("N"), 1, 1), Villa(Int32Max, Some("S"), 1, 1)];
    var v := Villa(Int32Min, Some("E"), 1, 1);
    assert NextId(s) == Int32Min by {
      assert MaxId(s[1..]) == Int32Max;
    }
    assert NameScan(s, ToLower("E")) == NoClash by {
      assert ToLower("E") == "e" && ToLower("N") == "n" && ToLower("S") == "s";
    }
    assert Create(s, Villa(0, Some("E"), 1, 1)) == Step(Created(v), s + [v]);
    assert (s + [v])[0].id == (s + [v])[2].id;
  }

  /** A patch that removes Name stores a null name. On this one-villa list every
      valid CreateVilla then throws in the duplicate-name query; on a longer list
      it throws whenever its name matches no villa stored before the null one. */
  lemma NullNameBlocksCreate(body: Villa)
    requires ValidVilla(body)
    ensures var s := [Villa(1, Some("Pool View"), 4, 750)];
      var p := PartialUpdate(s, 1, Some([SetName(None)]), true);
      p == Step(NoContent, [Villa(1, None, 4, 750)]) && Create(p.list, body) == Step(Crashed, p.list)
  {
  }

  /** The duplicate-name query stops at the first match: a name equal to one
      stored before a null name is refused with BadRequest, not a crash. */
  lemma DuplicateBeforeNullName(s: seq<Villa>)
    requires s == [Villa(1, Some("Pool"), 4, 750), Villa(2, None, 2, 500)]
    ensures Create(s, Villa(0, Some("POOL"), 3, 400)) == Step(BadRequest, s)
  {
    assert ToLower("POOL") == "pool" && ToLower("Pool") == "pool";
  }

  /** DeleteVilla does not refuse ids below 1: a villa stored with id 0 is
      removed. */
  lemma DeleteAcceptsIdZero()
    ensures Delete([Villa(0, Some("Pool View"), 4, 750)], 0) == Step(NoContent, [])
  {
  }

  /** UpdateVilla does not check names: it can give a villa the name of another
      one, differing only in case. */
  lemma UpdateCanDuplicateName()
    ensures var s := [Villa(1, Some("Pool"), 4, 750), Villa(2, Some("Lake"), 2, 500)];
      var r := Update(s, 2, Villa(2, Some("POOL"), 2, 500));
      UniqueNames(s) && r.outcome == NoContent && !UniqueNames(r.list)
  {
  }

  /** A patch may rewrite Id, so PartialUpdateVilla can give two villas the same
      id. */
  lemma PatchCanDuplicateId()
    ensures var s := [Villa(1, Some("Pool View"), 4, 750), Villa(2, Some("Lake House"), 2, 500)];
      var r := PartialUpdate(s, 2, Some([SetId(1)]), true);
      UniqueIds(s) && r.outcome == NoContent && !UniqueIds(r.list)
  {
    var s := [Villa(1, Some("Pool View"), 4, 750), Villa(2, Some("Lake House"), 2, 500)];
    assert ApplyPatch(s[1], [SetId(1)]) == ApplyPatch(s[1].(id := 1), []);
    var r := PartialUpdate(s, 2, Some([SetId(1)]), true);
    assert r.list == [s[0], s[1].(id := 1)];
    assert r.list[0].id == r.list[1].id;
  }

  /** The patch is applied before `ModelState.IsValid` is read: when that check
      fails the response is BadRequest and the patched villa stays stored. */
  lemma PatchKeptAfterBadRequest()
    ensures var s := [Villa(2, Some("Lake House"), 2, 500)];
      PartialUpdate(s, 2, Some([SetOccupancy(10)]), false) == Step(BadRequest, [Villa(2, Some("Lake House"), 10, 500)])
  {
  }
}
