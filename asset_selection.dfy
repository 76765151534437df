/** The state machine of the asset-selection modal: a selection map toggled by
    card clicks and the select-all checkbox, a paginated buffer of search hits
    with its scroll guard, and a save dispatcher that turns the selection into
    the calls made for a data product, a glossary term or any other parent.
    Search responses, detail fetches and the outcome of writes are parameters;
    the calls made are returned as a trace. */
module AssetSelectionModal {
  import opened Wrappers

  // ---------------------------------------------------------------------
  // Entities
  // ---------------------------------------------------------------------

  /** The `_source` of a search hit. An empty `id` stands for a missing one:
      the source treats both as falsy. */
  datatype Asset = Asset(id: string, name: string, fqn: string, entityType: string,
                         description: string, displayName: string)

  /** An entity reference: a pointer to an entity by id, type and name. */
  datatype EntityRef = EntityRef(id: string, refType: string, name: string, fqn: string,
                                 description: string, displayName: string)

  /** The reference to a selected asset. */
  function RefOf(a: Asset): EntityRef {
    EntityRef(a.id, a.entityType, a.name, a.fqn, a.description, a.displayName)
  }

  /** The kind of parent the assets are attached to (`AssetsOfEntity`). */
  datatype AssetsOf = Glossary | Domain | DataProduct | OtherOwner

  datatype SearchIndex = DataAssetIndex | AllIndex

  /** A glossary term searches data assets only; every other parent searches all. */
  function InitialIndex(owner: AssetsOf): SearchIndex {
    if owner == Glossary then DataAssetIndex else AllIndex
  }

  /** A search response: the page's hits and the reported total, if any. */
  datatype SearchPage = SearchPage(hits: seq<Asset>, total: Option<int>)

  datatype FetchRequest = FetchRequest(searchText: string, page: int, index: SearchIndex)

  /** The loaded parent: a domain, data product or glossary term. */
  datatype ParentEntity = ParentEntity(id: string, name: string, fqn: string, description: string,
                                       displayName: string, assets: Option<seq<EntityRef>>)

  /** The fields of a fetched asset that a patch touches. */
  datatype AssetDetail = AssetDetail(fqn: string, dataProducts: Option<seq<EntityRef>>, domain: Option<EntityRef>)

  /** What a patch turns an asset into: the empty patch changes nothing. */
  datatype PatchTarget = EmptyPatch | Target(entity: AssetDetail)

  /** The externally visible calls a save makes, in order. */
  datatype Call =
    | PatchDataProduct(productId: string, assets: seq<EntityRef>)
    | AddAssetsToGlossaryTerm(termId: string, assets: seq<EntityRef>)
    | PatchAsset(assetId: string, entityType: string, target: PatchTarget)
    | SaveCallback
    | CancelCallback
    | ErrorToast

  // ---------------------------------------------------------------------
  // The selection map
  // ---------------------------------------------------------------------

  /** Asset id to the stored record; `None` is a stored `undefined`. */
  type Selection = map<string, Option<Asset>>

  /** `items.find(({ _source }) => _source.id === id)?._source`. */
  function Lookup(items: seq<Asset>, id: string): (r: Option<Asset>)
    ensures r.Some? ==> r.value.id == id && r.value in items
    ensures r.None? ==> forall i :: 0 <= i < |items| ==> items[i].id != id
  {
    if items == [] then None
    else if items[0].id == id then Some(items[0])
    else Lookup(items[1..], id)
  }

  /** The lookup returns the first loaded item with that id. */
  lemma {:induction false} LookupFindsFirst(items: seq<Asset>, id: string, i: nat)
    requires i < |items| && items[i].id == id
    requires forall j :: 0 <= j < i ==> items[j].id != id
    ensures Lookup(items, id) == Some(items[i])
  {
    if i > 0 {
      LookupFindsFirst(items[1..], id, i - 1);
    }
  }

  predicate HasUndefined(m: Selection) {
    exists k :: k in m && m[k].None?
  }

  /** Every defined record is stored under its own id. */
  ghost predicate KeyedById(m: Selection) {
    forall k :: k in m && m[k].Some? ==> m[k].value.id == k
  }

  predicate NoDuplicates(o: seq<string>) {
    forall i, j :: 0 <= i < j < |o| ==> o[i] != o[j]
  }

  /** The selection after a click on `id`: a selected id is removed, an
      unselected one is added with whatever the lookup finds. */
  function Toggled(m: Selection, id: string, items: seq<Asset>): (r: Selection)
    ensures id in m ==> r.Keys == m.Keys - {id}
    ensures id !in m ==> r.Keys == m.Keys + {id} && r[id] == Lookup(items, id)
    ensures forall k :: k in m && k != id ==> k in r && r[k] == m[k]
  {
    if id in m then m - {id} else m[id := Lookup(items, id)]
  }

  /** `o` without `x`, order kept. */
  function Without(o: seq<string>, x: string): (r: seq<string>)
    ensures forall k :: k in r <==> k in o && k != x
    ensures NoDuplicates(o) ==> NoDuplicates(r)
    ensures SubsequenceOf(r, o)
  {
    if o == [] then []
    else
      var prefix := o[..|o| - 1];
      assert o == prefix + [o[|o| - 1]];
      assert forall k :: k in o <==> k in prefix || k == o[|o| - 1];
      assert NoDuplicates(o) ==> NoDuplicates(prefix) && o[|o| - 1] !in prefix;
      var kept := Without(prefix, x);
      var last := o[|o| - 1];
      SubsequenceExtend(kept, prefix, last);
      if last == x then
        assert SubsequenceOf(kept, o);
        kept
      else
        assert SubsequenceOf(kept + [last], o);
        kept + [last]
  }

  /** The insertion order after a click on `id`. */
  function ToggledOrder(o: seq<string>, id: string): (r: seq<string>)
    ensures forall k :: k in r <==> if k == id then id !in o else k in o
    ensures NoDuplicates(o) ==> NoDuplicates(r)
    ensures id !in o ==> |r| == |o| + 1 && r[..|o|] == o
    ensures id in o ==> SubsequenceOf(r, o)
  {
    if id in o then Without(o, id) else o + [id]
  }

  /** Clicking the same card twice gives back the same set of selected ids,
      on the inputs where both clicks complete: no stored `undefined` to begin
      with, and the id is either selected or carried by a loaded item (a miss
      stores `undefined`, and the second click then throws, see
      `MissStoresUndefined` and `Modal.HandleCardClick`). */
  lemma ToggleTwiceRestoresKeys(m: Selection, id: string, items: seq<Asset>)
    requires !HasUndefined(m)
    requires id in m || Lookup(items, id).Some?
    ensures !HasUndefined(Toggled(m, id, items))
    ensures Toggled(Toggled(m, id, items), id, items).Keys == m.Keys
    ensures id !in m ==> Toggled(Toggled(m, id, items), id, items) == m
    ensures id in m && m[id] == Lookup(items, id) ==> Toggled(Toggled(m, id, items), id, items) == m
  {
  }

  /** A click on an id the loaded items do not hold stores `undefined`. */
  lemma MissStoresUndefined(m: Selection, id: string, items: seq<Asset>)
    requires id !in m
    requires forall i :: 0 <= i < |items| ==> items[i].id != id
    ensures HasUndefined(Toggled(m, id, items))
  {
    assert Toggled(m, id, items)[id] == None;
  }

  /** The ids of the loaded items that select-all stores. */
  ghost function IdsOf(items: seq<Asset>): set<string> {
    set i | 0 <= i < |items| && items[i].id != "" :: items[i].id
  }

  /** The selection after select-all(true): every loaded item with an id is
      stored under it, later items overriding earlier ones. */
  function SelectedAll(m: Selection, items: seq<Asset>): (r: Selection)
    ensures r.Keys == m.Keys + IdsOf(items)
  {
    if items == [] then m
    else
      var prefix := items[..|items| - 1];
      var a := items[|items| - 1];
      assert forall i :: 0 <= i < |prefix| ==> prefix[i] == items[i];
      if a.id != "" then SelectedAll(m, prefix)[a.id := Some(a)] else SelectedAll(m, prefix)
  }

  /** The insertion order after select-all(true): new ids are appended in the
      order of their first loaded item; a re-set id keeps its place. */
  function OrderAfterSelectAll(o: seq<string>, items: seq<Asset>): (r: seq<string>)
    ensures |o| <= |r| && r[..|o|] == o
    ensures forall k :: k in r <==> k in o || k in IdsOf(items)
  {
    if items == [] then o
    else
      var prefix := items[..|items| - 1];
      var o' := OrderAfterSelectAll(o, prefix);
      var a := items[|items| - 1];
      assert forall i :: 0 <= i < |prefix| ==> prefix[i] == items[i];
      assert IdsOf(items) == IdsOf(prefix) + (if a.id != "" then {a.id} else {});
      if a.id != "" && a.id !in o' then o' + [a.id] else o'
  }

  /** Select-all stores a loaded item under each loaded id and keeps every
      other entry. */
  lemma {:induction false} SelectAllStoresLoadedItems(m: Selection, items: seq<Asset>)
    ensures forall k :: k in IdsOf(items) ==>
      SelectedAll(m, items)[k].Some? && SelectedAll(m, items)[k].value.id == k && SelectedAll(m, items)[k].value in items
    ensures forall k :: k in m && k !in IdsOf(items) ==> SelectedAll(m, items)[k] == m[k]
  {
    if items != [] {
      var prefix := items[..|items| - 1];
      SelectAllStoresLoadedItems(m, prefix);
      assert forall i :: 0 <= i < |prefix| ==> prefix[i] == items[i];
      assert IdsOf(items) == IdsOf(prefix) + (if items[|items| - 1].id != "" then {items[|items| - 1].id} else {});
    }
  }

  /** The record stored for an id is the last loaded item with that id. */
  lemma {:induction false} SelectAllLastItemWins(m: Selection, items: seq<Asset>, i: nat)
    requires i < |items| && items[i].id != ""
    requires forall j :: i < j < |items| ==> items[j].id != items[i].id
    ensures SelectedAll(m, items)[items[i].id] == Some(items[i])
  {
    var prefix := items[..|items| - 1];
    if i < |items| - 1 {
      assert forall j :: i < j < |prefix| ==> prefix[j] == items[j];
      SelectAllLastItemWins(m, prefix, i);
    }
  }

  /** The order after select-all lists exactly the selected ids, once each. */
  lemma {:induction false} OrderAfterSelectAllMatches(m: Selection, o: seq<string>, items: seq<Asset>)
    requires forall k :: k in m <==> k in o
    requires NoDuplicates(o)
    ensures forall k :: k in SelectedAll(m, items) <==> k in OrderAfterSelectAll(o, items)
    ensures NoDuplicates(OrderAfterSelectAll(o, items))
  {
    if items != [] {
      OrderAfterSelectAllMatches(m, o, items[..|items| - 1]);
    }
  }

  /** Loaded items with distinct ids that are all new are appended in the
      order they were loaded. */
  lemma {:induction false} SelectAllAppendsInLoadOrder(o: seq<string>, items: seq<Asset>)
    requires forall i :: 0 <= i < |items| ==> items[i].id != "" && items[i].id !in o
    requires forall i, j :: 0 <= i < j < |items| ==> items[i].id != items[j].id
    ensures OrderAfterSelectAll(o, items) == o + seq(|items|, i requires 0 <= i < |items| => items[i].id)
  {
    if items != [] {
      var prefix := items[..|items| - 1];
      var a := items[|items| - 1];
      assert forall i :: 0 <= i < |prefix| ==> prefix[i] == items[i];
      SelectAllAppendsInLoadOrder(o, prefix);
      var o' := OrderAfterSelectAll(o, prefix);
      assert o' == o + seq(|prefix|, i requires 0 <= i < |prefix| => prefix[i].id);
      assert a.id !in o';
      assert o' + [a.id] == o + seq(|items|, i requires 0 <= i < |items| => items[i].id);
    }
  }

  /** The selected records in insertion order (`selectedItems.values()`). */
  function OrderedValues(m: Selection, o: seq<string>): (r: seq<Option<Asset>>)
    requires forall i :: 0 <= i < |o| ==> o[i] in m
    ensures |r| == |o|
    ensures forall i :: 0 <= i < |o| ==> r[i] == m[o[i]]
  {
    seq(|o|, i requires 0 <= i < |o| => m[o[i]])
  }

  // ---------------------------------------------------------------------
  // The paginated buffer
  // ---------------------------------------------------------------------

  /** The items after a successful fetch of `page`: page 1 replaces them,
      any later page appends. */
  function NextItems(items: seq<Asset>, page: int, hits: seq<Asset>): (r: seq<Asset>)
    ensures |r| >= |hits| && r[|r| - |hits|..] == hits
    ensures page == 1 ==> r == hits
    ensures page != 1 ==> |r| == |items| + |hits| && r[..|items|] == items
  {
    if page == 1 then hits else items + hits
  }

  function Concat(pages: seq<seq<Asset>>): seq<Asset> {
    if pages == [] then [] else Concat(pages[..|pages| - 1]) + pages[|pages| - 1]
  }

  /** The items after the responses to pages 1, 2, ... arrive in order. */
  function ItemsAfterPages(items: seq<Asset>, pages: seq<seq<Asset>>): seq<Asset> {
    if pages == [] then items
    else NextItems(ItemsAfterPages(items, pages[..|pages| - 1]), |pages|, pages[|pages| - 1])
  }

  /** A fresh search followed by scrolls holds every fetched page's hits, in
      order, whatever the buffer held before. */
  lemma {:induction false} PagesAccumulate(items: seq<Asset>, pages: seq<seq<Asset>>)
    requires pages != []
    ensures ItemsAfterPages(items, pages) == Concat(pages)
  {
    var prefix := pages[..|pages| - 1];
    if prefix == [] {
      assert Concat(pages) == Concat(prefix) + pages[0];
    } else {
      PagesAccumulate(items, prefix);
    }
  }

  // ---------------------------------------------------------------------
  // Saving
  // ---------------------------------------------------------------------

  /** The references of the selected records; `None` when one is
      `undefined`, whose `entityType` the source reads and throws on. */
  function Refs(values: seq<Option<Asset>>): (r: Option<seq<EntityRef>>)
    ensures r.Some? <==> forall i :: 0 <= i < |values| ==> values[i].Some?
    ensures r.Some? ==> |r.value| == |values| && forall i :: 0 <= i < |values| ==> r.value[i] == RefOf(values[i].value)
  {
    if values == [] then Some([])
    else if values[0].None? then None
    else match Refs(values[1..])
      case None => None
      case Some(rest) => Some([RefOf(values[0].value)] + rest)
  }

  predicate HasId(refs: seq<EntityRef>, id: string) {
    exists i :: 0 <= i < |refs| && refs[i].id == id
  }

  predicate UniqueIds(refs: seq<EntityRef>) {
    forall i, j :: 0 <= i < j < |refs| ==> refs[i].id != refs[j].id
  }

  /** `a` is `b` with some elements left out, order kept. */
  predicate SubsequenceOf<T(==)>(a: seq<T>, b: seq<T>)
    decreases |b|
  {
    if a == [] then true
    else if b == [] then false
    else if a[0] == b[0] then SubsequenceOf(a[1..], b[1..])
    else SubsequenceOf(a, b[1..])
  }

  /** A subsequence survives appending to the sequence, with or without
      appending the same element to the subsequence. */
  lemma {:induction false} SubsequenceExtend<T>(a: seq<T>, b: seq<T>, x: T)
    requires SubsequenceOf(a, b)
    ensures SubsequenceOf(a, b + [x])
    ensures SubsequenceOf(a + [x], b + [x])
    decreases |b|
  {
    if b == [] {
      assert a == [];
      assert [x][1..] == [];
    } else {
      assert (b + [x])[0] == b[0] && (b + [x])[1..] == b[1..] + [x];
      if a == [] {
        SubsequenceExtend(a, b[1..], x);
        assert a + [x] == [x] && [x][1..] == [];
      } else {
        assert (a + [x])[0] == a[0] && (a + [x])[1..] == a[1..] + [x];
        if a[0] == b[0] {
          SubsequenceExtend(a[1..], b[1..], x);
        } else {
          SubsequenceExtend(a, b[1..], x);
        }
      }
    }
  }

  /** The selected references whose id is not among the parent's assets. */
  function NewRefs(refs: seq<EntityRef>, existing: seq<EntityRef>): (r: seq<EntityRef>)
    ensures forall x :: x in r <==> x in refs && !HasId(existing, x.id)
    ensures SubsequenceOf(r, refs)
  {
    if refs == [] then []
    else if HasId(existing, refs[0].id) then
      var rest := NewRefs(refs[1..], existing);
      assert rest != [] ==> rest[0] != refs[0];
      rest
    else [refs[0]] + NewRefs(refs[1..], existing)
  }

  function ExistingAssets(p: ParentEntity): seq<EntityRef> {
    p.assets.GetOr([])
  }

  /** The calls of `dataProductsSave`; `writeOk` is whether the patch request
      succeeds. With nothing new, `onCancel` runs twice: once explicitly and
      once in the `finally` block. */
  function DataProductSaveTrace(active: Option<ParentEntity>, values: seq<Option<Asset>>, writeOk: bool): (r: seq<Call>)
    ensures |r| > 0 && r[|r| - 1] == CancelCallback
    ensures active.None? ==> r == [CancelCallback]
    ensures active.Some? && Refs(values).None? ==> r == [ErrorToast, CancelCallback]
    ensures r[0].PatchDataProduct? <==>
      active.Some? && Refs(values).Some? && NewRefs(Refs(values).value, ExistingAssets(active.value)) != []
    ensures r[0].PatchDataProduct? ==>
      r[0] == PatchDataProduct(active.value.id,
                               ExistingAssets(active.value) + NewRefs(Refs(values).value, ExistingAssets(active.value)))
    ensures forall i :: 1 <= i < |r| ==> !r[i].PatchDataProduct?
    ensures active.Some? && Refs(values).Some? && NewRefs(Refs(values).value, ExistingAssets(active.value)) == [] ==>
      r == [SaveCallback, CancelCallback, CancelCallback]
    ensures active.Some? && Refs(values).Some? && NewRefs(Refs(values).value, ExistingAssets(active.value)) != [] ==>
      |r| == 3 && r[1] == (if writeOk then SaveCallback else ErrorToast)
  {
    if active.None? then [CancelCallback]
    else match Refs(values)
      case None => [ErrorToast, CancelCallback]
      case Some(refs) =>
        var existing := ExistingAssets(active.value);
        var added := NewRefs(refs, existing);
        if added == [] then [SaveCallback, CancelCallback, CancelCallback]
        else [PatchDataProduct(active.value.id, existing + added)] + (if writeOk then [SaveCallback] else [ErrorToast]) + [CancelCallback]
  }

  lemma {:induction false} NewRefsUnique(refs: seq<EntityRef>, existing: seq<EntityRef>)
    requires UniqueIds(refs)
    ensures UniqueIds(NewRefs(refs, existing))
  {
    if refs != [] {
      var rest := refs[1..];
      assert UniqueIds(rest) by {
        forall i, j | 0 <= i < j < |rest| ensures rest[i].id != rest[j].id {
          assert rest[i] == refs[i + 1] && rest[j] == refs[j + 1];
        }
      }
      NewRefsUnique(rest, existing);
      var tail := NewRefs(rest, existing);
      if !HasId(existing, refs[0].id) {
        forall x | x in tail ensures x.id != refs[0].id {
          var k :| 0 <= k < |rest| && rest[k] == x;
          assert refs[k + 1] == x;
        }
        assert NewRefs(refs, existing) == [refs[0]] + tail;
      }
    }
  }

  /** When the parent's assets and the selection each have distinct ids, so
      does the patched asset list: no asset is attached twice. */
  lemma DataProductTargetUniqueIds(refs: seq<EntityRef>, existing: seq<EntityRef>)
    requires UniqueIds(refs) && UniqueIds(existing)
    ensures UniqueIds(existing + NewRefs(refs, existing))
  {
    var added := NewRefs(refs, existing);
    NewRefsUnique(refs, existing);
    var all := existing + added;
    forall i, j | 0 <= i < j < |all| ensures all[i].id != all[j].id {
      if j >= |existing| && i < |existing| {
        assert all[j] == added[j - |existing|];
        assert added[j - |existing|] in added;
        assert !HasId(existing, all[j].id);
      }
    }
  }

  /** Saving the same selection again to the patched data product sends no
      patch: the dedupe finds every reference already present. */
  lemma DataProductSaveIdempotent(active: ParentEntity, values: seq<Option<Asset>>, writeOk: bool)
    requires Refs(values).Some?
    ensures var patched := ExistingAssets(active) + NewRefs(Refs(values).value, ExistingAssets(active));
      DataProductSaveTrace(Some(active.(assets := Some(patched))), values, writeOk)
        == [SaveCallback, CancelCallback, CancelCallback]
  {
    var refs := Refs(values).value;
    var existing := ExistingAssets(active);
    var added := NewRefs(refs, existing);
    var patched := existing + added;
    var again := NewRefs(refs, patched);
    forall x | x in refs ensures HasId(patched, x.id) {
      if HasId(existing, x.id) {
        var k :| 0 <= k < |existing| && existing[k].id == x.id;
        assert patched[k] == existing[k];
      } else {
        var k :| 0 <= k < |added| && added[k] == x;
        assert patched[|existing| + k] == x;
      }
    }
    NothingNew(refs, patched);
    assert ExistingAssets(active.(assets := Some(patched))) == patched;
  }

  /** References whose ids are all present already add nothing. */
  lemma {:induction false} NothingNew(refs: seq<EntityRef>, existing: seq<EntityRef>)
    requires forall x :: x in refs ==> HasId(existing, x.id)
    ensures NewRefs(refs, existing) == []
  {
    if refs != [] {
      assert refs[0] in refs;
      NothingNew(refs[1..], existing);
    }
  }

  /** The calls of `glossarySave`: one bulk request with every selected
      reference; `writeOk` is whether it succeeds. */
  function GlossarySaveTrace(active: Option<ParentEntity>, values: seq<Option<Asset>>, writeOk: bool): (r: seq<Call>)
    ensures |r| > 0 && r[|r| - 1] == CancelCallback
    ensures active.None? ==> r == [CancelCallback]
    ensures active.Some? && Refs(values).None? ==> r == [ErrorToast, CancelCallback]
    ensures active.Some? && Refs(values).Some? ==>
      r[0] == AddAssetsToGlossaryTerm(active.value.id, Refs(values).value) && |r[0].assets| == |values|
    ensures active.Some? && Refs(values).Some? ==>
      |r| == 3 && r[1] == (if writeOk then SaveCallback else ErrorToast)
    ensures forall i :: 1 <= i < |r| ==> !r[i].AddAssetsToGlossaryTerm?
  {
    if active.None? then [CancelCallback]
    else match Refs(values)
      case None => [ErrorToast, CancelCallback]
      case Some(refs) =>
        [AddAssetsToGlossaryTerm(active.value.id, refs)] + (if writeOk then [SaveCallback] else [ErrorToast]) + [CancelCallback]
  }

  /** The reference to the parent that `getJsonPatchObject` attaches. */
  function ParentRef(p: ParentEntity, refType: string): EntityRef {
    EntityRef(p.id, refType, p.name, p.fqn, p.description, p.displayName)
  }

  /** `getJsonPatchObject`: the asset as the patch leaves it. A data-product
      parent is appended to `dataProducts`; any other becomes the `domain`.
      Without a loaded parent the patch is empty. */
  function JsonPatchTarget(owner: AssetsOf, active: Option<ParentEntity>, entity: AssetDetail): (r: PatchTarget)
    ensures r.EmptyPatch? <==> active.None?
    ensures r.Target? ==> r.entity.fqn == entity.fqn
    ensures r.Target? && owner == DataProduct ==>
      r.entity.domain == entity.domain
      && r.entity.dataProducts == Some(entity.dataProducts.GetOr([]) + [ParentRef(active.value, "dataProduct")])
    ensures r.Target? && owner != DataProduct ==>
      r.entity.dataProducts == entity.dataProducts && r.entity.domain == Some(ParentRef(active.value, "domain"))
  {
    match active
    case None => EmptyPatch
    case Some(p) =>
      if owner == DataProduct then
        Target(entity.(dataProducts := Some(entity.dataProducts.GetOr([]) + [ParentRef(p, "dataProduct")])))
      else
        Target(entity.(domain := Some(ParentRef(p, "domain"))))
  }

  /** The fulfilled detail fetches keyed by the fetched entity's name; a later
      response for the same name wins. */
  function FetchedByFqn(details: seq<Option<AssetDetail>>): (r: map<string, AssetDetail>)
    ensures forall k :: k in r ==> r[k].fqn == k
    ensures forall i :: 0 <= i < |details| && details[i].Some? ==> details[i].value.fqn in r
    ensures forall k :: k in r ==> exists i :: 0 <= i < |details| && details[i] == Some(r[k])
  {
    if details == [] then map[]
    else
      var prefix := details[..|details| - 1];
      assert forall i :: 0 <= i < |prefix| ==> prefix[i] == details[i];
      var last := details[|details| - 1];
      if last.Some? then FetchedByFqn(prefix)[last.value.fqn := last.value] else FetchedByFqn(prefix)
  }

  /** The response stored under a name is the last fulfilled fetch of it. */
  lemma {:induction false} FetchedByFqnLastWins(details: seq<Option<AssetDetail>>, i: nat)
    requires i < |details| && details[i].Some?
    requires forall j :: i < j < |details| && details[j].Some? ==> details[j].value.fqn != details[i].value.fqn
    ensures FetchedByFqn(details)[details[i].value.fqn] == details[i].value
  {
    var prefix := details[..|details| - 1];
    if i < |details| - 1 {
      assert forall j :: i < j < |prefix| ==> prefix[j] == details[j];
      FetchedByFqnLastWins(prefix, i);
    }
  }

  /** One patch for each selected asset whose name is among the fetched ones,
      and none at all without a loaded parent. */
  function PatchCalls(owner: AssetsOf, active: Option<ParentEntity>, values: seq<Option<Asset>>,
                      fetched: map<string, AssetDetail>): (r: seq<Call>)
    ensures |r| <= |values|
    ensures forall i :: 0 <= i < |r| ==> r[i].PatchAsset?
  {
    if values == [] then []
    else
      var last := values[|values| - 1];
      PatchCalls(owner, active, values[..|values| - 1], fetched)
      + if last.Some? && last.value.fqn in fetched && active.Some? then
          [PatchAsset(last.value.id, last.value.entityType, JsonPatchTarget(owner, active, fetched[last.value.fqn]))]
        else []
  }

  /** The calls of the general save path: fetch every selected asset's
      details (`details[i]` is the outcome for the `i`-th), patch those that
      came back, then report; `writeOk` is whether all patches succeed. */
  function AssetSaveTrace(owner: AssetsOf, active: Option<ParentEntity>, values: seq<Option<Asset>>,
                          details: seq<Option<AssetDetail>>, writeOk: bool): (r: seq<Call>)
    requires |details| == |values|
    ensures |r| > 0 && r[|r| - 1] == CancelCallback
    ensures Refs(values).None? ==> r == [ErrorToast, CancelCallback]
    ensures Refs(values).Some? ==>
      var patches := PatchCalls(owner, active, values, FetchedByFqn(details));
      |r| == |patches| + 2 && r[..|patches|] == patches
      && r[|r| - 2] == (if patches == [] || writeOk then SaveCallback else ErrorToast)
  {
    if Refs(values).None? then [ErrorToast, CancelCallback]
    else
      var patches := PatchCalls(owner, active, values, FetchedByFqn(details));
      patches + (if patches == [] || writeOk then [SaveCallback] else [ErrorToast]) + [CancelCallback]
  }

  lemma {:induction false} PatchCallsWithoutParent(owner: AssetsOf, values: seq<Option<Asset>>, fetched: map<string, AssetDetail>)
    ensures PatchCalls(owner, None, values, fetched) == []
  {
    if values != [] {
      PatchCallsWithoutParent(owner, values[..|values| - 1], fetched);
    }
  }

  lemma {:induction false} PatchCallsCover(owner: AssetsOf, active: Option<ParentEntity>, values: seq<Option<Asset>>,
                                           fetched: map<string, AssetDetail>, i: nat)
    requires i < |values| && values[i].Some? && values[i].value.fqn in fetched && active.Some?
    ensures PatchAsset(values[i].value.id, values[i].value.entityType,
                       JsonPatchTarget(owner, active, fetched[values[i].value.fqn])) in PatchCalls(owner, active, values, fetched)
  {
    if i < |values| - 1 {
      var prefix := values[..|values| - 1];
      assert prefix[i] == values[i];
      PatchCallsCover(owner, active, prefix, fetched, i);
    }
  }

  lemma {:induction false} PatchCallsOnlyFetched(owner: AssetsOf, active: Option<ParentEntity>, values: seq<Option<Asset>>,
                                                 fetched: map<string, AssetDetail>, c: Call)
    requires c in PatchCalls(owner, active, values, fetched)
    ensures active.Some? && c.PatchAsset?
    ensures exists i :: 0 <= i < |values| && values[i].Some? && values[i].value.id == c.assetId
                        && values[i].value.fqn in fetched
                        && c.target == JsonPatchTarget(owner, active, fetched[values[i].value.fqn])
  {
    var prefix := values[..|values| - 1];
    var last := values[|values| - 1];
    if c in PatchCalls(owner, active, prefix, fetched) {
      PatchCallsOnlyFetched(owner, active, prefix, fetched, c);
      var i :| 0 <= i < |prefix| && prefix[i].Some? && prefix[i].value.id == c.assetId
               && prefix[i].value.fqn in fetched && c.target == JsonPatchTarget(owner, active, fetched[prefix[i].value.fqn]);
      assert values[i] == prefix[i];
    } else {
      assert values[|values| - 1] == last;
    }
  }

  /** Best effort: a selected asset whose own detail fetch succeeded is
      patched whatever happened to the other fetches. */
  lemma AssetSaveBestEffort(owner: AssetsOf, active: ParentEntity, values: seq<Option<Asset>>,
                            details: seq<Option<AssetDetail>>, writeOk: bool, i: nat)
    requires |details| == |values| && Refs(values).Some?
    requires i < |values| && details[i].Some? && details[i].value.fqn == values[i].value.fqn
    ensures PatchAsset(values[i].value.id, values[i].value.entityType,
                       JsonPatchTarget(owner, Some(active), FetchedByFqn(details)[values[i].value.fqn]))
            in AssetSaveTrace(owner, Some(active), values, details, writeOk)
  {
    PatchCallsCover(owner, Some(active), values, FetchedByFqn(details), i);
  }

  /** A patch goes only to a selected asset whose details were fetched, and
      only when a parent is loaded; without one, no patch is sent and the
      save reports success. */
  lemma AssetSavePatchesOnlyFetched(owner: AssetsOf, active: Option<ParentEntity>, values: seq<Option<Asset>>,
                                    details: seq<Option<AssetDetail>>, writeOk: bool, c: Call)
    requires |details| == |values|
    requires c in AssetSaveTrace(owner, active, values, details, writeOk) && c.PatchAsset?
    ensures active.Some?
    ensures exists i, j :: 0 <= i < |values| && 0 <= j < |details| && values[i].Some? && details[j].Some?
                           && values[i].value.id == c.assetId && details[j].value.fqn == values[i].value.fqn
  {
    var fetched := FetchedByFqn(details);
    var patches := PatchCalls(owner, active, values, fetched);
    assert c in patches;
    PatchCallsOnlyFetched(owner, active, values, fetched, c);
    var i :| 0 <= i < |values| && values[i].Some? && values[i].value.id == c.assetId && values[i].value.fqn in fetched
             && c.target == JsonPatchTarget(owner, active, fetched[values[i].value.fqn]);
    var j :| 0 <= j < |details| && details[j] == Some(fetched[values[i].value.fqn]);
    assert details[j].value.fqn == values[i].value.fqn;
  }

  lemma AssetSaveWithoutParent(owner: AssetsOf, values: seq<Option<Asset>>, details: seq<Option<AssetDetail>>, writeOk: bool)
    requires |details| == |values| && Refs(values).Some?
    ensures AssetSaveTrace(owner, None, values, details, writeOk) == [SaveCallback, CancelCallback]
  {
    PatchCallsWithoutParent(owner, values, FetchedByFqn(details));
  }

  /** `handleSave`: the save strategy is chosen by the parent's type, and
      `onCancel` closes the modal last on every path. */
  function SaveTrace(owner: AssetsOf, active: Option<ParentEntity>, values: seq<Option<Asset>>,
                     details: seq<Option<AssetDetail>>, writeOk: bool): (r: seq<Call>)
    requires |details| == |values|
    ensures |r| > 0 && r[|r| - 1] == CancelCallback
    ensures (owner == DataProduct || owner == Glossary) && active.None? ==> r == [CancelCallback]
    ensures Refs(values).None? && (active.Some? || owner == Domain || owner == OtherOwner) ==>
      r == [ErrorToast, CancelCallback]
    ensures owner == DataProduct ==> r == DataProductSaveTrace(active, values, writeOk)
    ensures owner == Glossary ==> r == GlossarySaveTrace(active, values, writeOk)
    ensures owner != DataProduct && owner != Glossary ==> r == AssetSaveTrace(owner, active, values, details, writeOk)
  {
    match owner
    case DataProduct => DataProductSaveTrace(active, values, writeOk)
    case Glossary => GlossarySaveTrace(active, values, writeOk)
    case _ => AssetSaveTrace(owner, active, values, details, writeOk)
  }

  /** The map rebuild inside `handleCardClick`: every previous record is
      copied under its own `id`, except the clicked one when it was selected;
      an unselected clicked id is then added with what the lookup finds.
      Reading the `id` of an `undefined` record throws (`ok` false). */
  method RebuildSelection(m: Selection, o: seq<string>, id: string, items: seq<Asset>)
    returns (ok: bool, rebuilt: Selection, rebuiltOrder: seq<string>)
    requires forall k :: k in m <==> k in o
    requires NoDuplicates(o) && KeyedById(m)
    ensures ok <==> !HasUndefined(m)
    ensures ok ==> rebuilt == Toggled(m, id, items) && rebuiltOrder == ToggledOrder(o, id)
  {
    var removing := id in m;
    ok, rebuilt, rebuiltOrder := CopyRecords(m, o, id, removing);
    if !ok {
      return;
    }
    KeptOfDistinct(o, id, removing);
    if removing {
      assert rebuilt == m - {id} by {
        assert rebuilt.Keys == m.Keys - {id};
      }
    } else {
      assert rebuilt == m by {
        assert rebuilt.Keys == m.Keys;
      }
      rebuiltOrder := rebuiltOrder + [id];
      rebuilt := rebuilt[id := Lookup(items, id)];
    }
  }

  /** The insertion order of the rebuilt map: the ids of `o` in order, each
      once, leaving `id` out when `skip` holds. */
  function Kept(o: seq<string>, id: string, skip: bool): (r: seq<string>)
    ensures forall k :: k in r ==> k in o
  {
    if o == [] then []
    else
      var prefix := Kept(o[..|o| - 1], id, skip);
      var last := o[|o| - 1];
      if (skip && last == id) || last in prefix then prefix else prefix + [last]
  }

  /** `Kept` of the first `i` keys, counted by index as the copy loop
      walks the order. */
  function KeptUpTo(o: seq<string>, i: nat, id: string, skip: bool): seq<string>
    requires i <= |o|
  {
    if i == 0 then []
    else
      var prefix := KeptUpTo(o, i - 1, id, skip);
      if (skip && o[i - 1] == id) || o[i - 1] in prefix then prefix else prefix + [o[i - 1]]
  }

  lemma {:induction false} KeptUpToIsKept(o: seq<string>, i: nat, id: string, skip: bool)
    requires i <= |o|
    ensures KeptUpTo(o, i, id, skip) == Kept(o[..i], id, skip)
  {
    if i > 0 {
      KeptUpToIsKept(o, i - 1, id, skip);
      assert o[..i][..i - 1] == o[..i - 1];
    }
  }

  /** On a duplicate-free order the rebuild keeps everything, or everything
      but `id`. */
  lemma {:induction false} KeptOfDistinct(o: seq<string>, id: string, skip: bool)
    requires NoDuplicates(o)
    ensures Kept(o, id, skip) == if skip then Without(o, id) else o
  {
    if o != [] {
      var prefix := o[..|o| - 1];
      assert NoDuplicates(prefix);
      KeptOfDistinct(prefix, id, skip);
      assert o[|o| - 1] !in prefix;
      assert o == prefix + [o[|o| - 1]];
    }
  }

  /** The copying loop of the rebuild, skipping `id` when `skip` holds. */
  method CopyRecords(m: Selection, o: seq<string>, id: string, skip: bool)
    returns (ok: bool, rebuilt: Selection, rebuiltOrder: seq<string>)
    requires forall k :: k in m <==> k in o
    requires KeyedById(m)
    ensures ok <==> !HasUndefined(m)
    ensures ok ==> rebuiltOrder == Kept(o, id, skip)
    ensures ok ==> forall k :: k in rebuilt <==> k in rebuiltOrder
    ensures ok ==> forall k :: k in rebuilt ==> rebuilt[k] == m[k]
  {
    rebuilt := map[];
    rebuiltOrder := [];
    for i := 0 to |o|
      invariant forall j :: 0 <= j < i ==> o[j] in m && m[o[j]].Some?
      invariant rebuiltOrder == KeptUpTo(o, i, id, skip)
      invariant forall k :: k in rebuilt <==> k in rebuiltOrder
      invariant forall k :: k in rebuilt ==> k in m && rebuilt[k] == m[k]
    {
      if m[o[i]].None? {
        assert o[i] in m && m[o[i]].None?;
        return false, map[], [];
      }
      rebuilt, rebuiltOrder := CopyRecord(m, o, i, id, skip, rebuilt, rebuiltOrder);
    }
    KeptUpToIsKept(o, |o|, id, skip);
    assert o[..|o|] == o;
    AllDefined(m, o);
    return true, rebuilt, rebuiltOrder;
  }

  /** One step of the `forEach` copy: the `i`-th record is set under its own
      `id` unless it is the skipped one; a key set again keeps its place. */
  method CopyRecord(m: Selection, o: seq<string>, i: nat, id: string, skip: bool,
                    rebuilt: Selection, rebuiltOrder: seq<string>)
    returns (rebuilt': Selection, rebuiltOrder': seq<string>)
    requires i < |o| && o[i] in m && m[o[i]].Some?
    requires KeyedById(m)
    requires rebuiltOrder == KeptUpTo(o, i, id, skip)
    requires forall k :: k in rebuilt <==> k in rebuiltOrder
    requires forall k :: k in rebuilt ==> k in m && rebuilt[k] == m[k]
    ensures rebuiltOrder' == KeptUpTo(o, i + 1, id, skip)
    ensures forall k :: k in rebuilt' <==> k in rebuiltOrder'
    ensures forall k :: k in rebuilt' ==> k in m && rebuilt'[k] == m[k]
  {
    var item := m[o[i]];
    var itemId := item.value.id;
    assert itemId == o[i];
    rebuilt', rebuiltOrder' := rebuilt, rebuiltOrder;
    if !skip || itemId != id {
      if itemId !in rebuilt {
        rebuiltOrder' := rebuiltOrder + [itemId];
      }
      rebuilt' := rebuilt[itemId := item];
    }
  }

  /** A selection whose every ordered id holds a record has no `undefined`. */
  lemma AllDefined(m: Selection, o: seq<string>)
    requires forall k :: k in m <==> k in o
    requires forall j :: 0 <= j < |o| ==> o[j] in m && m[o[j]].Some?
    ensures !HasUndefined(m)
  {
    forall k | k in m ensures m[k].Some? {
      var j :| 0 <= j < |o| && o[j] == k;
    }
  }

  /** A click keeps the selection's invariants: keys and order agree, each
      id once, no empty id, every record under its own id. */
  lemma ToggleKeepsSelectionValid(m: Selection, o: seq<string>, id: string, items: seq<Asset>)
    requires forall k :: k in m <==> k in o
    requires NoDuplicates(o) && KeyedById(m) && "" !in m && id != ""
    ensures forall k :: k in Toggled(m, id, items) <==> k in ToggledOrder(o, id)
    ensures NoDuplicates(ToggledOrder(o, id))
    ensures "" !in Toggled(m, id, items) && KeyedById(Toggled(m, id, items))
  {
  }

  /** The fulfilled detail fetches indexed by name, one response at a time. */
  method IndexFetched(details: seq<Option<AssetDetail>>) returns (fetched: map<string, AssetDetail>)
    ensures fetched == FetchedByFqn(details)
  {
    fetched := map[];
    for i := 0 to |details|
      invariant fetched == FetchedByFqn(details[..i])
    {
      if details[i].Some? {
        fetched := fetched[details[i].value.fqn := details[i].value];
      }
      assert details[..i + 1][..i] == details[..i];
    }
    assert details[..|details|] == details;
  }

  /** The general save path of `handleSave`: reading `entityType` of an
      `undefined` record throws before any request; otherwise each selected
      asset whose details came back is patched towards the parent. */
  method SaveAssets(owner: AssetsOf, active: Option<ParentEntity>, values: seq<Option<Asset>>,
                    details: seq<Option<AssetDetail>>, writeOk: bool) returns (trace: seq<Call>)
    requires |details| == |values|
    ensures trace == AssetSaveTrace(owner, active, values, details, writeOk)
  {
    for i := 0 to |values|
      invariant forall j :: 0 <= j < i ==> values[j].Some?
    {
      if values[i].None? {
        return [ErrorToast, CancelCallback];
      }
    }
    var fetched := IndexFetched(details);
    var patches := BuildPatches(owner, active, values, fetched);
    trace := patches + (if patches == [] || writeOk then [SaveCallback] else [ErrorToast]) + [CancelCallback];
  }

  /** The `map` over the selected records that builds one patch request per
      record whose details were fetched, when a parent is loaded. */
  method BuildPatches(owner: AssetsOf, active: Option<ParentEntity>, values: seq<Option<Asset>>,
                      fetched: map<string, AssetDetail>) returns (patches: seq<Call>)
    requires forall j :: 0 <= j < |values| ==> values[j].Some?
    ensures patches == PatchCalls(owner, active, values, fetched)
  {
    patches := [];
    for i := 0 to |values|
      invariant patches == PatchCalls(owner, active, values[..i], fetched)
    {
      var item := values[i].value;
      if item.fqn in fetched && active.Some? {
        patches := patches + [PatchAsset(item.id, item.entityType, JsonPatchTarget(owner, active, fetched[item.fqn]))];
      }
      assert values[..i + 1][..i] == values[..i];
    }
    assert values[..|values|] == values;
  }

  // ---------------------------------------------------------------------
  // The component state
  // ---------------------------------------------------------------------

  class Modal {
    const owner: AssetsOf
    const activeFilter: SearchIndex
    var search: string
    var items: seq<Asset>
    var selected: Selection
    /** The insertion order of `selected`'s keys, as a JavaScript `Map` keeps it. */
    var order: seq<string>
    var isLoading: bool
    var pageNumber: int
    var totalCount: int
    var activeEntity: Option<ParentEntity>

    ghost predicate Valid()
      reads this
    {
      && (forall k :: k in selected <==> k in order)
      && NoDuplicates(order)
      && "" !in selected
      && KeyedById(selected)
    }

    constructor (owner: AssetsOf)
      ensures Valid()
      ensures this.owner == owner && activeFilter == InitialIndex(owner)
      ensures search == "" && items == [] && selected == map[] && order == []
      ensures !isLoading && pageNumber == 1 && totalCount == 0 && activeEntity == None
    {
      this.owner := owner;
      activeFilter := InitialIndex(owner);
      search := "";
      items := [];
      selected := map[];
      order := [];
      isLoading := false;
      pageNumber := 1;
      totalCount := 0;
      activeEntity := None;
    }

    /** The selected records in insertion order. */
    function SelectedValues(): seq<Option<Asset>>
      reads this
      requires Valid()
    {
      OrderedValues(selected, order)
    }

    /** `fetchCurrentEntity`: a domain, data product or glossary term is
        stored when its lookup (`fetched`) succeeds; other parents load nothing. */
    method LoadActiveEntity(fetched: Option<ParentEntity>)
      modifies this`activeEntity
      ensures activeEntity == if owner != OtherOwner && fetched.Some? then fetched else old(activeEntity)
    {
      if owner != OtherOwner && fetched.Some? {
        activeEntity := fetched;
      }
    }

    /** A changed search text starts over at page 1; setting the same text
        again changes no effect dependency, so nothing is fetched. */
    method OnSearch(text: string) returns (request: Option<FetchRequest>)
      modifies this`search
      ensures search == text
      ensures request.Some? <==> text != old(search)
      ensures request.Some? ==> request.value == FetchRequest(text, 1, activeFilter)
    {
      if text == search {
        return None;
      }
      search := text;
      request := Some(FetchRequest(text, 1, activeFilter));
    }

    /** The start of `fetchEntities`: a request is in flight. */
    method BeginFetch()
      modifies this`isLoading
      ensures isLoading
    {
      isLoading := true;
    }

    /** The end of `fetchEntities` for `page`; `response` is `None` when the
        search request threw, which is swallowed. */
    method EndFetch(page: int, response: Option<SearchPage>)
      modifies this`items, this`pageNumber, this`totalCount, this`isLoading
      ensures !isLoading
      ensures response.None? ==> items == old(items) && pageNumber == old(pageNumber) && totalCount == old(totalCount)
      ensures response.Some? ==>
        && totalCount == response.value.total.GetOr(0)
        && items == NextItems(old(items), page, response.value.hits)
        && pageNumber == page
    {
      if response.Some? {
        var hits := response.value.hits;
        totalCount := response.value.total.GetOr(0);
        if page == 1 {
          items := hits;
        } else {
          items := items + hits;
        }
        pageNumber := page;
      }
      isLoading := false;
    }

    /** `onScroll`: the next page is requested only near the bottom of the
        500-pixel list, while more hits remain and nothing is in flight. */
    method OnScroll(scrollHeight: real, scrollTop: real) returns (request: Option<FetchRequest>)
      ensures request.Some? <==> 499.0 < scrollHeight - scrollTop < 501.0 && |items| < totalCount && !isLoading
      ensures request.Some? ==> request.value == FetchRequest(search, pageNumber + 1, activeFilter)
    {
      var distance := scrollHeight - scrollTop;
      if distance > 499.0 && distance < 501.0 && |items| < totalCount {
        if !isLoading {
          return Some(FetchRequest(search, pageNumber + 1, activeFilter));
        }
      }
      return None;
    }

    /** `handleCardClick`. An `undefined` record already in the selection
        makes the rebuild throw, and then (`ok` false) nothing changes. */
    method HandleCardClick(details: Asset) returns (ok: bool)
      requires Valid()
      modifies this`selected, this`order
      ensures Valid()
      ensures details.id == "" ==> ok && selected == old(selected) && order == old(order)
      ensures details.id != "" ==> (ok <==> !HasUndefined(old(selected)))
      ensures !ok ==> selected == old(selected) && order == old(order)
      ensures details.id != "" && ok ==>
        selected == Toggled(old(selected), details.id, items) && order == ToggledOrder(old(order), details.id)
    {
      if details.id == "" {
        return true;
      }
      var rebuilt, rebuiltOrder;
      ok, rebuilt, rebuiltOrder := RebuildSelection(selected, order, details.id, items);
      if ok {
        ToggleKeepsSelectionValid(selected, order, details.id, items);
        selected, order := rebuilt, rebuiltOrder;
      }
    }

    /** `onSelectAll`: `true` stores every loaded item that has an id on top
        of the previous selection; `false` clears it. */
    method OnSelectAll(selectAll: bool)
      requires Valid()
      modifies this`selected, this`order
      ensures Valid()
      ensures !selectAll ==> selected == map[] && order == []
      ensures selectAll ==>
        selected == SelectedAll(old(selected), items) && order == OrderAfterSelectAll(old(order), items)
    {
      if !selectAll {
        selected, order := map[], [];
        return;
      }
      var m := selected;
      var o := order;
      for i := 0 to |items|
        invariant m == SelectedAll(old(selected), items[..i])
        invariant o == OrderAfterSelectAll(old(order), items[..i])
        invariant forall k :: k in m <==> k in o
      {
        var a := items[i];
        assert items[..i + 1][..i] == items[..i];
        if a.id != "" {
          if a.id !in m {
            o := o + [a.id];
          }
          m := m[a.id := Some(a)];
        }
      }
      assert items[..|items|] == items;
      OrderAfterSelectAllMatches(selected, order, items);
      SelectAllStoresLoadedItems(selected, items);
      selected, order := m, o;
    }

    /** `handleSave`; `details[i]` is the outcome of the detail fetch for the
        `i`-th selected record and `writeOk` whether the writes succeed. */
    method HandleSave(details: seq<Option<AssetDetail>>, writeOk: bool) returns (trace: seq<Call>)
      requires Valid() && |details| == |order|
      ensures trace == SaveTrace(owner, activeEntity, SelectedValues(), details, writeOk)
    {
      var values := OrderedValues(selected, order);
      if owner == DataProduct {
        return DataProductSaveTrace(activeEntity, values, writeOk);
      }
      if owner == Glossary {
        return GlossarySaveTrace(activeEntity, values, writeOk);
      }
      trace := SaveAssets(owner, activeEntity, values, details, writeOk);
    }
  }

  /** The references a valid selection saves have distinct ids, so the
      data-product patch never attaches an asset twice. */
  lemma SelectedRefsUnique(m: Selection, o: seq<string>)
    requires forall k :: k in m <==> k in o
    requires NoDuplicates(o) && KeyedById(m)
    requires Refs(OrderedValues(m, o)).Some?
    ensures UniqueIds(Refs(OrderedValues(m, o)).value)
  {
    var values := OrderedValues(m, o);
    var refs := Refs(values).value;
    forall i, j | 0 <= i < j < |refs| ensures refs[i].id != refs[j].id {
      assert refs[i].id == o[i] && refs[j].id == o[j];
    }
  }
}
