/** Which changes of a document need the right to insert premium content. */
module Premium {
  import opened Wrappers
  import opened Document

  // ---------------------------------------------------------------- one element

  predicate IsPremium(catalog: Catalog, scope: Scope, scene: Scene, e: Element) {
    CatalogId(catalog, e).0 != "" || ElementAsset(scene, e) in scope.premium
  }

  function PriorCatalog(catalog: Catalog, prior: Option<Element>): string {
    if prior.Some? then CatalogId(catalog, prior.value).0 else ""
  }

  // An occurrence of the same content was there and was not deleted.
  predicate Existing(catalog: Catalog, before: Scene, prior: Option<Element>, scene: Scene, e: Element) {
    && prior.Some? && !Deleted(prior.value)
    && CatalogId(catalog, e).0 == CatalogId(catalog, prior.value).0
    && ElementAsset(scene, e) == ElementAsset(before, prior.value)
  }

  // A vector asset of a catalog occurrence has the pinned bytes.
  predicate Pinned(catalog: Catalog, scope: Scope, scene: Scene, e: Element) {
    var id := CatalogId(catalog, e).0;
    var asset := ElementAsset(scene, e);
    id != "" && scope.mimes.Some? && Lookup(scope.mimes.value, asset) == "image/svg+xml" ==>
      Lookup(scope.digests, asset) == Lookup(catalog, id)
  }

  predicate ElementAllowed(catalog: Catalog, scope: Scope, before: Scene, prior: Option<Element>, scene: Scene, e: Element, allowed: bool) {
    Deleted(e) ||
    (&& CatalogId(catalog, e).1
     && (PriorCatalog(catalog, prior) != "" ==> CatalogId(catalog, e).0 == PriorCatalog(catalog, prior))
     && Pinned(catalog, scope, scene, e)
     && (IsPremium(catalog, scope, scene, e) ==> Existing(catalog, before, prior, scene, e) || allowed))
  }

  // ---------------------------------------------------------------- transitions

  predicate PremiumTransition(catalog: Catalog, before: Snapshot, after: Snapshot, scope: Scope, allowed: bool) {
    forall page, id :: page in after.pages && id in after.pages[page].scene.elements ==>
      ElementAllowed(catalog, scope, SceneOf(before, page), ElementOf(before, page, id), after.pages[page].scene,
                     after.pages[page].scene.elements[id], allowed)
  }

  // A premium occurrence: where it is, the catalog identifier it carries, and the asset it shows.
  datatype Occurrence = Occurrence(page: string, id: string, catalog: string, asset: string)

  ghost predicate Occurs(catalog: Catalog, scope: Scope, s: Snapshot, o: Occurrence) {
    var e := ElementOf(s, o.page, o.id);
    && e.Some? && !Deleted(e.value)
    && IsPremium(catalog, scope, SceneOf(s, o.page), e.value)
    && o.catalog == CatalogId(catalog, e.value).0
    && o.asset == ElementAsset(SceneOf(s, o.page), e.value)
  }

  // Each version of a document follows from the one before without the right to insert.
  predicate Unentitled(catalog: Catalog, scope: Scope, versions: seq<Snapshot>) {
    forall i :: 0 < i < |versions| ==> PremiumTransition(catalog, versions[i - 1], versions[i], scope, false)
  }

  // Without the right to insert, a change adds no premium occurrence.
  lemma NothingInserted(catalog: Catalog, scope: Scope, before: Snapshot, after: Snapshot, o: Occurrence)
    requires PremiumTransition(catalog, before, after, scope, false) && Occurs(catalog, scope, after, o)
    ensures Occurs(catalog, scope, before, o)
  {
    hide CatalogId, ElementAsset, Pinned, Deleted;
    assert o.page in after.pages && o.id in after.pages[o.page].scene.elements;
  }

  // Along any run of such changes the premium occurrences only ever become fewer.
  lemma {:induction false} OccurrencesNeverGrow(catalog: Catalog, scope: Scope, versions: seq<Snapshot>, i: nat, j: nat, o: Occurrence)
    requires Unentitled(catalog, scope, versions) && i <= j < |versions| && Occurs(catalog, scope, versions[j], o)
    ensures Occurs(catalog, scope, versions[i], o)
    decreases j
  {
    hide Occurs, PremiumTransition;
    if i < j {
      NothingInserted(catalog, scope, versions[j - 1], versions[j], o);
      OccurrencesNeverGrow(catalog, scope, versions, i, j - 1, o);
    }
  }

  // Whatever the rights, a live element whose predecessor had a catalog identifier keeps it.
  lemma ProvenanceKept(catalog: Catalog, scope: Scope, before: Snapshot, after: Snapshot, allowed: bool, page: string, id: string)
    requires PremiumTransition(catalog, before, after, scope, allowed)
    requires var e := ElementOf(after, page, id); e.Some? && !Deleted(e.value)
    requires PriorCatalog(catalog, ElementOf(before, page, id)) != ""
    ensures CatalogId(catalog, ElementOf(after, page, id).value).0 == PriorCatalog(catalog, ElementOf(before, page, id))
  {
    assert page in after.pages && id in after.pages[page].scene.elements;
  }

  predicate Living(s: Snapshot, page: string, id: string) {
    ElementOf(s, page, id).Some? && !Deleted(ElementOf(s, page, id).value)
  }

  // So as long as an element lives, it keeps the identifier it once carried.
  lemma {:induction false} ProvenanceKeptOverRun(catalog: Catalog, scope: Scope, versions: seq<Snapshot>, allowed: seq<bool>, i: nat, j: nat, page: string, id: string)
    requires |allowed| == |versions| && i <= j < |versions| && Living(versions[i], page, id) && Living(versions[j], page, id)
    requires forall k :: 0 < k < |versions| ==> PremiumTransition(catalog, versions[k - 1], versions[k], scope, allowed[k])
    requires forall k :: i <= k <= j ==> Living(versions[k], page, id)
    requires CatalogId(catalog, ElementOf(versions[i], page, id).value).0 != ""
    ensures CatalogId(catalog, ElementOf(versions[j], page, id).value).0 == CatalogId(catalog, ElementOf(versions[i], page, id).value).0
    decreases j
  {
    hide PremiumTransition, CatalogId;
    if i < j {
      ProvenanceKeptOverRun(catalog, scope, versions, allowed, i, j - 1, page, id);
      assert Living(versions[j], page, id) && Living(versions[j - 1], page, id);
      ProvenanceKept(catalog, scope, versions[j - 1], versions[j], allowed[j], page, id);
    }
  }

  // When the right matters: a change that is acceptable with it is acceptable without it exactly if
  // all its premium occurrences were there before.
  lemma RightNeededExactly(catalog: Catalog, scope: Scope, before: Snapshot, after: Snapshot)
    requires PremiumTransition(catalog, before, after, scope, true)
    ensures PremiumTransition(catalog, before, after, scope, false) <==>
      forall o :: Occurs(catalog, scope, after, o) ==> Occurs(catalog, scope, before, o)
  {
    hide CatalogId, ElementAsset, Deleted, Pinned;
    if PremiumTransition(catalog, before, after, scope, false) {
      forall o | Occurs(catalog, scope, after, o) ensures Occurs(catalog, scope, before, o) {
        NothingInserted(catalog, scope, before, after, o);
      }
    } else {
      var page, id :| page in after.pages && id in after.pages[page].scene.elements &&
        !ElementAllowed(catalog, scope, SceneOf(before, page), ElementOf(before, page, id), after.pages[page].scene, after.pages[page].scene.elements[id], false);
      var e := after.pages[page].scene.elements[id];
      var o := Occurrence(page, id, CatalogId(catalog, e).0, ElementAsset(after.pages[page].scene, e));
      assert Occurs(catalog, scope, after, o) && !Occurs(catalog, scope, before, o);
    }
  }

  // Every live element of `after` was live in `before`, with the same catalog data and the same asset.
  ghost predicate TakesAway(catalog: Catalog, before: Snapshot, after: Snapshot) {
    forall page, id :: Living(after, page, id) ==>
      Living(before, page, id)
      && CatalogId(catalog, ElementOf(after, page, id).value) == CatalogId(catalog, ElementOf(before, page, id).value)
      && ElementAsset(SceneOf(after, page), ElementOf(after, page, id).value) == ElementAsset(SceneOf(before, page), ElementOf(before, page, id).value)
  }

  // Once a document was accepted, with or without the right, taking elements away from it or leaving it
  // as it is never needs the right.
  lemma TakingAwayIsAccepted(catalog: Catalog, scope: Scope, first: Snapshot, before: Snapshot, after: Snapshot, allowed: bool)
    requires PremiumTransition(catalog, first, before, scope, allowed) && TakesAway(catalog, before, after)
    ensures PremiumTransition(catalog, before, after, scope, false)
  {
    hide CatalogId, ElementAsset, Deleted, ElementAllowed, PremiumTransition;
    forall page, id | page in after.pages && id in after.pages[page].scene.elements
      ensures ElementAllowed(catalog, scope, SceneOf(before, page), ElementOf(before, page, id), after.pages[page].scene,
                             after.pages[page].scene.elements[id], false)
    {
      if Living(after, page, id) {
        assert Living(before, page, id);
        AcceptedAt(catalog, scope, first, before, allowed, page, id);
        KeptIsAllowed(catalog, scope, SceneOf(first, page), ElementOf(first, page, id), SceneOf(before, page), ElementOf(before, page, id).value, SceneOf(after, page), ElementOf(after, page, id).value, allowed);
      } else {
        DeadIsAllowed(catalog, scope, before, after, page, id);
      }
    }
    AllAllowed(catalog, scope, before, after);
  }

  lemma AllAllowed(catalog: Catalog, scope: Scope, before: Snapshot, after: Snapshot)
    requires forall page, id :: page in after.pages && id in after.pages[page].scene.elements ==>
      ElementAllowed(catalog, scope, SceneOf(before, page), ElementOf(before, page, id), after.pages[page].scene,
                     after.pages[page].scene.elements[id], false)
    ensures PremiumTransition(catalog, before, after, scope, false)
  {
    hide ElementAllowed, CatalogId, ElementAsset;
  }

  lemma AcceptedAt(catalog: Catalog, scope: Scope, before: Snapshot, after: Snapshot, allowed: bool, page: string, id: string)
    requires PremiumTransition(catalog, before, after, scope, allowed) && Living(after, page, id)
    ensures ElementAllowed(catalog, scope, SceneOf(before, page), ElementOf(before, page, id), SceneOf(after, page), ElementOf(after, page, id).value, allowed)
  {
    hide ElementAllowed, CatalogId, ElementAsset;
    assert page in after.pages && id in after.pages[page].scene.elements;
  }

  lemma DeadIsAllowed(catalog: Catalog, scope: Scope, before: Snapshot, after: Snapshot, page: string, id: string)
    requires page in after.pages && id in after.pages[page].scene.elements && !Living(after, page, id)
    ensures ElementAllowed(catalog, scope, SceneOf(before, page), ElementOf(before, page, id), after.pages[page].scene, after.pages[page].scene.elements[id], false)
  {
    hide CatalogId, ElementAsset;
  }

  lemma KeptIsAllowed(catalog: Catalog, scope: Scope, first: Scene, prior: Option<Element>, before: Scene, e: Element, after: Scene, e': Element, allowed: bool)
    requires ElementAllowed(catalog, scope, first, prior, before, e, allowed) && !Deleted(e) && !Deleted(e')
    requires CatalogId(catalog, e') == CatalogId(catalog, e) && ElementAsset(after, e') == ElementAsset(before, e)
    ensures ElementAllowed(catalog, scope, before, Some(e), after, e', false)
  {
    hide CatalogId, ElementAsset, Deleted;
  }

  // With the right, a first version is accepted exactly if all its live elements carry a known catalog
  // identifier or none, and vector assets of catalog occurrences have the pinned bytes; without it, if
  // none of them is premium besides.
  lemma FirstVersionExactly(catalog: Catalog, scope: Scope, s: Snapshot, allowed: bool)
    ensures PremiumTransition(catalog, EMPTY_SNAPSHOT, s, scope, allowed) <==>
      forall page, id :: Living(s, page, id) ==> FirstAllowed(catalog, scope, SceneOf(s, page), ElementOf(s, page, id).value, allowed)
  {
    hide ElementAllowed, FirstAllowed, Deleted;
    forall page, id | page in s.pages && id in s.pages[page].scene.elements
      ensures ElementAllowed(catalog, scope, SceneOf(EMPTY_SNAPSHOT, page), ElementOf(EMPTY_SNAPSHOT, page, id), s.pages[page].scene, s.pages[page].scene.elements[id], allowed) <==>
        (Living(s, page, id) ==> FirstAllowed(catalog, scope, SceneOf(s, page), ElementOf(s, page, id).value, allowed))
    {
      FirstAt(catalog, scope, s, page, id, allowed);
    }
  }

  lemma FirstAt(catalog: Catalog, scope: Scope, s: Snapshot, page: string, id: string, allowed: bool)
    requires page in s.pages && id in s.pages[page].scene.elements
    ensures ElementAllowed(catalog, scope, SceneOf(EMPTY_SNAPSHOT, page), ElementOf(EMPTY_SNAPSHOT, page, id), s.pages[page].scene, s.pages[page].scene.elements[id], allowed) <==>
      (Living(s, page, id) ==> FirstAllowed(catalog, scope, SceneOf(s, page), ElementOf(s, page, id).value, allowed))
  {
    hide CatalogId, ElementAsset, Deleted, Pinned;
  }

  predicate FirstAllowed(catalog: Catalog, scope: Scope, scene: Scene, e: Element, allowed: bool) {
    && CatalogId(catalog, e).1 && Pinned(catalog, scope, scene, e)
    && (allowed || (CatalogId(catalog, e).0 == "" && ElementAsset(scene, e) !in scope.premium))
  }
}
