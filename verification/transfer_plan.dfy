/** The loops that plan an import and write an export. They take maps in any order. */
module TransferPlan {
  import opened Wrappers
  import opened Document
  import opened SnapshotCheck
  import opened Renaming
  import opened Premium
  import opened Transfer
  import ResourceId

  method Rekey<V>(m: map<string, V>, h: string -> string, g: (string, V) -> V) returns (r: map<string, V>)
    requires TellsApart(h, m)
    ensures r == Rekeyed(m, h, g)
  {
    hide Rekeyed;
    r := map[];
    var todo := m.Keys;
    ghost var done: map<string, V> := map[];
    RekeyedNone(done, h, g);
    while todo != {}
      invariant todo <= m.Keys && done.Keys == m.Keys - todo
      invariant forall k :: k in done ==> done[k] == m[k]
      invariant TellsApart(h, done) && r == Rekeyed(done, h, g)
      decreases todo
    {
      var k :| k in todo;
      RekeyedMore(done, h, g, k, m[k]);
      r := r[h(k) := g(k, m[k])];
      done := done[k := m[k]];
      todo := todo - {k};
    }
    assert done == m;
  }

  lemma RekeyedNone<V, W>(m: map<string, V>, h: string -> string, g: (string, V) -> W)
    requires m == map[]
    ensures TellsApart(h, m) && Rekeyed(m, h, g) == map[]
  {
  }

  lemma RekeyedMore<V, W>(m: map<string, V>, h: string -> string, g: (string, V) -> W, k: string, v: V)
    requires TellsApart(h, m[k := v]) && k !in m
    ensures TellsApart(h, m) && Rekeyed(m[k := v], h, g) == Rekeyed(m, h, g)[h(k) := g(k, v)]
  {
    assert forall x :: x in m ==> x in m[k := v] && m[k := v][x] == m[x];
  }

  // Whether a scene shows the asset as a catalog occurrence.
  method ShownIn(env: Env, scene: Scene, source: string, a: Attachment) returns (shown: bool)
    ensures shown == Shows(env, scene, source, a)
  {
    hide Provenance;
    var todo := scene.elements.Keys;
    while todo != {}
      invariant todo <= scene.elements.Keys
      invariant forall id :: id in scene.elements && id !in todo ==> !Provenance(env, scene, scene.elements[id], source, a)
      decreases todo
    {
      var id :| id in todo;
      todo := todo - {id};
      if Provenance(env, scene, scene.elements[id], source, a) { return true; }
    }
    return false;
  }

  method MarkPremium(env: Env, s: Snapshot, source: string, a: Attachment) returns (premium: bool)
    ensures premium == Marked(env, s, source, a)
  {
    hide Shows, KnownDigest;
    premium := KnownDigest(env.catalog, env.digest(a.data));
    var todo := s.pages.Keys;
    while todo != {}
      invariant todo <= s.pages.Keys
      invariant premium == (KnownDigest(env.catalog, env.digest(a.data)) ||
        exists page :: page in s.pages && page !in todo && Shows(env, s.pages[page].scene, source, a))
      decreases todo
    {
      var page :| page in todo;
      todo := todo - {page};
      var shown := ShownIn(env, s.pages[page].scene, source, a);
      if shown { premium := true; }
    }
  }

  // The pages in their order, under their new names.
  method RenamePages(s: Snapshot, name: Names) returns (pages: map<string, Page>, order: seq<string>)
    requires TellsApart(Of(name, "pag"), s.pages) && Lists(s.pageOrder, s.pages)
    ensures pages == Rekeyed(s.pages, Of(name, "pag"), RenamedPage(name))
    ensures order == seq(|s.pageOrder|, i requires 0 <= i < |s.pageOrder| => name("pag", s.pageOrder[i]))
  {
    hide Rekeyed, RenamedScene, Elements, TellsApart;
    pages, order := map[], [];
    ghost var done: map<string, Page> := map[];
    RekeyedNone(done, Of(name, "pag"), RenamedPage(name));
    NoElements();
    for i := 0 to |s.pageOrder|
      invariant |order| == i && forall j :: 0 <= j < i ==> order[j] == name("pag", s.pageOrder[j])
      invariant done.Keys == Elements(s.pageOrder[..i]) && (i == 0 ==> s.pageOrder[..i] == [])
      invariant forall k :: k in done ==> k in s.pages && done[k] == s.pages[k]
      invariant TellsApart(Of(name, "pag"), done) && pages == Rekeyed(done, Of(name, "pag"), RenamedPage(name))
    {
      var was := s.pageOrder[i];
      var page := s.pages[was];
      ElementsMore(s.pageOrder, i);
      SameKeysApart(done[was := page], s.pages, Of(name, "pag"));
      RekeyedMore(done, Of(name, "pag"), RenamedPage(name), was, page);
      pages := pages[name("pag", was) := Page(name("pag", was), page.name, RenamedScene(page.scene, name))];
      order := order + [name("pag", was)];
      done := done[was := page];
    }
    ElementsAll(s.pageOrder, s.pages);
    assert s.pageOrder[..|s.pageOrder|] == s.pageOrder;
    assert done == s.pages;
  }

  lemma NoElements()
    ensures Elements([]) == {}
  {
  }

  lemma ElementsMore(order: seq<string>, i: nat)
    requires i < |order| && forall j, k :: 0 <= j < k < |order| ==> order[j] != order[k]
    ensures Elements(order[..i + 1]) == Elements(order[..i]) + {order[i]} && order[i] !in Elements(order[..i])
  {
    assert forall j :: 0 <= j < i ==> order[..i][j] == order[..i + 1][j];
    assert order[..i + 1][i] == order[i];
  }

  lemma ElementsAll<V>(order: seq<string>, m: map<string, V>)
    requires Lists(order, m)
    ensures Elements(order) == m.Keys
  {
  }

  lemma SameKeysApart<V>(m: map<string, V>, n: map<string, V>, h: string -> string)
    requires m.Keys <= n.Keys && TellsApart(h, n)
    ensures TellsApart(h, m)
  {
  }

  // One object of a plan.
  datatype Blob = Blob(upload: Upload, data: Bytes)

  predicate DistinctIds(plans: seq<Blob>) {
    forall i, j :: 0 <= i < j < |plans| ==> plans[i].upload.id != plans[j].upload.id
  }

  ghost predicate PlannedFrom(o: Blob, env: Env, p: Payload, name: Names, archive: Archive, k: string) {
    k in archive.assets && o == Blob(Planned(env, p, name, archive.snapshot, k, archive.assets[k]), archive.assets[k].data)
  }

  // The plan of each asset, once.
  ghost predicate Enumerates(plans: seq<Blob>, env: Env, p: Payload, name: Names, archive: Archive, sources: seq<string>) {
    && |plans| == |sources|
    && (forall i, j :: 0 <= i < j < |sources| ==> sources[i] != sources[j])
    && (forall i :: 0 <= i < |plans| ==> PlannedFrom(plans[i], env, p, name, archive, sources[i]))
  }

  // A list of plans is complete: one for every asset of the archive, and no two share an identifier.
  ghost predicate Complete(plans: seq<Blob>, env: Env, p: Payload, name: Names, archive: Archive) {
    DistinctIds(plans) && exists sources :: Enumerates(plans, env, p, name, archive, sources) && Lists(sources, archive.assets)
  }

  lemma EnumeratesMore(plans: seq<Blob>, o: Blob, env: Env, p: Payload, name: Names, archive: Archive, sources: seq<string>, k: string)
    requires Enumerates(plans, env, p, name, archive, sources) && k !in sources && PlannedFrom(o, env, p, name, archive, k)
    ensures Enumerates(plans + [o], env, p, name, archive, sources + [k])
  {
    hide PlannedFrom;
  }

  lemma EnumeratesComplete(plans: seq<Blob>, env: Env, p: Payload, name: Names, archive: Archive, sources: seq<string>)
    requires Enumerates(plans, env, p, name, archive, sources) && Lists(sources, archive.assets) && TellsApart(Of(name, "ast"), archive.assets)
    ensures Complete(plans, env, p, name, archive)
  {
    hide Marked, Lists;
    forall i, j | 0 <= i < j < |plans| ensures plans[i].upload.id != plans[j].upload.id {
      assert PlannedFrom(plans[i], env, p, name, archive, sources[i]) && PlannedFrom(plans[j], env, p, name, archive, sources[j]);
      assert Of(name, "ast")(sources[i]) == plans[i].upload.id && Of(name, "ast")(sources[j]) == plans[j].upload.id;
    }
  }

  // One object for each asset, in the order the assets come.
  method PlanObjects(env: Env, p: Payload, name: Names, archive: Archive) returns (plans: seq<Blob>, uploads: map<string, Upload>)
    requires TellsApart(Of(name, "ast"), archive.assets)
    ensures uploads == Plans(env, p, name, archive)
    ensures Complete(plans, env, p, name, archive)
  {
    hide Marked, Enumerates, TellsApart, Rekeyed, Complete;
    plans, uploads := [], map[];
    var todo := archive.assets.Keys;
    ghost var sources: seq<string> := [];
    ghost var done: map<string, Attachment> := map[];
    ghost var plan := PlannedBy(env, p, name, archive.snapshot);
    RekeyedNone(done, Of(name, "ast"), plan);
    EnumeratesNone(env, p, name, archive);
    while todo != {}
      invariant todo <= archive.assets.Keys
      invariant forall k :: k in sources <==> k in archive.assets && k !in todo
      invariant Enumerates(plans, env, p, name, archive, sources)
      invariant done.Keys == archive.assets.Keys - todo && forall k :: k in done ==> done[k] == archive.assets[k]
      invariant TellsApart(Of(name, "ast"), done) && uploads == Rekeyed(done, Of(name, "ast"), plan)
      decreases todo
    {
      var source :| source in todo;
      var a := archive.assets[source];
      var id := name("ast", source);
      var premium := MarkPremium(env, archive.snapshot, source, a);
      if id in p.prepared { premium := p.prepared[id]; }
      var upload := Metadata(env, p.board, id, a).(premium := premium);
      EnumeratesMore(plans, Blob(upload, a.data), env, p, name, archive, sources, source);
      SameKeysApart(done[source := a], archive.assets, Of(name, "ast"));
      RekeyedMore(done, Of(name, "ast"), plan, source, a);
      plans := plans + [Blob(upload, a.data)];
      uploads := uploads[id := upload];
      sources := sources + [source];
      done := done[source := a];
      todo := todo - {source};
    }
    assert done == archive.assets;
    EnumeratesDistinct(plans, env, p, name, archive, sources);
    EnumeratesComplete(plans, env, p, name, archive, sources);
  }

  lemma EnumeratesNone(env: Env, p: Payload, name: Names, archive: Archive)
    ensures Enumerates([], env, p, name, archive, [])
  {
  }

  lemma EnumeratesDistinct(plans: seq<Blob>, env: Env, p: Payload, name: Names, archive: Archive, sources: seq<string>)
    requires Enumerates(plans, env, p, name, archive, sources) && forall k :: k in sources <==> k in archive.assets
    ensures Lists(sources, archive.assets)
  {
  }

  // The plan of an import: the objects to store and the document to publish.
  method ImportPlan(env: Env, p: Payload, name: Names, archive: Archive) returns (outcome: Outcome, plans: seq<Blob>)
    requires Plannable(name, archive) && ArchiveValid(env, archive) && ResourceId.Valid(p.board, "brd")
    ensures outcome == Import(env, p, name, archive)
    ensures Complete(plans, env, p, name, archive)
  {
    hide ResourceId.Valid, Derived, Plans, Complete, PremiumTransition, AllMedia, Rekeyed, ScopeOf, TellsApart, RenamedScene;
    ImportKeepsValidity(env, p, name, archive);
    Apart(name, archive.snapshot);
    var s := archive.snapshot;
    var uploads;
    plans, uploads := PlanObjects(env, p, name, archive);
    assert Lists(s.pageOrder, s.pages) by { hide Lists; }
    var pages, order := RenamePages(s, name);
    var notes := Rekey(s.notes, Of(name, "note"), RenamedNote(name));
    var folders := Rekey(s.folders, Of(name, "fld"), RenamedFolder(name));
    var noteFolders := Rekey(s.noteFolders, Of(name, "note"), RenamedAssignment(name));
    var target := Snapshot(1, p.board, pages, order, notes, folders, noteFolders);
    assert target == Renamed(s, p.board, name);
    var scope := ScopeOf(p.board, uploads);
    if !PremiumTransition(env.catalog, EMPTY_SNAPSHOT, target, scope, p.entitled) {
      outcome := Denied;
    } else if !env.packs(target) {
      outcome := Invalid;
    } else {
      outcome := Ready(uploads, target);
    }
  }

  // The assets a document refers to.
  method CollectReferences(s: Snapshot) returns (referenced: set<string>)
    ensures referenced == Referenced(s)
  {
    referenced := {};
    var pages := s.pages.Keys;
    while pages != {}
      invariant pages <= s.pages.Keys
      invariant forall id :: id in referenced <==>
        exists page, f :: page in s.pages && page !in pages && f in s.pages[page].scene.files && s.pages[page].scene.files[f].id == id
      decreases pages
    {
      var page :| page in pages;
      var files := s.pages[page].scene.files;
      referenced := referenced + set f | f in files :: files[f].id;
      pages := pages - {page};
    }
  }

  method ExportPlan(env: Env, x: Export, s: Snapshot, stored: map<string, Bytes>) returns (data: Option<Bytes>)
    ensures data == Exported(env, x, s, stored)
  {
    hide Referenced;
    var referenced := CollectReferences(s);
    if |referenced| > MAX_ASSETS { return None; }
    var decoded := 0;
    var assets: map<string, Attachment> := map[];
    for i := 0 to |x.uploads|
      invariant decoded == if x.withAssets then Total(x.uploads[..i], referenced) else 0
      invariant decoded <= MAX_IMPORT * 3 / 4
      invariant assets == if x.withAssets then AttachedOf(x.uploads[..i], referenced, stored) else map[]
      invariant x.withAssets ==> forall j :: 0 <= j < i && x.uploads[j].id in referenced ==> x.uploads[j].id in stored
    {
      var upload := x.uploads[i];
      assert x.uploads[..i + 1][..i] == x.uploads[..i];
      if upload.id !in referenced || !x.withAssets { continue; }
      decoded := decoded + upload.size;
      if decoded > MAX_IMPORT * 3 / 4 {
        TotalGrows(x.uploads, i + 1, referenced);
        return None;
      }
      if upload.id !in stored { return None; }
      assets := assets[upload.id := Attachment(upload.mime, stored[upload.id])];
    }
    assert x.uploads[..|x.uploads|] == x.uploads;
    var archive := env.format(Archive(s, assets));
    if |archive| > MAX_IMPORT { return None; }
    return Some(archive);
  }

  lemma {:induction false} TotalGrows(uploads: seq<Upload>, i: nat, wanted: set<string>)
    requires i <= |uploads|
    ensures Total(uploads[..i], wanted) <= Total(uploads, wanted)
  {
    if i < |uploads| {
      TotalGrows(uploads[..|uploads| - 1], i, wanted);
      assert uploads[..|uploads| - 1][..i] == uploads[..i];
    } else {
      assert uploads[..i] == uploads;
    }
  }
}
