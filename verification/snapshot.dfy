/** When a document is valid, and the loops that decide it. */
module SnapshotCheck {
  import opened Wrappers
  import opened Strings
  import opened Document
  import NoteCheck
  import ResourceId

  // Checks that are not modelled further: an element's native fields, a scene's view settings and the
  // form of names.
  datatype Rules = Rules(element: Element -> bool, setting: (string, Json) -> bool, name: string -> bool)

  const MIMES := {"image/png", "image/jpeg", "image/webp", "image/gif", "image/svg+xml"}

  // ---------------------------------------------------------------- validity

  // Every key once, and nothing else.
  ghost predicate Lists<V>(order: seq<string>, m: map<string, V>) {
    && (forall i, j :: 0 <= i < j < |order| ==> order[i] != order[j])
    && (forall id :: id in m <==> id in order)
  }

  // Every parent exists.
  ghost predicate Closed(folders: map<string, Folder>) {
    forall id :: id in folders && folders[id].parent.Some? ==> folders[id].parent.value in folders
  }

  // Every folder can be given a depth greater than its parent's.
  ghost predicate Ranks(folders: map<string, Folder>, rank: map<string, nat>) {
    && rank.Keys == folders.Keys
    && forall id :: id in folders && folders[id].parent.Some? && folders[id].parent.value in folders ==>
         rank[folders[id].parent.value] < rank[id]
  }

  ghost predicate Acyclic(folders: map<string, Folder>) {
    exists rank :: Ranks(folders, rank)
  }

  predicate ElementValid(key: string, e: Element, files: map<string, Asset>, rules: Rules) {
    && key != "" && Utf8Length(key) <= 256 && Field(e, "id") == String(key)
    && rules.element(e)
    && (Field(e, "type") == String("image") && !Deleted(e) ==> Field(e, "fileId").String? && FileId(e) in files)
  }

  predicate FileValid(file: string, asset: Asset, scope: Scope) {
    && (scope.mimes.Some? ==> Lookup(scope.mimes.value, asset.id) == asset.mime)
    && file != "" && ResourceId.Valid(asset.id, "ast") && asset.id in scope.allowed && asset.mime in MIMES
  }

  ghost predicate SceneValid(s: Scene, scope: Scope, rules: Rules) {
    && |s.elements| <= 20000
    && Lists(s.order, s.elements)
    && (forall id :: id in s.elements ==> ElementValid(id, s.elements[id], s.files, rules))
    && (forall f :: f in s.files ==> FileValid(f, s.files[f], scope))
    && (forall k :: k in s.view ==> rules.setting(k, s.view[k]))
  }

  ghost predicate PageValid(id: string, p: Page, scope: Scope, rules: Rules) {
    id == p.id && ResourceId.Valid(id, "pag") && rules.name(p.name) && SceneValid(p.scene, scope, rules)
  }

  predicate FolderValid(id: string, f: Folder, rules: Rules) {
    id == f.id && ResourceId.Valid(id, "fld") && rules.name(f.name) && f.createdAt >= 0 && f.updatedAt >= f.createdAt
  }

  predicate NoteValid(id: string, body: string) {
    ResourceId.Valid(id, "note") && NoteCheck.ValidNote(body)
  }

  predicate Headed(s: Snapshot, scope: Scope) {
    && s.schemaVersion == 1 && s.board == scope.board && ResourceId.Valid(s.board, "brd")
    && 1 <= |s.pages| <= 100 && |s.notes| <= 1000 && |s.folders| <= 1000
  }

  ghost predicate Assigned(s: Snapshot) {
    forall n :: n in s.noteFolders ==> n in s.notes && s.noteFolders[n] in s.folders
  }

  ghost predicate Foldered(folders: map<string, Folder>, rules: Rules) {
    && (forall id :: id in folders ==> FolderValid(id, folders[id], rules))
    && Closed(folders) && Acyclic(folders)
  }

  ghost predicate Valid(s: Snapshot, scope: Scope, rules: Rules) {
    && Headed(s, scope)
    && Lists(s.pageOrder, s.pages)
    && (forall id :: id in s.pages ==> PageValid(id, s.pages[id], scope, rules))
    && (forall id :: id in s.notes ==> NoteValid(id, s.notes[id]))
    && Foldered(s.folders, rules)
    && Assigned(s)
  }

  // ---------------------------------------------------------------- orders

  function Elements(order: seq<string>): set<string> {
    set i | 0 <= i < |order| :: order[i]
  }

  lemma {:induction false} DistinctCount(order: seq<string>)
    requires forall i, j :: 0 <= i < j < |order| ==> order[i] != order[j]
    ensures |Elements(order)| == |order|
  {
    if order != [] {
      var n := |order| - 1;
      DistinctCount(order[..n]);
      assert Elements(order) == Elements(order[..n]) + {order[n]};
      assert order[n] !in Elements(order[..n]);
    }
  }

  // A list of distinct keys, as long as the map has keys, lists all of them.
  lemma ListsAll<V>(order: seq<string>, m: map<string, V>)
    requires |order| == |m| && forall i, j :: 0 <= i < j < |order| ==> order[i] != order[j]
    requires forall i :: 0 <= i < |order| ==> order[i] in m
    ensures Lists(order, m)
  {
    DistinctCount(order);
    assert Elements(order) <= m.Keys;
    EqualSets(Elements(order), m.Keys);
    assert |m.Keys| == |m|;
    forall id ensures id in m <==> id in order {
      assert id in Elements(order) <==> id in order;
    }
  }

  lemma EqualSets(a: set<string>, b: set<string>)
    requires a <= b && |a| >= |b|
    ensures a == b
  {
    assert a + (b - a) == b;
    assert |a + (b - a)| == |a| + |b - a|;
  }

  lemma ListsCount<V>(order: seq<string>, m: map<string, V>)
    requires Lists(order, m)
    ensures |order| == |m|
  {
    DistinctCount(order);
    assert Elements(order) == m.Keys;
    assert |m.Keys| == |m|;
  }

  method CheckOrder<V>(order: seq<string>, m: map<string, V>) returns (ok: bool)
    ensures ok <==> Lists(order, m)
  {
    if |order| != |m| {
      if Lists(order, m) { ListsCount(order, m); }
      return false;
    }
    var seen: set<string> := {};
    for i := 0 to |order|
      invariant seen == Elements(order[..i])
      invariant forall j, k :: 0 <= j < k < i ==> order[j] != order[k]
      invariant forall j :: 0 <= j < i ==> order[j] in m
    {
      assert order[i] in seen <==> exists j :: 0 <= j < i && order[..i][j] == order[i];
      if order[i] in seen { return false; }
      seen := seen + {order[i]};
      if order[i] !in m { return false; }
    }
    ListsAll(order, m);
    return true;
  }

  // ---------------------------------------------------------------- folders

  // From `current`, the root is n folders away.
  predicate Ends(folders: map<string, Folder>, current: Option<string>, n: nat)
    decreases n
  {
    if current == None then n == 0
    else n > 0 && current.value in folders && Ends(folders, folders[current.value].parent, n - 1)
  }

  lemma {:induction false} EndsOnce(folders: map<string, Folder>, current: Option<string>, m: nat, n: nat)
    requires Ends(folders, current, m) && Ends(folders, current, n)
    ensures m == n
    decreases m
  {
    if current.Some? { EndsOnce(folders, folders[current.value].parent, m - 1, n - 1); }
  }

  lemma {:induction false} RankedEnds(folders: map<string, Folder>, rank: map<string, nat>, id: string) returns (n: nat)
    requires Closed(folders) && Ranks(folders, rank) && id in folders
    ensures Ends(folders, Some(id), n)
    decreases rank[id]
  {
    if folders[id].parent == None {
      n := 1;
    } else {
      var m := RankedEnds(folders, rank, folders[id].parent.value);
      n := m + 1;
    }
  }

  ghost predicate AllEnd(folders: map<string, Folder>) {
    forall id :: id in folders ==> exists n :: Ends(folders, Some(id), n)
  }

  ghost function Distance(folders: map<string, Folder>, id: string): nat
    requires AllEnd(folders) && id in folders
  {
    var n :| Ends(folders, Some(id), n); n
  }

  // The hierarchy is closed and has no cycle exactly if every walk to the parents ends.
  lemma WalksDecide(folders: map<string, Folder>)
    ensures Closed(folders) && Acyclic(folders) <==> AllEnd(folders)
  {
    if Closed(folders) && Acyclic(folders) {
      var rank :| Ranks(folders, rank);
      forall id | id in folders ensures exists n :: Ends(folders, Some(id), n) {
        var n := RankedEnds(folders, rank, id);
      }
    }
    if AllEnd(folders) {
      var rank := map id | id in folders :: Distance(folders, id);
      forall id | id in folders && folders[id].parent.Some?
        ensures folders[id].parent.value in folders && rank[folders[id].parent.value] < rank[id]
      {
        assert Ends(folders, Some(id), Distance(folders, id)) && Ends(folders, folders[id].parent, rank[id] - 1);
        EndsOnce(folders, folders[id].parent, rank[folders[id].parent.value], rank[id] - 1);
      }
      assert Ranks(folders, rank);
    }
  }

  // Walks from a folder to the root; stops at a missing parent or one already visited.
  method WalkUp(folders: map<string, Folder>, id: string) returns (ok: bool)
    requires id in folders
    ensures ok ==> exists n :: Ends(folders, Some(id), n)
    ensures !ok ==> !(Closed(folders) && Acyclic(folders))
  {
    var visited := {id};
    var current := folders[id].parent;
    ghost var steps: nat, last := 1, id;
    while current.Some?
      invariant visited <= folders.Keys
      invariant last in folders && folders[last].parent == current
      invariant forall m: nat :: Ends(folders, current, m) ==> Ends(folders, Some(id), m + steps)
      invariant forall rank, v :: Ranks(folders, rank) && v in visited && current.Some? && current.value in folders ==>
        rank[current.value] < rank[v]
      decreases folders.Keys - visited
    {
      if current.value !in folders || current.value in visited { return false; }
      visited := visited + {current.value};
      last := current.value;
      forall m: nat | Ends(folders, folders[current.value].parent, m) ensures Ends(folders, Some(id), m + 1 + steps) {
        assert Ends(folders, current, m + 1);
      }
      current := folders[current.value].parent;
      steps := steps + 1;
    }
    assert Ends(folders, current, 0);
    return true;
  }

  method CheckFolders(folders: map<string, Folder>, rules: Rules) returns (ok: bool)
    ensures ok <==> Foldered(folders, rules)
  {
    hide Closed, Acyclic, Ends, FolderValid;
    var todo := folders.Keys;
    while todo != {}
      invariant todo <= folders.Keys
      invariant forall id :: id in folders && id !in todo ==>
        FolderValid(id, folders[id], rules) && exists n :: Ends(folders, Some(id), n)
      decreases todo
    {
      var id :| id in todo;
      todo := todo - {id};
      if !FolderValid(id, folders[id], rules) { return false; }
      var rooted := WalkUp(folders, id);
      if !rooted { return false; }
    }
    WalksDecide(folders);
    return true;
  }

  // ---------------------------------------------------------------- the check as loops

  method CheckScene(s: Scene, scope: Scope, rules: Rules) returns (ok: bool)
    ensures ok <==> SceneValid(s, scope, rules)
  {
    hide Lists, ElementValid, FileValid;
    if |s.elements| > 20000 { return false; }
    ok := CheckOrder(s.order, s.elements);
    if !ok { return false; }
    var todo := s.elements.Keys;
    while todo != {}
      invariant todo <= s.elements.Keys
      invariant forall id :: id in s.elements && id !in todo ==> ElementValid(id, s.elements[id], s.files, rules)
      decreases todo
    {
      var id :| id in todo;
      todo := todo - {id};
      if !ElementValid(id, s.elements[id], s.files, rules) { return false; }
    }
    todo := s.files.Keys;
    while todo != {}
      invariant todo <= s.files.Keys
      invariant forall f :: f in s.files && f !in todo ==> FileValid(f, s.files[f], scope)
      decreases todo
    {
      var f :| f in todo;
      todo := todo - {f};
      if !FileValid(f, s.files[f], scope) { return false; }
    }
    todo := s.view.Keys;
    while todo != {}
      invariant todo <= s.view.Keys
      invariant forall k :: k in s.view && k !in todo ==> rules.setting(k, s.view[k])
      decreases todo
    {
      var k :| k in todo;
      todo := todo - {k};
      if !rules.setting(k, s.view[k]) { return false; }
    }
    return true;
  }

  method CheckPages(pages: map<string, Page>, scope: Scope, rules: Rules) returns (ok: bool)
    ensures ok <==> forall id :: id in pages ==> PageValid(id, pages[id], scope, rules)
  {
    hide SceneValid, ResourceId.Valid;
    var todo := pages.Keys;
    while todo != {}
      invariant todo <= pages.Keys
      invariant forall id :: id in pages && id !in todo ==> PageValid(id, pages[id], scope, rules)
      decreases todo
    {
      var id :| id in todo;
      todo := todo - {id};
      var p := pages[id];
      if id != p.id || !ResourceId.Valid(id, "pag") || !rules.name(p.name) { return false; }
      ok := CheckScene(p.scene, scope, rules);
      if !ok { return false; }
    }
    return true;
  }

  method CheckNotes(notes: map<string, string>) returns (ok: bool)
    ensures ok <==> forall id :: id in notes ==> NoteValid(id, notes[id])
  {
    hide NoteCheck.ValidNote, ResourceId.Valid;
    var todo := notes.Keys;
    while todo != {}
      invariant todo <= notes.Keys
      invariant forall id :: id in notes && id !in todo ==> NoteValid(id, notes[id])
      decreases todo
    {
      var id :| id in todo;
      todo := todo - {id};
      if !ResourceId.Valid(id, "note") || !NoteCheck.ValidNote(notes[id]) { return false; }
    }
    return true;
  }

  // The whole check, in the order of the source.
  method Validate(s: Snapshot, scope: Scope, rules: Rules) returns (ok: bool)
    ensures ok <==> Valid(s, scope, rules)
  {
    hide Headed, Lists, PageValid, NoteValid, Foldered;
    if !Headed(s, scope) { return false; }
    ok := CheckOrder(s.pageOrder, s.pages);
    if !ok { return false; }
    ok := CheckPages(s.pages, scope, rules);
    if !ok { return false; }
    ok := CheckNotes(s.notes);
    if !ok { return false; }
    ok := CheckFolders(s.folders, rules);
    if !ok { return false; }
    var todo := s.noteFolders.Keys;
    while todo != {}
      invariant todo <= s.noteFolders.Keys
      invariant forall n :: n in s.noteFolders && n !in todo ==> n in s.notes && s.noteFolders[n] in s.folders
      decreases todo
    {
      var n :| n in todo;
      todo := todo - {n};
      if n !in s.notes || s.noteFolders[n] !in s.folders { return false; }
    }
    return true;
  }
}
