/** Giving every page, note, folder and asset of a document a new identifier. */
module Renaming {
  import opened Wrappers
  import Strings
  import opened Document
  import NotePlaces
  import NoteRemap
  import NoteRenamed
  import NoteCheck
  import ResourceId
  import opened SnapshotCheck

  // The new identifier of an old one, by kind.
  type Names = (string, string) -> string

  const KINDS := {"ast", "pag", "note", "fld"}

  // Names as they are derived for an import are valid. That they differ for the identifiers at hand is
  // required where it is needed: there are fewer names than texts.
  ghost predicate Derived(name: Names) {
    forall kind, id :: kind in KINDS ==> ResourceId.Valid(name(kind, id), kind)
  }

  // ---------------------------------------------------------------- the renamed document

  ghost predicate TellsApart<V>(h: string -> string, m: map<string, V>) {
    forall a, b :: a in m && b in m && h(a) == h(b) ==> a == b
  }

  ghost function Rekeyed<V, W>(m: map<string, V>, h: string -> string, g: (string, V) -> W): map<string, W>
    requires TellsApart(h, m)
  {
    map k | k in m :: h(k) := g(k, m[k])
  }

  function Of(name: Names, kind: string): string -> string {
    id => name(kind, id)
  }

  function RenamedScene(scene: Scene, name: Names): Scene {
    scene.(files := map f | f in scene.files :: scene.files[f].(id := name("ast", scene.files[f].id)))
  }

  function RenamedPage(name: Names): (string, Page) -> Page {
    (id: string, p: Page) => Page(name("pag", id), p.name, RenamedScene(p.scene, name))
  }

  function RenamedNote(name: Names): (string, string) -> string {
    (id: string, body: string) => NoteRemap.Remapped(body, Of(name, "pag"))
  }

  function RenamedFolder(name: Names): (string, Folder) -> Folder {
    (id: string, f: Folder) =>
      f.(id := name("fld", id), parent := if f.parent.Some? then Some(name("fld", f.parent.value)) else None)
  }

  function RenamedAssignment(name: Names): (string, string) -> string {
    (note: string, folder: string) => name("fld", folder)
  }

  ghost predicate Distinguishes(name: Names, s: Snapshot) {
    && TellsApart(Of(name, "pag"), s.pages)
    && TellsApart(Of(name, "note"), s.notes)
    && TellsApart(Of(name, "fld"), s.folders)
    && TellsApart(Of(name, "note"), s.noteFolders)
  }

  ghost function Renamed(s: Snapshot, board: string, name: Names): Snapshot
    requires Distinguishes(name, s)
  {
    Snapshot(
      1, board,
      Rekeyed(s.pages, Of(name, "pag"), RenamedPage(name)),
      seq(|s.pageOrder|, i requires 0 <= i < |s.pageOrder| => name("pag", s.pageOrder[i])),
      Rekeyed(s.notes, Of(name, "note"), RenamedNote(name)),
      Rekeyed(s.folders, Of(name, "fld"), RenamedFolder(name)),
      Rekeyed(s.noteFolders, Of(name, "note"), RenamedAssignment(name)))
  }

  // ---------------------------------------------------------------- maps with renamed keys

  lemma RekeyedCount<V, W>(m: map<string, V>, h: string -> string, g: (string, V) -> W)
    requires TellsApart(h, m)
    ensures |Rekeyed(m, h, g)| == |m|
  {
    ImageCount(m.Keys, h);
    assert Rekeyed(m, h, g).Keys == set k | k in m.Keys :: h(k);
    assert |Rekeyed(m, h, g).Keys| == |Rekeyed(m, h, g)| && |m.Keys| == |m|;
  }

  lemma ImageCount(keys: set<string>, h: string -> string)
    requires forall a, b :: a in keys && b in keys && h(a) == h(b) ==> a == b
    ensures |set k | k in keys :: h(k)| == |keys|
    decreases keys
  {
    if keys != {} {
      var k :| k in keys;
      ImageCount(keys - {k}, h);
      assert (set x | x in keys :: h(x)) == (set x | x in keys - {k} :: h(x)) + {h(k)};
    } else {
      assert (set x | x in keys :: h(x)) == {};
    }
  }

  lemma RekeyedAt<V, W>(m: map<string, V>, h: string -> string, g: (string, V) -> W, k: string)
    requires TellsApart(h, m) && k in m
    ensures h(k) in Rekeyed(m, h, g) && Rekeyed(m, h, g)[h(k)] == g(k, m[k])
  {
  }

  lemma RekeyedFrom<V, W>(m: map<string, V>, h: string -> string, g: (string, V) -> W, x: string) returns (k: string)
    requires TellsApart(h, m) && x in Rekeyed(m, h, g)
    ensures k in m && x == h(k) && Rekeyed(m, h, g)[x] == g(k, m[k])
  {
    k :| k in m && h(k) == x;
  }

  // ---------------------------------------------------------------- part by part

  // The renamed document has the pages in the same places, under their new identifiers and with the same
  // names, elements, order and view; each of their files stands for the same asset under its new one.
  lemma PagesInPlace(s: Snapshot, board: string, name: Names, i: nat)
    requires Distinguishes(name, s) && i < |s.pageOrder| && s.pageOrder[i] in s.pages
    ensures var t, was := Renamed(s, board, name), s.pages[s.pageOrder[i]];
      && |t.pageOrder| == |s.pageOrder| && t.pageOrder[i] == name("pag", s.pageOrder[i]) && t.pageOrder[i] in t.pages
      && var now := t.pages[t.pageOrder[i]];
         now.id == t.pageOrder[i] && now.name == was.name && now.scene.elements == was.scene.elements &&
         now.scene.order == was.scene.order && now.scene.view == was.scene.view && now.scene.files.Keys == was.scene.files.Keys &&
         forall f :: f in was.scene.files ==> now.scene.files[f] == Asset(name("ast", was.scene.files[f].id), was.scene.files[f].mime)
  {
    hide TellsApart, Rekeyed, RenamedNote, RenamedFolder, RenamedAssignment;
    RekeyedAt(s.pages, Of(name, "pag"), RenamedPage(name), s.pageOrder[i]);
  }

  // Folders keep their names, times and places in the tree, and notes their folders.
  lemma FoldersInPlace(s: Snapshot, board: string, name: Names, folder: string)
    requires Distinguishes(name, s) && folder in s.folders
    ensures var t, was := Renamed(s, board, name), s.folders[folder];
      && name("fld", folder) in t.folders
      && t.folders[name("fld", folder)] ==
         Folder(name("fld", folder), was.name, if was.parent.Some? then Some(name("fld", was.parent.value)) else None, was.createdAt, was.updatedAt)
  {
    hide TellsApart, Rekeyed, RenamedNote, RenamedPage, RenamedAssignment;
    RekeyedAt(s.folders, Of(name, "fld"), RenamedFolder(name), folder);
  }

  // A note has the new identifiers at the places of its page references, and otherwise its text; its
  // folder is the same one under its new name.
  lemma NotesInPlace(s: Snapshot, board: string, name: Names, note: string)
    requires Distinguishes(name, s) && Derived(name)
    ensures var t := Renamed(s, board, name);
      && (note in s.notes ==> name("note", note) in t.notes && |t.notes| == |s.notes| && |t.folders| == |s.folders| && |t.pages| == |s.pages|)
      && (note in s.notes ==>
            NotePlaces.Placed(s.notes[note], t.notes[name("note", note)], Of(name, "pag"), NoteRenamed.NotePlacesOf(s.notes[note])))
      && (note in s.noteFolders ==> name("note", note) in t.noteFolders && t.noteFolders[name("note", note)] == name("fld", s.noteFolders[note]))
  {
    hide TellsApart, Rekeyed, RenamedPage, RenamedFolder, Derived, NotePlaces.Placed, NoteRemap.Remapped, NoteRemap.KeepsShape;
    RekeyedCount(s.notes, Of(name, "note"), RenamedNote(name));
    RekeyedCount(s.folders, Of(name, "fld"), RenamedFolder(name));
    RekeyedCount(s.pages, Of(name, "pag"), RenamedPage(name));
    if note in s.notes {
      RekeyedAt(s.notes, Of(name, "note"), RenamedNote(name), note);
      DerivedIssues(name);
      NoteCheck.IssuesKeepsShape(Of(name, "pag"));
      NoteRenamed.RemapExactly(s.notes[note], Of(name, "pag"));
    }
    if note in s.noteFolders { RekeyedAt(s.noteFolders, Of(name, "note"), RenamedAssignment(name), note); }
  }

  // ---------------------------------------------------------------- validity is kept

  // What the renamed document may refer to: the same uploads under their new identifiers.
  ghost predicate ScopeRenamed(scope: Scope, scope': Scope, name: Names) {
    && scope.mimes.Some? && scope'.mimes.Some?
    && (forall id :: id in scope.allowed ==> name("ast", id) in scope'.allowed)
    && (forall id :: id in scope.allowed ==> Lookup(scope'.mimes.value, name("ast", id)) == Lookup(scope.mimes.value, id))
  }

  lemma OrderKept(s: Snapshot, name: Names)
    requires Derived(name) && Lists(s.pageOrder, s.pages) && Distinguishes(name, s)
    ensures Lists(Renamed(s, "", name).pageOrder, Renamed(s, "", name).pages)
  {
    hide ResourceId.Valid;
    var t := Renamed(s, "", name);
    forall id | id in t.pages ensures id in t.pageOrder {
      var was := RekeyedFrom(s.pages, Of(name, "pag"), RenamedPage(name), id);
      var i :| 0 <= i < |s.pageOrder| && s.pageOrder[i] == was;
      assert t.pageOrder[i] == id;
    }
    forall i, j | 0 <= i < j < |t.pageOrder| ensures t.pageOrder[i] != t.pageOrder[j] {
      assert s.pageOrder[i] in s.pages && s.pageOrder[j] in s.pages;
      assert Of(name, "pag")(s.pageOrder[i]) == t.pageOrder[i] && Of(name, "pag")(s.pageOrder[j]) == t.pageOrder[j];
    }
    forall i | 0 <= i < |t.pageOrder| ensures t.pageOrder[i] in t.pages {
      RekeyedAt(s.pages, Of(name, "pag"), RenamedPage(name), s.pageOrder[i]);
    }
  }

  lemma SceneKept(scene: Scene, name: Names, scope: Scope, scope': Scope, rules: Rules)
    requires Derived(name) && ScopeRenamed(scope, scope', name) && SceneValid(scene, scope, rules)
    ensures SceneValid(RenamedScene(scene, name), scope', rules)
  {
    hide ResourceId.Valid, Lists, Strings.Utf8Length;
    var t := RenamedScene(scene, name);
    assert t.files.Keys == scene.files.Keys;
    forall id | id in t.elements ensures ElementValid(id, t.elements[id], t.files, rules) {
      assert ElementValid(id, scene.elements[id], scene.files, rules);
    }
    forall f | f in t.files ensures FileValid(f, t.files[f], scope') {
      assert FileValid(f, scene.files[f], scope);
    }
  }

  lemma PagesKept(s: Snapshot, name: Names, scope: Scope, scope': Scope, rules: Rules)
    requires Derived(name) && ScopeRenamed(scope, scope', name) && TellsApart(Of(name, "pag"), s.pages)
    requires forall id :: id in s.pages ==> PageValid(id, s.pages[id], scope, rules)
    ensures var pages := Rekeyed(s.pages, Of(name, "pag"), RenamedPage(name));
      forall id :: id in pages ==> PageValid(id, pages[id], scope', rules)
  {
    hide ResourceId.Valid, SceneValid, RenamedScene, ScopeRenamed;
    var pages := Rekeyed(s.pages, Of(name, "pag"), RenamedPage(name));
    forall id | id in pages ensures PageValid(id, pages[id], scope', rules) {
      var was := RekeyedFrom(s.pages, Of(name, "pag"), RenamedPage(name), id);
      assert PageValid(was, s.pages[was], scope, rules);
      SceneKept(s.pages[was].scene, name, scope, scope', rules);
    }
  }

  lemma NotesKept(notes: map<string, string>, name: Names)
    requires Derived(name) && TellsApart(Of(name, "note"), notes)
    requires forall id :: id in notes ==> NoteValid(id, notes[id])
    ensures var notes' := Rekeyed(notes, Of(name, "note"), RenamedNote(name));
      forall id :: id in notes' ==> NoteValid(id, notes'[id])
  {
    hide ResourceId.Valid, NoteCheck.ValidNote, NoteRemap.Remapped, NoteRemap.IsRef;
    var notes' := Rekeyed(notes, Of(name, "note"), RenamedNote(name));
    assert NoteCheck.Issues(Of(name, "pag")) by { DerivedIssues(name); }
    forall id | id in notes' ensures NoteValid(id, notes'[id]) {
      var was := RekeyedFrom(notes, Of(name, "note"), RenamedNote(name), id);
      assert NoteValid(was, notes[was]);
      NoteCheck.ValidNoteRemapped(notes[was], Of(name, "pag"));
    }
  }

  lemma DerivedIssues(name: Names)
    requires Derived(name)
    ensures NoteCheck.Issues(Of(name, "pag"))
  {
    hide ResourceId.Valid, NoteRemap.IsRef;
  }

  lemma FoldersKept(folders: map<string, Folder>, name: Names, rules: Rules)
    requires Derived(name) && TellsApart(Of(name, "fld"), folders) && Foldered(folders, rules)
    ensures Foldered(Rekeyed(folders, Of(name, "fld"), RenamedFolder(name)), rules)
  {
    hide ResourceId.Valid, Acyclic;
    var folders' := Rekeyed(folders, Of(name, "fld"), RenamedFolder(name));
    forall id | id in folders'
      ensures FolderValid(id, folders'[id], rules) && (folders'[id].parent.Some? ==> folders'[id].parent.value in folders')
    {
      var was := RekeyedFrom(folders, Of(name, "fld"), RenamedFolder(name), id);
      assert FolderValid(was, folders[was], rules);
      if folders[was].parent.Some? { RekeyedAt(folders, Of(name, "fld"), RenamedFolder(name), folders[was].parent.value); }
    }
    AcyclicKept(folders, name);
  }

  lemma AcyclicKept(folders: map<string, Folder>, name: Names)
    requires Derived(name) && TellsApart(Of(name, "fld"), folders) && Acyclic(folders) && Closed(folders)
    ensures Acyclic(Rekeyed(folders, Of(name, "fld"), RenamedFolder(name)))
  {
    hide ResourceId.Valid, Derived, Rekeyed;
    var h := Of(name, "fld");
    var folders' := Rekeyed(folders, h, RenamedFolder(name));
    var rank :| Ranks(folders, rank);
    var keep := (k: string, n: nat) => n;
    var rank' := Rekeyed(rank, h, keep);
    forall id ensures id in rank' <==> id in folders' {
      if id in rank' { var k := RekeyedFrom(rank, h, keep, id); RekeyedAt(folders, h, RenamedFolder(name), k); }
      if id in folders' { var k := RekeyedFrom(folders, h, RenamedFolder(name), id); RekeyedAt(rank, h, keep, k); }
    }
    forall id | id in folders' && folders'[id].parent.Some? && folders'[id].parent.value in folders'
      ensures rank'[folders'[id].parent.value] < rank'[id]
    {
      var k := RekeyedFrom(folders, h, RenamedFolder(name), id);
      RekeyedAt(rank, h, keep, k);
      RekeyedAt(rank, h, keep, folders[k].parent.value);
    }
    assert Ranks(folders', rank');
  }

  lemma AssignedKept(s: Snapshot, board: string, name: Names)
    requires Distinguishes(name, s) && Assigned(s)
    ensures Assigned(Renamed(s, board, name))
  {
    var t := Renamed(s, board, name);
    forall n | n in t.noteFolders ensures n in t.notes && t.noteFolders[n] in t.folders {
      var was := RekeyedFrom(s.noteFolders, Of(name, "note"), RenamedAssignment(name), n);
      RekeyedAt(s.notes, Of(name, "note"), RenamedNote(name), was);
      RekeyedAt(s.folders, Of(name, "fld"), RenamedFolder(name), s.noteFolders[was]);
    }
  }

  // Renaming a valid document gives a valid document.
  lemma RenamedValid(s: Snapshot, board: string, name: Names, scope: Scope, scope': Scope, rules: Rules)
    requires Derived(name) && Distinguishes(name, s) && Valid(s, scope, rules) && ScopeRenamed(scope, scope', name)
    requires ResourceId.Valid(board, "brd") && scope'.board == board
    ensures Valid(Renamed(s, board, name), scope', rules)
  {
    hide ResourceId.Valid, Derived, ScopeRenamed, Lists, Foldered, PageValid, NoteValid, Assigned, Distinguishes, Rekeyed, TellsApart;
    Apart(name, s);
    OrderKept(s, name);
    PagesKept(s, name, scope, scope', rules);
    NotesKept(s.notes, name);
    FoldersKept(s.folders, name, rules);
    AssignedKept(s, board, name);
    RekeyedCount(s.pages, Of(name, "pag"), RenamedPage(name));
    RekeyedCount(s.notes, Of(name, "note"), RenamedNote(name));
    RekeyedCount(s.folders, Of(name, "fld"), RenamedFolder(name));
  }

  lemma Apart(name: Names, s: Snapshot)
    requires Distinguishes(name, s)
    ensures TellsApart(Of(name, "pag"), s.pages) && TellsApart(Of(name, "note"), s.notes)
    ensures TellsApart(Of(name, "fld"), s.folders) && TellsApart(Of(name, "note"), s.noteFolders)
  {
  }

  // ---------------------------------------------------------------- and can be undone

  ghost predicate Reverts(back: Names, name: Names, kind: string, id: string) {
    back(kind, name(kind, id)) == id
  }

  // The note has a structural reference to the page.
  ghost predicate Mentions(body: string, id: string) {
    NoteRemap.Ref(id) in NoteRemap.NotePieces(body)
  }

  // Every identifier that occurs in the document can be told from its new name.
  ghost predicate Undoes(back: Names, name: Names, s: Snapshot) {
    && (forall id :: id in s.pages ==> Reverts(back, name, "pag", id))
    && (forall n, id :: n in s.notes && Mentions(s.notes[n], id) ==> Reverts(back, name, "pag", id))
    && (forall id :: id in s.notes || id in s.noteFolders ==> Reverts(back, name, "note", id))
    && (forall id :: id in s.folders ==> Reverts(back, name, "fld", id))
    && (forall id :: id in s.folders && s.folders[id].parent.Some? ==> Reverts(back, name, "fld", s.folders[id].parent.value))
    && (forall n :: n in s.noteFolders ==> Reverts(back, name, "fld", s.noteFolders[n]))
    && (forall p, f :: p in s.pages && f in s.pages[p].scene.files ==> Reverts(back, name, "ast", s.pages[p].scene.files[f].id))
  }

  lemma UndoesDistinguishes(s: Snapshot, name: Names, back: Names)
    requires Undoes(back, name, s)
    ensures Distinguishes(name, s)
  {
    hide Mentions;
    assert forall kind, a, b :: Reverts(back, name, kind, a) && Reverts(back, name, kind, b) && name(kind, a) == name(kind, b) ==> a == b;
  }

  lemma {:induction false} SameText(ps: seq<NoteRemap.Piece>, f: NoteRemap.Renaming)
    requires forall i :: 0 <= i < |ps| && ps[i].Ref? ==> f(ps[i].id) == ps[i].id
    ensures NoteRemap.Render(ps, f) == NoteRemap.Render(ps, NoteRemap.Same())
  {
    if ps != [] { SameText(ps[1..], f); }
  }

  lemma NoteUndone(body: string, name: Names, back: Names)
    requires Derived(name) && forall id :: Mentions(body, id) ==> Reverts(back, name, "pag", id)
    ensures NoteRemap.Remapped(NoteRemap.Remapped(body, Of(name, "pag")), Of(back, "pag")) == body
  {
    hide ResourceId.Valid, NoteRemap.NotePieces, NoteRemap.Render;
    DerivedIssues(name);
    NoteCheck.IssuesKeepsShape(Of(name, "pag"));
    NoteRemap.RemapFusion(body, Of(name, "pag"), Of(back, "pag"));
    var ps := NoteRemap.NotePieces(body);
    forall i | 0 <= i < |ps| && ps[i].Ref?
      ensures NoteRemap.Then(Of(name, "pag"), Of(back, "pag"))(ps[i].id) == ps[i].id
    {
      assert Mentions(body, ps[i].id);
    }
    SameText(ps, NoteRemap.Then(Of(name, "pag"), Of(back, "pag")));
    NoteRemap.RemapIdentity(body);
  }

  // A map renamed and renamed back is the original if its values are.
  lemma RekeyedUndone<V>(m: map<string, V>, h: string -> string, g: (string, V) -> V, h': string -> string, g': (string, V) -> V)
    requires TellsApart(h, m)
    requires forall k :: k in m ==> h'(h(k)) == k
    requires forall k :: k in m ==> g'(h(k), g(k, m[k])) == m[k]
    ensures TellsApart(h', Rekeyed(m, h, g)) && Rekeyed(Rekeyed(m, h, g), h', g') == m
  {
    var t := Rekeyed(m, h, g);
    forall x | x in t ensures exists k :: k in m && x == h(k) && t[x] == g(k, m[k]) { var k := RekeyedFrom(m, h, g, x); }
    var u := Rekeyed(t, h', g');
    forall k | k in m ensures k in u && u[k] == m[k] {
      RekeyedAt(m, h, g, k);
      RekeyedAt(t, h', g', h(k));
    }
    forall k | k in u ensures k in m {
      var x := RekeyedFrom(t, h', g', k);
    }
  }

  lemma SceneUndone(scene: Scene, name: Names, back: Names)
    requires forall f :: f in scene.files ==> Reverts(back, name, "ast", scene.files[f].id)
    ensures RenamedScene(RenamedScene(scene, name), back) == scene
  {
    assert RenamedScene(RenamedScene(scene, name), back).files == scene.files;
  }

  // Keys repeated inside the entries, and an order of pages that exist, as in every valid document.
  ghost predicate SelfKeyed(s: Snapshot) {
    && s.schemaVersion == 1
    && (forall id :: id in s.pages ==> s.pages[id].id == id)
    && (forall id :: id in s.folders ==> s.folders[id].id == id)
    && (forall id :: id in s.pageOrder ==> id in s.pages)
  }

  // The imported document is the original up to the names: renaming back gives it again, whole.
  lemma RenamedUndone(s: Snapshot, board: string, name: Names, back: Names)
    requires Derived(name) && Undoes(back, name, s) && SelfKeyed(s)
    ensures Distinguishes(name, s) && Distinguishes(back, Renamed(s, board, name))
    ensures Renamed(Renamed(s, board, name), s.board, back) == s
  {
    hide ResourceId.Valid, NoteRemap.Remapped, RenamedScene, Rekeyed;
    UndoesDistinguishes(s, name, back);
    forall k | k in s.pages
      ensures RenamedPage(back)(Of(name, "pag")(k), RenamedPage(name)(k, s.pages[k])) == s.pages[k]
    {
      SceneUndone(s.pages[k].scene, name, back);
    }
    forall k | k in s.notes
      ensures RenamedNote(back)(Of(name, "note")(k), RenamedNote(name)(k, s.notes[k])) == s.notes[k]
    {
      NoteUndone(s.notes[k], name, back);
    }
    RekeyedUndone(s.pages, Of(name, "pag"), RenamedPage(name), Of(back, "pag"), RenamedPage(back));
    RekeyedUndone(s.notes, Of(name, "note"), RenamedNote(name), Of(back, "note"), RenamedNote(back));
    RekeyedUndone(s.folders, Of(name, "fld"), RenamedFolder(name), Of(back, "fld"), RenamedFolder(back));
    RekeyedUndone(s.noteFolders, Of(name, "note"), RenamedAssignment(name), Of(back, "note"), RenamedAssignment(back));
    forall i | 0 <= i < |s.pageOrder| ensures back("pag", name("pag", s.pageOrder[i])) == s.pageOrder[i] {
      assert s.pageOrder[i] in s.pages && Reverts(back, name, "pag", s.pageOrder[i]);
    }
    assert Renamed(Renamed(s, board, name), s.board, back).pageOrder == s.pageOrder;
  }
}
