/** An archive that is accepted and then refused at its import: its notes hold more text than the
    document codec does. */
module TransferBulk {
  import opened Wrappers
  import opened Document
  import opened SnapshotCheck
  import opened Renaming
  import opened Premium
  import opened Transfer
  import NoteCheck
  import ResourceId

  const BOARD := ResourceId.Small("brd", '1')
  const PAGE := ResourceId.Small("pag", '1')

  // Seventeen notes of 1 MiB each.
  const NOTES := 17
  const NOTE_BYTES := 0x10_0000

  function Text(n: nat): (s: string)
    ensures |s| == n && NoteCheck.Letters(s)
  {
    if n == 0 then "" else Text(n - 1) + "a"
  }

  function NoteId(i: nat): string
    requires i < NOTES
  {
    ResourceId.Small("note", 'A' + i as char)
  }

  lemma NoteIds(i: nat, j: nat)
    requires i < NOTES && j < NOTES
    ensures ResourceId.Valid(NoteId(i), "note") && (NoteId(i) == NoteId(j) ==> i == j)
  {
    hide ResourceId.Valid, ResourceId.Zeros;
    ResourceId.SmallIsValid("note", 'A' + i as char);
    ResourceId.SmallIsValid("note", 'A' + j as char);
    assert NoteId(i)[31] == 'A' + i as char && NoteId(j)[31] == 'A' + j as char;
  }

  function Ids(n: nat): (ids: seq<string>)
    requires n <= NOTES
    ensures |ids| == n && forall i :: 0 <= i < n ==> ids[i] == NoteId(i)
  {
    if n == 0 then [] else Ids(n - 1) + [NoteId(n - 1)]
  }

  function Notes(n: nat): (notes: map<string, string>)
    requires n <= NOTES
    ensures |notes| <= n
    ensures forall id :: id in notes <==> id in Ids(n)
    ensures forall id :: id in notes ==> notes[id] == Text(NOTE_BYTES)
  {
    if n == 0 then map[]
    else
      assert Notes(n - 1)[NoteId(n - 1) := Text(NOTE_BYTES)].Keys == Notes(n - 1).Keys + {NoteId(n - 1)};
      Notes(n - 1)[NoteId(n - 1) := Text(NOTE_BYTES)]
  }

  const BULKY := Snapshot(1, BOARD, map[PAGE := Page(PAGE, "Plan", EMPTY_SCENE)], [PAGE], Notes(NOTES), map[], map[])

  lemma AllAmong(n: nat)
    requires n <= NOTES
    ensures Among(Notes(NOTES), Ids(n))
  {
    hide Notes, NoteId;
    forall i | 0 <= i < n ensures Ids(n)[i] in Notes(NOTES) { assert Ids(NOTES)[i] == Ids(n)[i]; }
    forall i, j | 0 <= i < j < n ensures Ids(n)[i] != Ids(n)[j] { NoteIds(i, j); }
  }

  lemma {:induction false} TextInAll(n: nat)
    requires n <= NOTES
    ensures Among(Notes(NOTES), Ids(n)) && TotalText(Notes(NOTES), Ids(n)) == n * NOTE_BYTES
  {
    hide Notes, NoteId, Among;
    AllAmong(n);
    if n > 0 {
      TextInAll(n - 1);
      FewerAmong(Notes(NOTES), Ids(n));
      assert Ids(n)[..n - 1] == Ids(n - 1);
    }
  }

  lemma NotesValid(id: string)
    requires id in Notes(NOTES)
    ensures NoteValid(id, Notes(NOTES)[id])
  {
    hide NoteCheck.ValidNote, Text, Notes, NoteId;
    var i :| 0 <= i < NOTES && Ids(NOTES)[i] == id;
    NoteIds(i, i);
    NoteCheck.LettersAreValid(Text(NOTE_BYTES));
  }

  lemma NoScene(scope: Scope, rules: Rules)
    ensures SceneValid(EMPTY_SCENE, scope, rules)
  {
  }

  lemma BulkyPages(scope: Scope, rules: Rules)
    requires rules.name("Plan")
    ensures Lists(BULKY.pageOrder, BULKY.pages)
    ensures forall id :: id in BULKY.pages ==> PageValid(id, BULKY.pages[id], scope, rules)
  {
    hide ResourceId.Valid, ResourceId.Small, SceneValid, Notes;
    ResourceId.SmallIsValid("pag", '1');
    NoScene(scope, rules);
    assert BULKY.pageOrder[0] == PAGE;
  }

  lemma NoFolders(rules: Rules)
    ensures Foldered(map[], rules)
  {
    assert Ranks(map[], map[]);
  }

  lemma BulkyHeaded(scope: Scope)
    requires scope.board == BOARD
    ensures Headed(BULKY, scope) && Assigned(BULKY) && BULKY.folders == map[] && BULKY.notes == Notes(NOTES)
  {
    hide ResourceId.Valid, ResourceId.Small, Notes;
    ResourceId.SmallIsValid("brd", '1');
    assert |BULKY.pages| == 1;
  }

  lemma BulkyValid(scope: Scope, rules: Rules)
    requires rules.name("Plan") && scope.board == BOARD
    ensures Valid(BULKY, scope, rules)
  {
    hide BULKY, Headed, Assigned, Foldered, PageValid, Lists, NoteValid, Notes;
    BulkyHeaded(scope);
    BulkyPages(scope, rules);
    NoFolders(rules);
    forall id | id in BULKY.notes ensures NoteValid(id, BULKY.notes[id]) { NotesValid(id); }
  }

  lemma BulkyAccepted(env: Env)
    requires env.rules.name("Plan")
    ensures ArchiveValid(env, Archive(BULKY, map[]))
  {
    hide Valid, BULKY;
    BulkyBoard();
    BulkyValid(ScopeOf(BULKY.board, Originals(env, Archive(BULKY, map[]))), env.rules);
  }

  lemma BulkyBoard()
    ensures BULKY.board == BOARD && BULKY.notes == Notes(NOTES) && forall page :: page in BULKY.pages ==> BULKY.pages[page].scene == EMPTY_SCENE
  {
    hide Notes, ResourceId.Small;
  }

  predicate Bare(s: Snapshot) {
    forall page :: page in s.pages ==> s.pages[page].scene.elements == map[]
  }

  lemma RenamedPageBare(pages: map<string, Page>, name: Names, page: string)
    requires TellsApart(Of(name, "pag"), pages) && page in Rekeyed(pages, Of(name, "pag"), RenamedPage(name))
    requires forall k :: k in pages ==> pages[k].scene.elements == map[]
    ensures Rekeyed(pages, Of(name, "pag"), RenamedPage(name))[page].scene.elements == map[]
  {
    hide Rekeyed, TellsApart;
    var k := RekeyedFrom(pages, Of(name, "pag"), RenamedPage(name), page);
    var was := pages[k];
    assert RenamedPage(name)(k, was) == Page(name("pag", k), was.name, RenamedScene(was.scene, name));
  }

  lemma RenamedBare(s: Snapshot, board: string, name: Names)
    requires Distinguishes(name, s) && Bare(s)
    ensures Bare(Renamed(s, board, name))
  {
    hide Rekeyed, TellsApart, RenamedPage, RenamedNote, RenamedFolder, RenamedAssignment;
    forall page | page in Renamed(s, board, name).pages ensures Renamed(s, board, name).pages[page].scene.elements == map[] {
      RenamedPageBare(s.pages, name, page);
    }
  }

  lemma BareIsPermitted(catalog: Catalog, s: Snapshot, scope: Scope, allowed: bool)
    requires Bare(s)
    ensures PremiumTransition(catalog, EMPTY_SNAPSHOT, s, scope, allowed)
  {
    hide ElementAllowed;
  }

  // Nothing in it is premium.
  lemma BulkyPermitted(env: Env, p: Payload, name: Names)
    requires Plannable(name, Archive(BULKY, map[]))
    ensures Permitted(env, p, name, Archive(BULKY, map[]))
  {
    hide BULKY, Plans, ScopeOf, PremiumTransition, Derived, Renamed, Distinguishes;
    BulkyBoard();
    RenamedBare(BULKY, p.board, name);
    BareIsPermitted(env.catalog, Renamed(BULKY, p.board, name), ScopeOf(p.board, Plans(env, p, name, Archive(BULKY, map[]))), p.entitled);
  }

  // The failure is real: this archive is accepted, and every import of it is found invalid.
  lemma AcceptedButRefused(env: Env, p: Payload, name: Names)
    requires env.rules.name("Plan") && StoresText(env)
    requires forall a :: env.parse(env.format(a)) == Some(a)
    requires |env.format(Archive(BULKY, map[]))| <= MAX_IMPORT
    requires Plannable(name, Archive(BULKY, map[])) && ResourceId.Valid(p.board, "brd")
    ensures Accepts(env, env.format(Archive(BULKY, map[])))
    ensures Import(env, p, name, Archive(BULKY, map[])) == Invalid
  {
    hide BULKY, ArchiveValid, Plannable, Permitted, Import, StoresText, Notes, ResourceId.Valid;
    BulkyAccepted(env);
    BulkyPermitted(env, p, name);
    BulkyBoard();
    TextInAll(NOTES);
    TooMuchTextIsRefused(env, p, name, Archive(BULKY, map[]), Ids(NOTES));
  }
}
