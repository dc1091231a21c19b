/** Portable archives: what an import accepts and plans, what an export writes, and that one undoes
    the other. Bytes are characters; hashing, media sniffing and the archive's JSON are parameters. */
module Transfer {
  import opened Wrappers
  import opened Document
  import opened SnapshotCheck
  import opened Renaming
  import NoteCheck
  import NoteRemap
  import opened Premium
  import ResourceId

  type Bytes = string

  const MAX_IMPORT := 64_000_000
  const MAX_ATTACHMENT := 20_000_000
  const MAX_ASSETS := 100

  datatype Attachment = Attachment(mime: string, data: Bytes)

  datatype Archive = Archive(snapshot: Snapshot, assets: map<string, Attachment>)

  datatype Upload = Upload(id: string, board: string, size: nat, mime: string, digest: string, premium: bool)

  // `parse` covers the form of an archive: its JSON, its format and its version. `packs` is the document
  // codec's verdict on a valid document: whether its encoded state keeps the codec's own limits.
  datatype Env = Env(digest: Bytes -> string, sniff: Bytes -> string, catalog: Catalog, rules: Rules,
                     parse: Bytes -> Option<Archive>, format: Archive -> Bytes, packs: Snapshot -> bool)

  // ---------------------------------------------------------------- media

  function Metadata(env: Env, board: string, id: string, a: Attachment): Upload {
    Upload(id, board, |a.data|, a.mime, env.digest(a.data), false)
  }

  predicate KnownDigest(catalog: Catalog, digest: string) {
    exists id :: id in catalog && catalog[id] == digest
  }

  predicate StartsAt(s: string, part: string, i: nat) {
    i + |part| <= |s| && s[i..i + |part|] == part
  }

  predicate Contains(s: string, part: string) {
    exists i :: 0 <= i <= |s| && StartsAt(s, part, i)
  }

  predicate ValidMedia(env: Env, a: Attachment) {
    && 1 <= |a.data| <= MAX_ATTACHMENT
    && if a.mime == "image/svg+xml" then KnownDigest(env.catalog, env.digest(a.data)) && Contains(a.data, "<svg")
       else a.mime == env.sniff(a.data) && a.mime in {"image/png", "image/jpeg", "image/webp", "image/gif"}
  }

  predicate AllMedia(env: Env, assets: map<string, Attachment>) {
    forall id :: id in assets ==> ValidMedia(env, assets[id])
  }

  function ScopeOf(board: string, uploads: map<string, Upload>): Scope {
    Scope(board, uploads.Keys, set id | id in uploads && uploads[id].premium,
          map id | id in uploads :: uploads[id].digest, Some(map id | id in uploads :: uploads[id].mime))
  }

  // ---------------------------------------------------------------- accepting an archive

  function Originals(env: Env, archive: Archive): map<string, Upload> {
    map id | id in archive.assets ::
      Metadata(env, archive.snapshot.board, id, archive.assets[id]).(premium := KnownDigest(env.catalog, env.digest(archive.assets[id].data)))
  }

  ghost predicate ArchiveValid(env: Env, archive: Archive) {
    && |archive.assets| <= MAX_ASSETS
    && AllMedia(env, archive.assets)
    && Valid(archive.snapshot, ScopeOf(archive.snapshot.board, Originals(env, archive)), env.rules)
  }

  ghost predicate Accepts(env: Env, data: Bytes) {
    |data| <= MAX_IMPORT && env.parse(data).Some? && ArchiveValid(env, env.parse(data).value)
  }

  method CheckMedia(env: Env, assets: map<string, Attachment>) returns (ok: bool)
    ensures ok == AllMedia(env, assets)
  {
    hide ValidMedia;
    var todo := assets.Keys;
    while todo != {}
      invariant todo <= assets.Keys
      invariant forall id :: id in assets && id !in todo ==> ValidMedia(env, assets[id])
      decreases todo
    {
      var id :| id in todo;
      todo := todo - {id};
      if !ValidMedia(env, assets[id]) { return false; }
    }
    return true;
  }

  method DecodeImport(env: Env, data: Bytes) returns (archive: Option<Archive>)
    ensures archive == if Accepts(env, data) then env.parse(data) else None
  {
    hide Valid, AllMedia, Originals;
    if |data| > MAX_IMPORT { return None; }
    archive := env.parse(data);
    if archive == None || |archive.value.assets| > MAX_ASSETS { return None; }
    var ok := CheckMedia(env, archive.value.assets);
    if !ok { return None; }
    ok := Validate(archive.value.snapshot, ScopeOf(archive.value.snapshot.board, Originals(env, archive.value)), env.rules);
    if !ok { return None; }
  }

  // ---------------------------------------------------------------- planning an import

  // `prepared` holds the premium flags that an earlier pass committed.
  datatype Payload = Payload(board: string, prepared: map<string, bool>, entitled: bool)

  // An element shows the asset as a catalog occurrence, or carries an identifier pinned to its bytes.
  predicate Provenance(env: Env, scene: Scene, e: Element, source: string, a: Attachment) {
    var id := CatalogId(env.catalog, e).0;
    id in env.catalog &&
    (env.catalog[id] == env.digest(a.data) || (ElementAsset(scene, e) == source && a.mime != "image/svg+xml"))
  }

  predicate Shows(env: Env, scene: Scene, source: string, a: Attachment) {
    exists id :: id in scene.elements && Provenance(env, scene, scene.elements[id], source, a)
  }

  predicate Marked(env: Env, s: Snapshot, source: string, a: Attachment) {
    KnownDigest(env.catalog, env.digest(a.data)) || exists page :: page in s.pages && Shows(env, s.pages[page].scene, source, a)
  }

  function Planned(env: Env, p: Payload, name: Names, s: Snapshot, source: string, a: Attachment): Upload {
    var id := name("ast", source);
    Metadata(env, p.board, id, a).(premium := if id in p.prepared then p.prepared[id] else Marked(env, s, source, a))
  }

  function PlannedBy(env: Env, p: Payload, name: Names, s: Snapshot): (string, Attachment) -> Upload {
    (source: string, a: Attachment) => Planned(env, p, name, s, source, a)
  }

  ghost function Plans(env: Env, p: Payload, name: Names, archive: Archive): map<string, Upload>
    requires TellsApart(Of(name, "ast"), archive.assets)
  {
    Rekeyed(archive.assets, Of(name, "ast"), PlannedBy(env, p, name, archive.snapshot))
  }

  datatype Outcome = Ready(uploads: map<string, Upload>, target: Snapshot) | Invalid | Denied

  ghost function Import(env: Env, p: Payload, name: Names, archive: Archive): Outcome
    requires TellsApart(Of(name, "ast"), archive.assets) && Distinguishes(name, archive.snapshot)
  {
    var target := Renamed(archive.snapshot, p.board, name);
    var scope := ScopeOf(p.board, Plans(env, p, name, archive));
    if !AllMedia(env, archive.assets) then Invalid
    else if !PremiumTransition(env.catalog, EMPTY_SNAPSHOT, target, scope, p.entitled) then Denied
    else if !Valid(target, scope, env.rules) || !env.packs(target) then Invalid
    else Ready(Plans(env, p, name, archive), target)
  }

  // The names tell everything in the archive apart.
  ghost predicate Plannable(name: Names, archive: Archive) {
    Derived(name) && TellsApart(Of(name, "ast"), archive.assets) && Distinguishes(name, archive.snapshot)
  }

  lemma PlansScope(env: Env, p: Payload, name: Names, archive: Archive)
    requires Derived(name) && TellsApart(Of(name, "ast"), archive.assets)
    ensures ScopeRenamed(ScopeOf(archive.snapshot.board, Originals(env, archive)), ScopeOf(p.board, Plans(env, p, name, archive)), name)
  {
    hide ResourceId.Valid, Marked, KnownDigest, Derived;
    var plans := Plans(env, p, name, archive);
    forall id | id in archive.assets
      ensures name("ast", id) in plans && plans[name("ast", id)].mime == archive.assets[id].mime
    {
      assert plans[name("ast", id)] == Planned(env, p, name, archive.snapshot, id, archive.assets[id]);
    }
  }

  // The user may insert what the import would bring.
  ghost predicate Permitted(env: Env, p: Payload, name: Names, archive: Archive)
    requires TellsApart(Of(name, "ast"), archive.assets) && Distinguishes(name, archive.snapshot)
  {
    PremiumTransition(env.catalog, EMPTY_SNAPSHOT, Renamed(archive.snapshot, p.board, name), ScopeOf(p.board, Plans(env, p, name, archive)), p.entitled)
  }

  // An accepted archive becomes a valid document. Its import is denied exactly if its premium content is
  // not permitted, and else found invalid exactly if the codec refuses that document.
  lemma ImportKeepsValidity(env: Env, p: Payload, name: Names, archive: Archive)
    requires Plannable(name, archive) && ArchiveValid(env, archive) && ResourceId.Valid(p.board, "brd")
    ensures var target, uploads := Renamed(archive.snapshot, p.board, name), Plans(env, p, name, archive);
      && Valid(target, ScopeOf(p.board, uploads), env.rules)
      && Import(env, p, name, archive) ==
         if !Permitted(env, p, name, archive) then Denied else if env.packs(target) then Ready(uploads, target) else Invalid
  {
    hide ResourceId.Valid, Derived, Distinguishes, TellsApart, Valid, AllMedia, PremiumTransition, ScopeRenamed, Originals, ScopeOf;
    PlansScope(env, p, name, archive);
    ScopeBoard(p.board, Plans(env, p, name, archive));
    RenamedValid(archive.snapshot, p.board, name, ScopeOf(archive.snapshot.board, Originals(env, archive)),
                 ScopeOf(p.board, Plans(env, p, name, archive)), env.rules);
  }

  const MAX_DOCUMENT := 0x100_0000

  predicate Among(notes: map<string, string>, ids: seq<string>) {
    (forall i :: 0 <= i < |ids| ==> ids[i] in notes) && forall i, j :: 0 <= i < j < |ids| ==> ids[i] != ids[j]
  }

  function TotalText(notes: map<string, string>, ids: seq<string>): nat
    requires Among(notes, ids)
  {
    if ids == [] then 0 else TotalText(notes, ids[..|ids| - 1]) + |notes[ids[|ids| - 1]]|
  }

  // What is known of the codec: it stores the text of the notes, and no more than 16 MiB in all.
  ghost predicate StoresText(env: Env) {
    forall s: Snapshot, ids :: Among(s.notes, ids) && TotalText(s.notes, ids) > MAX_DOCUMENT ==> !env.packs(s)
  }

  function NewIds(name: Names, ids: seq<string>): (r: seq<string>)
    ensures |r| == |ids| && forall i :: 0 <= i < |ids| ==> r[i] == name("note", ids[i])
  {
    if ids == [] then [] else NewIds(name, ids[..|ids| - 1]) + [name("note", ids[|ids| - 1])]
  }

  lemma RenamedAmong(notes: map<string, string>, name: Names, ids: seq<string>)
    requires TellsApart(Of(name, "note"), notes) && Among(notes, ids)
    ensures Among(Rekeyed(notes, Of(name, "note"), RenamedNote(name)), NewIds(name, ids))
  {
    hide RenamedNote, NewIds;
    forall i, j | 0 <= i < j < |ids| ensures NewIds(name, ids)[i] != NewIds(name, ids)[j] {
      assert Of(name, "note")(ids[i]) == NewIds(name, ids)[i] && Of(name, "note")(ids[j]) == NewIds(name, ids)[j];
    }
  }

  // Renaming keeps every note's length.
  lemma {:induction false} RenamedText(notes: map<string, string>, name: Names, ids: seq<string>)
    requires Derived(name) && TellsApart(Of(name, "note"), notes) && Among(notes, ids)
    ensures Among(Rekeyed(notes, Of(name, "note"), RenamedNote(name)), NewIds(name, ids))
    ensures TotalText(Rekeyed(notes, Of(name, "note"), RenamedNote(name)), NewIds(name, ids)) == TotalText(notes, ids)
  {
    hide Derived, Rekeyed, Among, TellsApart, NoteRemap.Remapped, NoteRemap.Like, NoteRemap.KeepsShape;
    RenamedAmong(notes, name, ids);
    if ids != [] {
      var n := |ids| - 1;
      FewerAmong(notes, ids);
      RenamedText(notes, name, ids[..n]);
      assert NewIds(name, ids)[..n] == NewIds(name, ids[..n]);
      RekeyedAt(notes, Of(name, "note"), RenamedNote(name), ids[n]);
      DerivedIssues(name);
      NoteCheck.IssuesKeepsShape(Of(name, "pag"));
      NoteRemap.RemapChangesReferencesOnly(notes[ids[n]], Of(name, "pag"));
    }
  }

  lemma FewerAmong(notes: map<string, string>, ids: seq<string>)
    requires Among(notes, ids) && ids != []
    ensures Among(notes, ids[..|ids| - 1]) && ids[|ids| - 1] in notes
  {
  }

  // Acceptance does not look at that: an accepted archive with more text in its notes than the codec
  // holds is always refused when it is imported.
  lemma TooMuchTextIsRefused(env: Env, p: Payload, name: Names, archive: Archive, ids: seq<string>)
    requires Plannable(name, archive) && ArchiveValid(env, archive) && ResourceId.Valid(p.board, "brd") && StoresText(env)
    requires Among(archive.snapshot.notes, ids) && TotalText(archive.snapshot.notes, ids) > MAX_DOCUMENT
    ensures Import(env, p, name, archive) == if Permitted(env, p, name, archive) then Invalid else Denied
  {
    hide ResourceId.Valid, Derived, TellsApart, Valid, AllMedia, Permitted, TotalText, Among, Import, Rekeyed;
    ImportKeepsValidity(env, p, name, archive);
    RenamedText(archive.snapshot.notes, name, ids);
    assert Renamed(archive.snapshot, p.board, name).notes == Rekeyed(archive.snapshot.notes, Of(name, "note"), RenamedNote(name));
  }

  lemma ScopeBoard(board: string, uploads: map<string, Upload>)
    ensures ScopeOf(board, uploads).board == board
  {
  }

  // Without the right to insert, an import that the right would let through is let through exactly if
  // the imported document has no premium occurrence.
  lemma UnentitledImport(env: Env, p: Payload, name: Names, archive: Archive)
    requires Plannable(name, archive) && ArchiveValid(env, archive) && ResourceId.Valid(p.board, "brd")
    requires Import(env, p.(entitled := true), name, archive).Ready?
    ensures Import(env, p.(entitled := false), name, archive).Ready? <==>
      forall o :: !Occurs(env.catalog, ScopeOf(p.board, Plans(env, p, name, archive)), Renamed(archive.snapshot, p.board, name), o)
  {
    hide ResourceId.Valid, Derived, Distinguishes, TellsApart, Valid, AllMedia, PremiumTransition, Renamed, Occurs, ScopeOf, Marked;
    var scope := ScopeOf(p.board, Plans(env, p, name, archive));
    var target := Renamed(archive.snapshot, p.board, name);
    PlansIgnoreEntitlement(env, p, name, archive);
    RightNeededExactly(env.catalog, scope, EMPTY_SNAPSHOT, target);
    forall o ensures !Occurs(env.catalog, scope, EMPTY_SNAPSHOT, o) { NothingThere(env.catalog, scope, o); }
  }

  // An asset that an element of the archive shows as a catalog occurrence, or whose bytes are a
  // catalog's, is premium in the plan, whatever the archive calls it, unless a committed flag says otherwise.
  lemma CatalogAssetsStayPremium(env: Env, p: Payload, name: Names, archive: Archive, source: string, page: string, id: string)
    requires TellsApart(Of(name, "ast"), archive.assets) && source in archive.assets && name("ast", source) !in p.prepared
    requires page in archive.snapshot.pages && id in archive.snapshot.pages[page].scene.elements
    requires var scene := archive.snapshot.pages[page].scene;
      CatalogId(env.catalog, scene.elements[id]).0 in env.catalog && ElementAsset(scene, scene.elements[id]) == source
    requires archive.assets[source].mime == "image/svg+xml" ==> KnownDigest(env.catalog, env.digest(archive.assets[source].data))
    ensures name("ast", source) in Plans(env, p, name, archive) && Plans(env, p, name, archive)[name("ast", source)].premium
  {
    hide CatalogId, ElementAsset, KnownDigest;
    RekeyedAt(archive.assets, Of(name, "ast"), PlannedBy(env, p, name, archive.snapshot), source);
    var a, scene := archive.assets[source], archive.snapshot.pages[page].scene;
    if a.mime != "image/svg+xml" {
      assert Provenance(env, scene, scene.elements[id], source, a);
      assert Shows(env, scene, source, a);
    }
    assert Marked(env, archive.snapshot, source, a);
  }

  // Exactly which assets are premium in a plan: those of which an earlier pass committed that they are,
  // and of the others those with a catalog's bytes, those shown under a catalog identifier that is pinned
  // to their bytes, and those of an element with a catalog identifier unless they are vector graphics.
  lemma PremiumExactly(env: Env, p: Payload, name: Names, archive: Archive, source: string)
    requires TellsApart(Of(name, "ast"), archive.assets) && source in archive.assets
    ensures name("ast", source) in Plans(env, p, name, archive)
    ensures var a, id := archive.assets[source], name("ast", source);
      Plans(env, p, name, archive)[id].premium <==>
      if id in p.prepared then p.prepared[id]
      else
        (exists logo :: logo in env.catalog && env.catalog[logo] == env.digest(a.data)) ||
        (exists page, e :: page in archive.snapshot.pages && e in archive.snapshot.pages[page].scene.elements &&
           Premiums(env, archive.snapshot.pages[page].scene, archive.snapshot.pages[page].scene.elements[e], source, a))
  {
    hide CatalogId, ElementAsset;
    RekeyedAt(archive.assets, Of(name, "ast"), PlannedBy(env, p, name, archive.snapshot), source);
    var a := archive.assets[source];
    forall page | page in archive.snapshot.pages
      ensures Shows(env, archive.snapshot.pages[page].scene, source, a) <==>
        exists e :: e in archive.snapshot.pages[page].scene.elements &&
          Premiums(env, archive.snapshot.pages[page].scene, archive.snapshot.pages[page].scene.elements[e], source, a)
    {
      var scene := archive.snapshot.pages[page].scene;
      assert forall e :: e in scene.elements ==>
        (Premiums(env, scene, scene.elements[e], source, a) <==> Provenance(env, scene, scene.elements[e], source, a));
    }
  }

  // The element's catalog identifier makes the asset premium.
  predicate Premiums(env: Env, scene: Scene, e: Element, source: string, a: Attachment) {
    var logo := CatalogId(env.catalog, e).0;
    && logo in env.catalog
    && (env.catalog[logo] == env.digest(a.data) || (a.mime != "image/svg+xml" && ElementAsset(scene, e) == source))
  }

  lemma PlansIgnoreEntitlement(env: Env, p: Payload, name: Names, archive: Archive)
    requires TellsApart(Of(name, "ast"), archive.assets)
    ensures forall b :: Plans(env, p.(entitled := b), name, archive) == Plans(env, p, name, archive)
  {
    hide TellsApart, Marked;
    forall b ensures Plans(env, p.(entitled := b), name, archive) == Plans(env, p, name, archive) {
      assert forall k :: k in archive.assets ==>
        Planned(env, p.(entitled := b), name, archive.snapshot, k, archive.assets[k]) == Planned(env, p, name, archive.snapshot, k, archive.assets[k]);
    }
  }

  lemma NothingThere(catalog: Catalog, scope: Scope, o: Occurrence)
    ensures !Occurs(catalog, scope, EMPTY_SNAPSHOT, o)
  {
  }

  // The object of an upload: what is stored, apart from the flag.
  predicate SameObject(u: Upload, v: Upload) {
    u.id == v.id && u.size == v.size && u.mime == v.mime && u.digest == v.digest
  }

  // A second pass over the same archive plans the same objects and the same document, whatever flags
  // were committed in between, if it plans at all.
  lemma ReplayPlansTheSame(env: Env, p: Payload, p': Payload, name: Names, archive: Archive)
    requires Plannable(name, archive) && p.board == p'.board
    requires Import(env, p, name, archive).Ready? && Import(env, p', name, archive).Ready?
    ensures var first, second := Import(env, p, name, archive), Import(env, p', name, archive);
      && second.target == first.target
      && second.uploads.Keys == first.uploads.Keys
      && (forall id :: id in first.uploads ==> SameObject(first.uploads[id], second.uploads[id]))
  {
    hide ResourceId.Valid, Distinguishes, Valid, AllMedia, PremiumTransition, Renamed, Marked, ScopeOf;
    var a, b := Plans(env, p, name, archive), Plans(env, p', name, archive);
    forall x | x in a ensures x in b && SameObject(a[x], b[x]) {
      var k :| k in archive.assets && name("ast", k) == x;
      assert b[name("ast", k)] == Planned(env, p', name, archive.snapshot, k, archive.assets[k]);
      assert a[name("ast", k)] == Planned(env, p, name, archive.snapshot, k, archive.assets[k]);
    }
    forall x | x in b ensures x in a {
      var k :| k in archive.assets && name("ast", k) == x;
      assert name("ast", k) in a;
    }
  }

  // ---------------------------------------------------------------- exporting

  datatype Export = Export(board: string, uploads: seq<Upload>, withAssets: bool)

  function ById(uploads: seq<Upload>): map<string, Upload> {
    if uploads == [] then map[] else ById(uploads[..|uploads| - 1])[uploads[|uploads| - 1].id := uploads[|uploads| - 1]]
  }

  function Referenced(s: Snapshot): set<string> {
    set page, f | page in s.pages && f in s.pages[page].scene.files :: s.pages[page].scene.files[f].id
  }

  function Total(uploads: seq<Upload>, wanted: set<string>): nat {
    if uploads == [] then 0
    else Total(uploads[..|uploads| - 1], wanted) +
         (if uploads[|uploads| - 1].id in wanted then uploads[|uploads| - 1].size else 0)
  }

  function AttachedOf(uploads: seq<Upload>, wanted: set<string>, stored: map<string, Bytes>): map<string, Attachment> {
    if uploads == [] then map[]
    else
      var u := uploads[|uploads| - 1];
      var before := AttachedOf(uploads[..|uploads| - 1], wanted, stored);
      if u.id in wanted && u.id in stored then before[u.id := Attachment(u.mime, stored[u.id])] else before
  }

  function Attached(x: Export, s: Snapshot, stored: map<string, Bytes>): map<string, Attachment> {
    if x.withAssets then AttachedOf(x.uploads, Referenced(s), stored) else map[]
  }

  predicate Readable(x: Export, s: Snapshot, stored: map<string, Bytes>) {
    x.withAssets ==> forall i :: 0 <= i < |x.uploads| && x.uploads[i].id in Referenced(s) ==> x.uploads[i].id in stored
  }

  // The archive an export writes, unless a limit is exceeded or an object cannot be read.
  function Exported(env: Env, x: Export, s: Snapshot, stored: map<string, Bytes>): Option<Bytes> {
    var data := env.format(Archive(s, Attached(x, s, stored)));
    if |Referenced(s)| > MAX_ASSETS then None
    else if x.withAssets && Total(x.uploads, Referenced(s)) > MAX_IMPORT * 3 / 4 then None
    else if !Readable(x, s, stored) || |data| > MAX_IMPORT then None
    else Some(data)
  }

  // The document is validated against the board's uploads before it is exported.
  ghost predicate Exportable(env: Env, x: Export, s: Snapshot) {
    Valid(s, ScopeOf(x.board, ById(x.uploads)), env.rules)
  }

  // Only the files tie a document to its scope.
  lemma ScopeSwitched(s: Snapshot, scope: Scope, scope': Scope, rules: Rules)
    requires Valid(s, scope, rules) && scope'.board == s.board && scope.mimes.Some? && scope'.mimes.Some?
    requires forall id :: id in Referenced(s) ==> id in scope'.allowed && Lookup(scope'.mimes.value, id) == Lookup(scope.mimes.value, id)
    ensures Valid(s, scope', rules)
  {
    hide ResourceId.Valid, Lists, Foldered, NoteValid, Assigned, ElementValid;
    forall id | id in s.pages ensures PageValid(id, s.pages[id], scope', rules) {
      assert PageValid(id, s.pages[id], scope, rules);
      var scene := s.pages[id].scene;
      forall f | f in scene.files ensures FileValid(f, scene.files[f], scope') {
        assert FileValid(f, scene.files[f], scope) && scene.files[f].id in Referenced(s);
      }
    }
  }

  lemma ReferencedAllowed(s: Snapshot, scope: Scope, rules: Rules)
    requires Valid(s, scope, rules)
    ensures Referenced(s) <= scope.allowed
  {
    hide ResourceId.Valid, Lists, Foldered, NoteValid, Assigned, ElementValid;
    forall id | id in Referenced(s) ensures id in scope.allowed {
      var page, f :| page in s.pages && f in s.pages[page].scene.files && s.pages[page].scene.files[f].id == id;
      assert PageValid(page, s.pages[page], scope, rules);
      assert FileValid(f, s.pages[page].scene.files[f], scope);
    }
  }

  lemma {:induction false} AttachedWanted(uploads: seq<Upload>, wanted: set<string>, stored: map<string, Bytes>)
    requires forall i :: 0 <= i < |uploads| && uploads[i].id in wanted ==> uploads[i].id in stored
    ensures AttachedOf(uploads, wanted, stored).Keys == ById(uploads).Keys * wanted
    ensures forall id :: id in AttachedOf(uploads, wanted, stored) ==>
      AttachedOf(uploads, wanted, stored)[id].mime == ById(uploads)[id].mime
  {
    if uploads != [] {
      var front, u := uploads[..|uploads| - 1], uploads[|uploads| - 1];
      AttachedWanted(front, wanted, stored);
    }
  }

  lemma AttachedKeys(x: Export, s: Snapshot, stored: map<string, Bytes>)
    requires Readable(x, s, stored) && Referenced(s) <= ById(x.uploads).Keys
    ensures Attached(x, s, stored).Keys == if x.withAssets then Referenced(s) else {}
    ensures forall id :: id in Attached(x, s, stored) ==> Attached(x, s, stored)[id].mime == ById(x.uploads)[id].mime
  {
    hide Referenced, AttachedOf, ById;
    if x.withAssets { AttachedWanted(x.uploads, Referenced(s), stored); }
  }

  // What is attached for an identifier is the object stored for it, in the media type of its upload.
  ghost predicate Carries(uploads: seq<Upload>, stored: map<string, Bytes>, id: string, a: Attachment) {
    id in stored && exists i :: 0 <= i < |uploads| && uploads[i].id == id && a.mime == uploads[i].mime && a.data == stored[id]
  }

  lemma {:induction false} AttachedCarries(uploads: seq<Upload>, wanted: set<string>, stored: map<string, Bytes>, id: string)
    requires id in AttachedOf(uploads, wanted, stored)
    ensures Carries(uploads, stored, id, AttachedOf(uploads, wanted, stored)[id])
  {
    var n := |uploads| - 1;
    if !(uploads[n].id in wanted && uploads[n].id in stored && uploads[n].id == id) {
      AttachedCarries(uploads[..n], wanted, stored, id);
      var a := AttachedOf(uploads[..n], wanted, stored)[id];
      var i :| 0 <= i < n && uploads[..n][i].id == id && a.mime == uploads[..n][i].mime && a.data == stored[id];
      assert uploads[i] == uploads[..n][i];
    }
  }

  // What an export is read as: the document, with exactly the assets it refers to where assets are
  // included, each as it is stored.
  lemma ExportHolds(env: Env, x: Export, s: Snapshot, stored: map<string, Bytes>)
    requires Exportable(env, x, s) && Exported(env, x, s, stored).Some?
    requires forall a :: env.parse(env.format(a)) == Some(a)
    ensures var read := env.parse(Exported(env, x, s, stored).value);
      && read.Some? && read.value.snapshot == s
      && read.value.assets.Keys == (if x.withAssets then Referenced(s) else {})
      && forall id :: id in read.value.assets ==> Carries(x.uploads, stored, id, read.value.assets[id])
  {
    hide Valid, ById, Referenced, AttachedOf, Total, Carries;
    ReferencedAllowed(s, ScopeOf(x.board, ById(x.uploads)), env.rules);
    AttachedKeys(x, s, stored);
    forall id | id in Attached(x, s, stored) ensures Carries(x.uploads, stored, id, Attached(x, s, stored)[id]) {
      AttachedCarries(x.uploads, Referenced(s), stored, id);
    }
  }

  // Exactly when there is an export: at most 100 assets, and if they are included at most 48 MB of them,
  // all of which can be read; and at most 64 MB in all.
  lemma ExportedExactly(env: Env, x: Export, s: Snapshot, stored: map<string, Bytes>)
    ensures Exported(env, x, s, stored).Some? <==>
      && |Referenced(s)| <= 100
      && (x.withAssets ==> Total(x.uploads, Referenced(s)) <= 48_000_000)
      && (x.withAssets ==> forall i :: 0 <= i < |x.uploads| && x.uploads[i].id in Referenced(s) ==> x.uploads[i].id in stored)
      && |env.format(Archive(s, Attached(x, s, stored)))| <= 64_000_000
  {
    hide Referenced, Total, Attached;
  }

  // What is counted: the sizes of the uploads that are referred to, added up in any grouping.
  lemma {:induction false} TotalSplits(uploads: seq<Upload>, more: seq<Upload>, wanted: set<string>)
    ensures Total(uploads + more, wanted) == Total(uploads, wanted) + Total(more, wanted)
    ensures forall u :: Total([u], wanted) == if u.id in wanted then u.size else 0
    decreases |more|
  {
    if more == [] {
      assert uploads + more == uploads;
    } else {
      assert (uploads + more)[..|uploads + more| - 1] == uploads + more[..|more| - 1];
      TotalSplits(uploads, more[..|more| - 1], wanted);
    }
    forall u ensures Total([u], wanted) == if u.id in wanted then u.size else 0 { assert [u][..0] == []; }
  }

  // The object is what its upload says, and media of a kind that a board may have.
  predicate SoundObject(env: Env, u: Upload, data: Bytes) {
    && 1 <= u.size <= MAX_ATTACHMENT && |data| == u.size && env.digest(data) == u.digest
    && if u.mime == "image/svg+xml" then KnownDigest(env.catalog, u.digest) && Contains(data, "<svg")
       else u.mime == env.sniff(data) && u.mime in {"image/png", "image/jpeg", "image/webp", "image/gif"}
  }

  ghost predicate SoundStorage(env: Env, x: Export, stored: map<string, Bytes>) {
    forall i :: 0 <= i < |x.uploads| && x.uploads[i].id in stored ==> SoundObject(env, x.uploads[i], stored[x.uploads[i].id])
  }

  // An asset is valid media exactly if it is what an upload with its size and digest would have to be.
  lemma MediaExactly(env: Env, a: Attachment, u: Upload)
    requires u.size == |a.data| && u.digest == env.digest(a.data) && u.mime == a.mime
    ensures ValidMedia(env, a) <==> SoundObject(env, u, a.data)
  {
    hide KnownDigest, Contains;
  }

  lemma SoundIsMedia(env: Env, x: Export, s: Snapshot, stored: map<string, Bytes>)
    requires SoundStorage(env, x, stored)
    ensures AllMedia(env, Attached(x, s, stored))
  {
    hide KnownDigest, Contains, Referenced, AttachedOf;
    forall id | id in Attached(x, s, stored) ensures ValidMedia(env, Attached(x, s, stored)[id]) {
      AttachedCarries(x.uploads, Referenced(s), stored, id);
      var a := Attached(x, s, stored)[id];
      var i :| 0 <= i < |x.uploads| && x.uploads[i].id == id && a.mime == x.uploads[i].mime && a.data == stored[id];
      assert SoundObject(env, x.uploads[i], stored[id]);
      MediaExactly(env, a, x.uploads[i]);
    }
  }

  // An exported document is accepted for import exactly if its assets were included, where it has
  // any, and each of them is valid media.
  lemma ExportIsImportable(env: Env, x: Export, s: Snapshot, stored: map<string, Bytes>)
    requires Exportable(env, x, s) && Exported(env, x, s, stored).Some?
    requires forall a :: env.parse(env.format(a)) == Some(a)
    ensures var attached := Attached(x, s, stored);
      Accepts(env, Exported(env, x, s, stored).value) <==>
        (x.withAssets || Referenced(s) == {}) && AllMedia(env, attached)
  {
    hide Valid, AllMedia, ValidMedia, ById, Attached, Referenced, Total, KnownDigest;
    var archive := Archive(s, Attached(x, s, stored));
    var here, there := ScopeOf(x.board, ById(x.uploads)), ScopeOf(s.board, Originals(env, archive));
    ReferencedAllowed(s, here, env.rules);
    AttachedKeys(x, s, stored);
    assert |archive.assets| == |archive.assets.Keys|;
    BoardOf(s, here, env.rules);
    if AllMedia(env, archive.assets) {
      if x.withAssets || Referenced(s) == {} {
        ScopeSwitched(s, here, there, env.rules);
      } else if Valid(s, there, env.rules) {
        ReferencedAllowed(s, there, env.rules);
      }
    }
  }

  // With sound storage, whatever is exported with its assets, or refers to none, is accepted for import.
  lemma SoundExportIsImportable(env: Env, x: Export, s: Snapshot, stored: map<string, Bytes>)
    requires Exportable(env, x, s) && SoundStorage(env, x, stored) && Exported(env, x, s, stored).Some?
    requires forall a :: env.parse(env.format(a)) == Some(a)
    ensures Accepts(env, Exported(env, x, s, stored).value) <==> x.withAssets || Referenced(s) == {}
  {
    hide Exportable, SoundStorage, Accepts, Referenced, Attached, AllMedia;
    SoundIsMedia(env, x, s, stored);
    ExportIsImportable(env, x, s, stored);
  }

  lemma BoardOf(s: Snapshot, scope: Scope, rules: Rules)
    requires Valid(s, scope, rules)
    ensures s.board == scope.board && SelfKeyed(s)
  {
    hide ResourceId.Valid, SceneValid, NoteValid, Closed, Acyclic;
  }

  // One page with one picture on it.
  function Pictured(asset: string): Snapshot {
    var page := ResourceId.Small("pag", '1');
    var scene := Scene(map[], [], map[], map["picture" := Asset(asset, "image/png")]);
    Snapshot(1, ResourceId.Small("brd", '1'), map[page := Page(page, "Plan", scene)], [page], map[], map[], map[])
  }

  function PictureExport(asset: string): Export {
    var board := ResourceId.Small("brd", '1');
    Export(board, [Upload(asset, board, 1, "image/png", "", false)], false)
  }

  lemma PictureScope(asset: string)
    ensures ScopeOf(PictureExport(asset).board, ById(PictureExport(asset).uploads)) ==
      Scope(ResourceId.Small("brd", '1'), {asset}, {}, map[asset := ""], Some(map[asset := "image/png"]))
  {
    hide ResourceId.Small;
    var x := PictureExport(asset);
    assert x.uploads[..0] == [] && ById(x.uploads) == map[asset := x.uploads[0]];
    var scope := ScopeOf(x.board, ById(x.uploads));
    assert scope.allowed == {asset} && scope.premium == {} && scope.digests == map[asset := ""] && scope.mimes.value == map[asset := "image/png"];
  }

  lemma PictureScene(asset: string, scope: Scope, rules: Rules)
    requires ResourceId.Valid(asset, "ast") && scope.allowed == {asset} && scope.mimes == Some(map[asset := "image/png"])
    ensures SceneValid(Scene(map[], [], map[], map["picture" := Asset(asset, "image/png")]), scope, rules)
  {
    hide ResourceId.Valid;
  }

  lemma PicturedPages(asset: string, scope: Scope, rules: Rules)
    requires rules.name("Plan") && ResourceId.Valid(asset, "ast") && scope.allowed == {asset} && scope.mimes == Some(map[asset := "image/png"])
    ensures Lists(Pictured(asset).pageOrder, Pictured(asset).pages)
    ensures forall id :: id in Pictured(asset).pages ==> PageValid(id, Pictured(asset).pages[id], scope, rules)
  {
    hide ResourceId.Valid, ResourceId.Small, SceneValid;
    ResourceId.SmallIsValid("pag", '1');
    PictureScene(asset, scope, rules);
    assert Pictured(asset).pageOrder[0] == ResourceId.Small("pag", '1');
  }

  lemma PicturedRefers(asset: string)
    ensures Referenced(Pictured(asset)) == {asset}
  {
    hide ResourceId.Small;
    assert "picture" in Pictured(asset).pages[ResourceId.Small("pag", '1')].scene.files;
  }

  lemma PicturedValid(env: Env, asset: string)
    requires env.rules.name("Plan") && ResourceId.Valid(asset, "ast")
    ensures Exportable(env, PictureExport(asset), Pictured(asset)) && Referenced(Pictured(asset)) == {asset}
  {
    hide ResourceId.Valid, ResourceId.Small, PageValid, Lists, ScopeOf, ById, Referenced;
    ResourceId.SmallIsValid("brd", '1');
    PicturedRefers(asset);
    PictureScope(asset);
    PicturedPages(asset, ScopeOf(PictureExport(asset).board, ById(PictureExport(asset).uploads)), env.rules);
    assert Foldered(Pictured(asset).folders, env.rules) by { assert Ranks(Pictured(asset).folders, map[]); }
  }

  // The failure is real: a board with a picture, exported without its assets, is refused on import.
  lemma ExportedButRefused(env: Env, asset: string)
    requires env.rules.name("Plan") && ResourceId.Valid(asset, "ast")
    requires forall a :: env.parse(env.format(a)) == Some(a)
    requires |env.format(Archive(Pictured(asset), map[]))| <= MAX_IMPORT
    ensures Exportable(env, PictureExport(asset), Pictured(asset))
    ensures var data := Exported(env, PictureExport(asset), Pictured(asset), map[]); data.Some? && !Accepts(env, data.value)
  {
    hide ResourceId.Valid, Exportable, Accepts, Pictured, Referenced, AllMedia;
    PicturedValid(env, asset);
    ExportIsImportable(env, PictureExport(asset), Pictured(asset), map[]);
  }

  lemma AttachedApart(env: Env, x: Export, s: Snapshot, stored: map<string, Bytes>, name: Names, back: Names)
    requires Exportable(env, x, s) && Exported(env, x, s, stored).Some? && Undoes(back, name, s)
    ensures TellsApart(Of(name, "ast"), Attached(x, s, stored))
  {
    hide Valid, ById, Attached, Total, Mentions, Readable;
    ReferencedAllowed(s, ScopeOf(x.board, ById(x.uploads)), env.rules);
    assert Readable(x, s, stored);
    AttachedKeys(x, s, stored);
    forall id | id in Referenced(s) ensures Reverts(back, name, "ast", id) {
      var page, f :| page in s.pages && f in s.pages[page].scene.files && s.pages[page].scene.files[f].id == id;
    }
  }

  // The archive is imported, if it is permitted and the codec holds the result, and the import, renamed
  // back, is s.
  ghost predicate Restores(env: Env, p: Payload, name: Names, back: Names, archive: Archive, s: Snapshot) {
    && Plannable(name, archive)
    && (Import(env, p, name, archive).Ready? <==>
          Permitted(env, p, name, archive) && env.packs(Renamed(archive.snapshot, p.board, name)))
    && (Import(env, p, name, archive).Ready? ==> RenamesTo(Import(env, p, name, archive).target, back, s))
  }

  ghost predicate RenamesTo(target: Snapshot, back: Names, s: Snapshot) {
    Distinguishes(back, target) && Renamed(target, s.board, back) == s
  }

  // Exported, imported and renamed back, a document is what it was: its pages in order with their
  // elements and files, its folder tree, its notes and their assignments.
  lemma ExportThenImport(env: Env, x: Export, s: Snapshot, stored: map<string, Bytes>, p: Payload, name: Names, back: Names)
    requires Exportable(env, x, s) && Exported(env, x, s, stored).Some?
    requires forall a :: env.parse(env.format(a)) == Some(a)
    requires (x.withAssets || Referenced(s) == {}) && SoundStorage(env, x, stored)
    requires Derived(name) && Undoes(back, name, s) && ResourceId.Valid(p.board, "brd")
    ensures Accepts(env, Exported(env, x, s, stored).value)
    ensures Restores(env, p, name, back, env.parse(Exported(env, x, s, stored).value).value, s)
  {
    hide Valid, AllMedia, ById, Attached, Referenced, Total, Import, Renamed, Distinguishes, TellsApart, Derived, Undoes, ResourceId.Valid, Readable, ScopeOf, Permitted,
         SoundStorage;
    var archive := Archive(s, Attached(x, s, stored));
    SoundIsMedia(env, x, s, stored);
    ExportIsImportable(env, x, s, stored);
    UndoesDistinguishes(s, name, back);
    AttachedApart(env, x, s, stored, name, back);
    ImportKeepsValidity(env, p, name, archive);
    BoardOf(s, ScopeOf(x.board, ById(x.uploads)), env.rules);
    RenamedUndone(s, p.board, name, back);
  }
}
