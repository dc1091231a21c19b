/** The Cloud document: pages with native scenes, Markdown notes and a folder hierarchy. */
module Document {
  import opened Wrappers

  // Numbers are kept as their literal text.
  datatype Json =
    | Null
    | Bool(b: bool)
    | Number(literal: string)
    | String(s: string)
    | Array(items: seq<Json>)
    | Object(fields: map<string, Json>)

  type Element = map<string, Json>

  // A file of a scene: the upload it stands for and its media type.
  datatype Asset = Asset(id: string, mime: string)

  datatype Scene = Scene(elements: map<string, Element>, order: seq<string>, view: map<string, Json>, files: map<string, Asset>)

  datatype Page = Page(id: string, name: string, scene: Scene)

  datatype Folder = Folder(id: string, name: string, parent: Option<string>, createdAt: int, updatedAt: int)

  datatype Snapshot = Snapshot(
    schemaVersion: int,
    board: string,
    pages: map<string, Page>,
    pageOrder: seq<string>,
    notes: map<string, string>,
    folders: map<string, Folder>,
    noteFolders: map<string, string>)

  // What the content of a board may refer to. Without media types, they are not checked.
  datatype Scope = Scope(
    board: string,
    allowed: set<string>,
    premium: set<string>,
    digests: map<string, string>,
    mimes: Option<map<string, string>>)

  // The catalog: the pinned digest of every catalog identifier.
  type Catalog = map<string, string>

  function Field(e: Element, name: string): Json {
    if name in e then e[name] else Null
  }

  function Text(j: Json): string {
    if j.String? then j.s else ""
  }

  function Lookup(m: map<string, string>, key: string): string {
    if key in m then m[key] else ""
  }

  predicate Deleted(e: Element) {
    Field(e, "isDeleted") == Bool(true)
  }

  // The catalog identifier an element carries, and whether what it carries is in order.
  function CatalogId(catalog: Catalog, e: Element): (string, bool) {
    var custom := Field(e, "customData");
    if !custom.Object? || "handdrawShape" !in custom.fields then ("", true)
    else
      var logo := custom.fields["handdrawShape"];
      if !logo.Object? then ("", false)
      else (Text(Field(logo.fields, "id")), Text(Field(logo.fields, "id")) in catalog)
  }

  function FileId(e: Element): string {
    Text(Field(e, "fileId"))
  }

  function ElementAsset(scene: Scene, e: Element): string {
    if FileId(e) in scene.files then scene.files[FileId(e)].id else ""
  }

  const EMPTY_SCENE := Scene(map[], [], map[], map[])
  const EMPTY_SNAPSHOT := Snapshot(0, "", map[], [], map[], map[], map[])

  function SceneOf(s: Snapshot, page: string): Scene {
    if page in s.pages then s.pages[page].scene else EMPTY_SCENE
  }

  function ElementOf(s: Snapshot, page: string, id: string): Option<Element> {
    if id in SceneOf(s, page).elements then Some(SceneOf(s, page).elements[id]) else None
  }
}
