/** Running an import: the plan is committed first, then made again and published object by object.
    A run that is interrupted anywhere can be run again. */
module TransferRun {
  import opened Storage
  import T = Transfer
  import P = TransferPlan
  import D = Document
  import R = Renaming
  import SnapshotCheck
  import ResourceId

  // ---------------------------------------------------------------- publishing objects

  datatype Plan = Plan(asset: Asset, data: Bytes)

  function StageOf(p: Plan): string {
    Key(p.asset.id, p.asset.digest, STAGE)
  }

  function FinalOf(p: Plan): string {
    Key(p.asset.id, p.asset.digest, FINAL)
  }

  predicate Touched(k: string, plans: set<Plan>) {
    exists p :: p in plans && (k == StageOf(p) || k == FinalOf(p))
  }

  predicate SameAt(k: string, before: Objects, after: Objects) {
    (k in before <==> k in after) && (k in before && k in after ==> before[k] == after[k])
  }

  // Nothing but the keys of the plans changed.
  ghost predicate Confined(before: Objects, after: Objects, plans: set<Plan>) {
    forall k :: !Touched(k, plans) ==> SameAt(k, before, after)
  }

  predicate Landed(p: Plan, objects: Objects, digest: Digest) {
    StageOf(p) !in objects && FinalOf(p) in objects && Verified(p.asset, objects[FinalOf(p)], digest)
  }

  // Every plan has its verified final object and no staged one; nothing else changed.
  ghost predicate Published(before: Objects, after: Objects, plans: set<Plan>, digest: Digest) {
    Confined(before, after, plans) && forall p :: p in plans ==> Landed(p, after, digest)
  }

  // No other bytes have the digests of the plans.
  ghost predicate Collisionless(plans: set<Plan>, digest: Digest) {
    forall p, x :: p in plans && digest(x) == p.asset.digest ==> x == p.data
  }

  // Plans as they are made: each describes its own bytes, under an identifier of its own.
  ghost predicate Sound(plans: set<Plan>, digest: Digest) {
    && (forall p :: p in plans ==> ValidAsset(p.asset) && Verified(p.asset, p.data, digest))
    && (forall p, q :: p in plans && q in plans && p.asset.id == q.asset.id ==> p == q)
  }

  lemma KeysApart(plans: set<Plan>, digest: Digest, p: Plan, q: Plan)
    requires Sound(plans, digest) && p in plans && q in plans && p != q
    ensures {StageOf(p), FinalOf(p)} !! {StageOf(q), FinalOf(q)}
  {
    hide ResourceId.Valid, Sha, Key;
    forall s, t | Suffix(s) && Suffix(t) ensures Key(p.asset.id, p.asset.digest, s) != Key(q.asset.id, q.asset.digest, t) {
      if Key(p.asset.id, p.asset.digest, s) == Key(q.asset.id, q.asset.digest, t) {
        KeysAreDistinct(p.asset.id, p.asset.digest, s, q.asset.id, q.asset.digest, t);
      }
    }
  }

  // One object changes hands: what landed before stays, and only the plan's own keys change.
  ghost predicate Moved(before: Objects, after: Objects, p: Plan) {
    forall k :: k != StageOf(p) && k != FinalOf(p) ==> SameAt(k, before, after)
  }

  lemma MovedConfined(start: Objects, before: Objects, after: Objects, plans: set<Plan>, p: Plan)
    requires Confined(start, before, plans) && Moved(before, after, p) && p in plans
    ensures Confined(start, after, plans)
  {
    hide StageOf, FinalOf;
    forall k | !Touched(k, plans) ensures SameAt(k, start, after) {
      assert SameAt(k, start, before) && SameAt(k, before, after);
    }
  }

  lemma MovedKeepsLanded(before: Objects, after: Objects, plans: set<Plan>, digest: Digest, p: Plan, q: Plan)
    requires Sound(plans, digest) && p in plans && q in plans && p != q && Moved(before, after, p) && Landed(q, before, digest)
    ensures Landed(q, after, digest)
  {
    hide Sound, StageOf, FinalOf, Verified;
    KeysApart(plans, digest, p, q);
    assert SameAt(StageOf(q), before, after) && SameAt(FinalOf(q), before, after);
  }

  // What is stored for a plan is its data, or there is nothing.
  lemma StoredIsData(objects: Objects, plans: set<Plan>, digest: Digest, p: Plan, suffix: string)
    requires Honest(objects, digest) && Collisionless(plans, digest) && Sound(plans, digest) && p in plans && Suffix(suffix)
    requires Key(p.asset.id, p.asset.digest, suffix) in objects
    ensures objects[Key(p.asset.id, p.asset.digest, suffix)] == p.data
  {
    hide ResourceId.Valid, Sha, Key;
    assert Proper(p.asset.id, p.asset.digest, suffix);
  }

  method PublishOne(b: Bucket, p: Plan) returns (r: Result<()>)
    requires b.Valid()
    modifies b
    ensures b.Valid() && Moved(old(b.objects), b.objects, p)
    ensures r.Ok? ==> Landed(p, b.objects, b.digest)
    ensures old(b.faults) == [] ==> b.faults == []
    ensures old(b.faults) == [] && Collisionless({p}, b.digest) && Sound({p}, b.digest) ==> r.Ok?
  {
    hide Honest, Key, ValidAsset, Collisionless;
    ghost var quiet := b.faults == [] && Collisionless({p}, b.digest) && Sound({p}, b.digest);
    if quiet && StageOf(p) in b.objects { StoredIsData(b.objects, {p}, b.digest, p, STAGE); }
    r := b.Stage(p.asset, p.data);
    if r.Err? { return; }
    if quiet && FinalOf(p) in b.objects { StoredIsData(b.objects, {p}, b.digest, p, FINAL); }
    r := b.Finalize(p.asset);
  }

  lemma SoundOne(plans: set<Plan>, digest: Digest, p: Plan)
    requires Sound(plans, digest) && p in plans
    ensures Sound({p}, digest) && (Collisionless(plans, digest) ==> Collisionless({p}, digest))
  {
    hide ValidAsset, Verified;
  }

  function Items(plans: seq<Plan>): set<Plan> {
    set i | 0 <= i < |plans| :: plans[i]
  }

  // All plans in the order given. Whatever fails on the way, only their keys change; success publishes
  // them all, and without failures there is success.
  method Publish(b: Bucket, plans: seq<Plan>) returns (r: Result<()>)
    requires b.Valid() && Sound(Items(plans), b.digest)
    requires forall i, j :: 0 <= i < j < |plans| ==> plans[i] != plans[j]
    modifies b
    ensures b.Valid() && Confined(old(b.objects), b.objects, Items(plans))
    ensures r.Ok? ==> Published(old(b.objects), b.objects, Items(plans), b.digest)
    ensures old(b.faults) == [] && Collisionless(Items(plans), b.digest) ==> r.Ok?
  {
    hide Honest, Landed, Moved, Collisionless, Sound, Confined;
    ConfinedSame(b.objects, Items(plans));
    for i := 0 to |plans|
      invariant b.Valid() && (old(b.faults) == [] ==> b.faults == [])
      invariant Confined(old(b.objects), b.objects, Items(plans))
      invariant forall j :: 0 <= j < i ==> Landed(plans[j], b.objects, b.digest)
    {
      ghost var before := b.objects;
      assert plans[i] in Items(plans);
      SoundOne(Items(plans), b.digest, plans[i]);
      r := PublishOne(b, plans[i]);
      MovedConfined(old(b.objects), before, b.objects, Items(plans), plans[i]);
      if r.Err? { return; }
      forall j | 0 <= j < i ensures Landed(plans[j], b.objects, b.digest) {
        assert plans[j] in Items(plans);
        MovedKeepsLanded(before, b.objects, Items(plans), b.digest, plans[i], plans[j]);
      }
    }
    return Ok(());
  }

  lemma ConfinedSame(objects: Objects, plans: set<Plan>)
    ensures Confined(objects, objects, plans)
  {
  }

  // ---------------------------------------------------------------- recovery

  // The bucket before the first run and after each run; every run but the last was interrupted.
  ghost predicate Runs(history: seq<Objects>, plans: set<Plan>, digest: Digest) {
    && |history| >= 2
    && (forall i :: 0 <= i < |history| - 1 ==> Confined(history[i], history[i + 1], plans))
    && Published(history[|history| - 2], history[|history| - 1], plans, digest)
  }

  lemma {:induction false} ConfinedThroughout(history: seq<Objects>, plans: set<Plan>, i: nat)
    requires i < |history| && forall j :: 0 <= j < |history| - 1 ==> Confined(history[j], history[j + 1], plans)
    ensures Confined(history[0], history[i], plans)
    decreases i
  {
    hide Touched;
    if i > 0 { ConfinedThroughout(history, plans, i - 1); }
  }

  // After any number of interrupted runs, one that succeeds leaves what a single run would have left.
  lemma RecoveryConverges(history: seq<Objects>, undisturbed: Objects, plans: set<Plan>, digest: Digest)
    requires Runs(history, plans, digest) && Published(history[0], undisturbed, plans, digest)
    requires Collisionless(plans, digest) && Sound(plans, digest)
    ensures Published(history[0], history[|history| - 1], plans, digest)
    ensures history[|history| - 1] == undisturbed
  {
    hide Sound, Collisionless, Confined, Landed;
    ConfinedThroughout(history, plans, |history| - 1);
    SameOutcome(history[0], history[|history| - 1], undisturbed, plans, digest);
  }

  lemma SameOutcome(start: Objects, x: Objects, y: Objects, plans: set<Plan>, digest: Digest)
    requires Published(start, x, plans, digest) && Published(start, y, plans, digest) && Collisionless(plans, digest)
    ensures x == y
  {
    hide Collisionless, StageOf, FinalOf, Verified;
    forall k ensures SameAt(k, x, y) {
      if Touched(k, plans) {
        var p :| p in plans && (k == StageOf(p) || k == FinalOf(p));
        assert Landed(p, x, digest) && Landed(p, y, digest);
        SameBytes(plans, p, digest, x[FinalOf(p)]);
        SameBytes(plans, p, digest, y[FinalOf(p)]);
      } else {
        assert SameAt(k, start, x) && SameAt(k, start, y);
      }
    }
    forall k ensures k in x <==> k in y { assert SameAt(k, x, y); }
    forall k | k in x && k in y ensures x[k] == y[k] { assert SameAt(k, x, y); }
  }

  lemma SameBytes(plans: set<Plan>, p: Plan, digest: Digest, x: Bytes)
    requires p in plans && Verified(p.asset, x, digest) && Collisionless(plans, digest)
    ensures x == p.data
  {
  }

  // ---------------------------------------------------------------- one import job

  function AssetOf(u: T.Upload): Asset {
    Asset(u.id, u.size, u.mime, u.digest)
  }

  function PlanOf(o: P.Blob): Plan {
    Plan(AssetOf(o.upload), o.data)
  }

  function PlansOf(objects: seq<P.Blob>): seq<Plan> {
    seq(|objects|, i requires 0 <= i < |objects| => PlanOf(objects[i]))
  }

  // The object an import stores for one asset of the archive.
  function Copy(env: T.Env, p: T.Payload, name: R.Names, source: string, a: T.Attachment): Plan {
    Plan(AssetOf(T.Metadata(env, p.board, name("ast", source), a)), a.data)
  }

  ghost predicate Copies(plans: set<Plan>, env: T.Env, p: T.Payload, name: R.Names, archive: T.Archive) {
    && (forall k :: k in archive.assets ==> Copy(env, p, name, k, archive.assets[k]) in plans)
    && (forall x :: x in plans ==> exists k :: k in archive.assets && x == Copy(env, p, name, k, archive.assets[k]))
  }

  // A plan has a copy of every asset, whatever the order it was made in and the flags it carries.
  lemma CompleteCopies(objects: seq<P.Blob>, env: T.Env, p: T.Payload, name: R.Names, archive: T.Archive)
    requires P.Complete(objects, env, p, name, archive)
    ensures Copies(Items(PlansOf(objects)), env, p, name, archive)
    ensures forall i, j :: 0 <= i < j < |objects| ==> PlansOf(objects)[i] != PlansOf(objects)[j]
  {
    hide Copies, P.Enumerates, SnapshotCheck.Lists;
    var sources :| P.Enumerates(objects, env, p, name, archive, sources) && SnapshotCheck.Lists(sources, archive.assets);
    EachIsCopy(objects, env, p, name, archive, sources);
    AllAreCopied(PlansOf(objects), env, p, name, archive, sources);
    PlansDiffer(objects);
  }

  ghost predicate CopiedFrom(plans: seq<Plan>, env: T.Env, p: T.Payload, name: R.Names, archive: T.Archive, sources: seq<string>) {
    && |plans| == |sources|
    && forall i :: 0 <= i < |plans| ==> sources[i] in archive.assets && plans[i] == Copy(env, p, name, sources[i], archive.assets[sources[i]])
  }

  lemma EachIsCopy(objects: seq<P.Blob>, env: T.Env, p: T.Payload, name: R.Names, archive: T.Archive, sources: seq<string>)
    requires P.Enumerates(objects, env, p, name, archive, sources)
    ensures CopiedFrom(PlansOf(objects), env, p, name, archive, sources)
  {
    hide P.PlannedFrom, Copy, PlanOf;
    forall i | 0 <= i < |objects|
      ensures sources[i] in archive.assets && PlanOf(objects[i]) == Copy(env, p, name, sources[i], archive.assets[sources[i]])
    {
      CopyOf(objects[i], env, p, name, archive, sources[i]);
    }
  }

  lemma AllAreCopied(plans: seq<Plan>, env: T.Env, p: T.Payload, name: R.Names, archive: T.Archive, sources: seq<string>)
    requires CopiedFrom(plans, env, p, name, archive, sources) && SnapshotCheck.Lists(sources, archive.assets)
    ensures Copies(Items(plans), env, p, name, archive)
  {
    hide Copy;
    forall k | k in archive.assets ensures Copy(env, p, name, k, archive.assets[k]) in Items(plans) {
      var i :| 0 <= i < |sources| && sources[i] == k;
      assert plans[i] in Items(plans);
    }
  }

  lemma PlansDiffer(objects: seq<P.Blob>)
    requires P.DistinctIds(objects)
    ensures forall i, j :: 0 <= i < j < |objects| ==> PlansOf(objects)[i] != PlansOf(objects)[j]
  {
    hide PlanOf;
    forall i, j | 0 <= i < j < |objects| ensures PlanOf(objects[i]) != PlanOf(objects[j]) {
      PlanId(objects[i]);
      PlanId(objects[j]);
    }
  }

  lemma PlanId(o: P.Blob)
    ensures PlanOf(o).asset.id == o.upload.id
  {
  }

  lemma CopyOf(o: P.Blob, env: T.Env, p: T.Payload, name: R.Names, archive: T.Archive, source: string)
    requires P.PlannedFrom(o, env, p, name, archive, source)
    ensures source in archive.assets && PlanOf(o) == Copy(env, p, name, source, archive.assets[source])
  {
    hide T.Marked;
  }

  lemma SameCopies(a: set<Plan>, b: set<Plan>, env: T.Env, p: T.Payload, p': T.Payload, name: R.Names, archive: T.Archive)
    requires p.board == p'.board && Copies(a, env, p, name, archive) && Copies(b, env, p', name, archive)
    ensures a == b
  {
    assert forall k :: k in archive.assets ==> Copy(env, p, name, k, archive.assets[k]) == Copy(env, p', name, k, archive.assets[k]);
  }

  // Digests are written as 64 lower-case hexadecimal digits.
  ghost predicate HexDigests(digest: Digest) {
    forall x :: Sha(digest(x))
  }

  lemma CopiesSound(plans: set<Plan>, env: T.Env, p: T.Payload, name: R.Names, archive: T.Archive)
    requires Copies(plans, env, p, name, archive) && T.Plannable(name, archive) && HexDigests(env.digest) && T.AllMedia(env, archive.assets)
    ensures Sound(plans, env.digest)
  {
    hide ResourceId.Valid, Sha, T.KnownDigest;
    forall x | x in plans ensures ValidAsset(x.asset) && Verified(x.asset, x.data, env.digest) {
      var k :| k in archive.assets && x == Copy(env, p, name, k, archive.assets[k]);
      assert T.ValidMedia(env, archive.assets[k]);
      assert ResourceId.Valid(name("ast", k), "ast");
    }
    forall x, y | x in plans && y in plans && x.asset.id == y.asset.id ensures x == y {
      var k :| k in archive.assets && x == Copy(env, p, name, k, archive.assets[k]);
      var l :| l in archive.assets && y == Copy(env, p, name, l, archive.assets[l]);
      assert R.Of(name, "ast")(k) == R.Of(name, "ast")(l);
    }
  }

  datatype Ending = Completed(target: D.Snapshot) | PermissionDenied | InvalidDocument | Broken(error: Error)

  // The codec holds the imported document.
  ghost predicate Holds(env: T.Env, p: T.Payload, name: R.Names, archive: T.Archive)
    requires R.Distinguishes(name, archive.snapshot)
  {
    env.packs(R.Renamed(archive.snapshot, p.board, name))
  }

  // `second` is the payload of the second pass: its flags are the committed ones, and the right to
  // insert may have changed. Only objects of the committed plan are written; success publishes exactly
  // those, and the document of the first pass. The run completes exactly if both passes are permitted,
  // the codec holds the document and nothing breaks, and without faults and other bytes of the same
  // digest nothing breaks.
  method RunImport(env: T.Env, first: T.Payload, second: T.Payload, name: R.Names, archive: T.Archive, b: Bucket)
    returns (ending: Ending, ghost prepared: set<Plan>)
    requires b.Valid() && b.digest == env.digest && HexDigests(env.digest)
    requires T.Plannable(name, archive) && T.ArchiveValid(env, archive) && ResourceId.Valid(first.board, "brd") && second.board == first.board
    modifies b
    ensures b.Valid() && Copies(prepared, env, first, name, archive)
    ensures Confined(old(b.objects), b.objects, prepared)
    ensures ending.Completed? ==> Published(old(b.objects), b.objects, prepared, env.digest)
    ensures ending.Completed? ==> ending.target == R.Renamed(archive.snapshot, first.board, name)
    ensures ending.PermissionDenied? || ending.InvalidDocument? ==> b.objects == old(b.objects)
    ensures ending.PermissionDenied? <==>
      !T.Permitted(env, first, name, archive) || (Holds(env, first, name, archive) && !T.Permitted(env, second, name, archive))
    ensures ending.InvalidDocument? <==> T.Permitted(env, first, name, archive) && !Holds(env, first, name, archive)
    ensures old(b.faults) == [] && Collisionless(prepared, env.digest) ==> !ending.Broken?
  {
    hide Honest, ResourceId.Valid, T.ArchiveValid, R.Derived, P.Complete, Copies, Confined, Sound, HexDigests, R.Renamed, R.Distinguishes,
         R.TellsApart, T.Plans, T.AllMedia, SnapshotCheck.Valid, T.Permitted, T.Import, Collisionless;
    T.ImportKeepsValidity(env, first, name, archive);
    T.ImportKeepsValidity(env, second, name, archive);
    var outcome, objects := P.ImportPlan(env, first, name, archive);
    CompleteCopies(objects, env, first, name, archive);
    prepared := Items(PlansOf(objects));
    ConfinedSame(b.objects, prepared);
    if outcome == T.Denied { return PermissionDenied, prepared; }
    if outcome == T.Invalid { return InvalidDocument, prepared; }
    // The plan is committed here.
    var again, more := P.ImportPlan(env, second, name, archive);
    if again == T.Denied { return PermissionDenied, prepared; }
    if again == T.Invalid { return InvalidDocument, prepared; }
    CompleteCopies(more, env, second, name, archive);
    SameCopies(prepared, Items(PlansOf(more)), env, first, second, name, archive);
    MediaOf(env, archive);
    CopiesSound(Items(PlansOf(more)), env, second, name, archive);
    var r := Publish(b, PlansOf(more));
    if r.Err? { return Broken(r.error), prepared; }
    return Completed(again.target), prepared;
  }

  lemma MediaOf(env: T.Env, archive: T.Archive)
    requires T.ArchiveValid(env, archive)
    ensures T.AllMedia(env, archive.assets)
  {
  }
}
