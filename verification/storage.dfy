/** Content-addressed objects in a bucket whose every operation may fail: an upload is staged, then
    made final. A crash between two operations is a failure of the next one. */
module Storage {
  import opened Strings
  import ResourceId

  type Bytes = string
  type Objects = map<string, Bytes>
  type Digest = Bytes -> string

  const MAX_BYTES := 64_000_000
  const STAGE := ".stage"
  const FINAL := ".final"

  datatype Asset = Asset(id: string, size: int, mime: string, digest: string)

  datatype Error = Invalid | Conflict | NotFound | Unavailable

  datatype Result<+T> = Ok(value: T) | Err(error: Error)

  // How an operation turns out: `Late` takes effect although it is reported as failed.
  datatype Fault = Works | Lost | Late

  // ---------------------------------------------------------------- keys

  predicate HexDigit(c: char) {
    '0' <= c <= '9' || 'a' <= c <= 'f'
  }

  predicate Sha(s: string) {
    |s| == 64 && forall i :: 0 <= i < |s| ==> HexDigit(s[i])
  }

  predicate ValidAsset(a: Asset) {
    ResourceId.Valid(a.id, "ast") && Sha(a.digest) && 1 <= a.size <= MAX_BYTES
  }

  predicate Suffix(s: string) {
    s == STAGE || s == FINAL
  }

  function Key(id: string, sha: string, suffix: string): string {
    id + "/" + sha + suffix
  }

  predicate Proper(id: string, sha: string, suffix: string) {
    ResourceId.Valid(id, "ast") && Sha(sha) && Suffix(suffix)
  }

  // Different assets, digests or stages have different keys.
  lemma KeysAreDistinct(id: string, sha: string, suffix: string, id': string, sha': string, suffix': string)
    requires Proper(id, sha, suffix) && Proper(id', sha', suffix') && Key(id, sha, suffix) == Key(id', sha', suffix')
    ensures id == id' && sha == sha' && suffix == suffix'
  {
    var k := Key(id, sha, suffix);
    assert k[..31] == id && k[32..96] == sha && k[96..] == suffix;
    assert k[..31] == id' && k[32..96] == sha' && k[96..] == suffix';
  }

  // ---------------------------------------------------------------- what the bucket holds

  // Every object hashes to the digest in its key.
  ghost predicate Honest(objects: Objects, digest: Digest) {
    forall id, sha, suffix :: Proper(id, sha, suffix) && Key(id, sha, suffix) in objects ==>
      digest(objects[Key(id, sha, suffix)]) == sha
  }

  predicate Verified(a: Asset, data: Bytes, digest: Digest) {
    |data| == a.size && digest(data) == a.digest
  }

  // A staged object is there, and it and a final one, if there is one, are what the asset says.
  predicate Finalizable(a: Asset, objects: Objects, digest: Digest) {
    var stage, final := Key(a.id, a.digest, STAGE), Key(a.id, a.digest, FINAL);
    && stage in objects && Verified(a, objects[stage], digest)
    && (final in objects ==> Verified(a, objects[final], digest))
  }

  lemma StoredHonest(objects: Objects, digest: Digest, a: Asset, suffix: string, data: Bytes)
    requires Honest(objects, digest) && ValidAsset(a) && Suffix(suffix) && digest(data) == a.digest
    ensures Honest(objects[Key(a.id, a.digest, suffix) := data], digest)
  {
    hide ResourceId.Valid, Key, Sha;
    var k := Key(a.id, a.digest, suffix);
    forall id, sha, x | Proper(id, sha, x) && Key(id, sha, x) in objects[k := data]
      ensures digest(objects[k := data][Key(id, sha, x)]) == sha
    {
      if Key(id, sha, x) == k { KeysAreDistinct(id, sha, x, a.id, a.digest, suffix); }
    }
  }

  lemma RemovedHonest(objects: Objects, digest: Digest, keys: set<string>)
    requires Honest(objects, digest)
    ensures Honest(objects - keys, digest)
  {
  }

  function Under(objects: Objects, prefix: string): set<string> {
    set k | k in objects && HasPrefix(k, prefix)
  }

  function Least(m: nat, n: nat): nat {
    if m < n then m else n
  }

  // ---------------------------------------------------------------- the bucket and the storage

  class Bucket {
    const digest: Digest
    var objects: Objects
    var faults: seq<Fault>   // how the coming operations turn out; they work when it is used up

    ghost predicate Valid()
      reads this
    {
      Honest(objects, digest)
    }

    constructor (digest: Digest, faults: seq<Fault>)
      ensures Valid() && objects == map[] && this.digest == digest && this.faults == faults
    {
      this.digest, objects, this.faults := digest, map[], faults;
    }

    method Draw() returns (f: Fault)
      modifies this`faults
      ensures old(faults) == [] ==> f == Works && faults == []
    {
      f := Works;
      if faults != [] {
        f, faults := faults[0], faults[1..];
      }
    }

    method GetObject(k: string) returns (r: Result<Bytes>)
      modifies this`faults
      ensures r.Ok? ==> k in objects && r.value == objects[k]
      ensures r == Err(NotFound) ==> k !in objects
      ensures r.Err? ==> r.error in {NotFound, Unavailable}
      ensures old(faults) == [] ==> faults == [] && r == if k in objects then Ok(objects[k]) else Err(NotFound)
    {
      var f := Draw();
      if f != Works { return Err(Unavailable); }
      if k !in objects { return Err(NotFound); }
      return Ok(objects[k]);
    }

    method PutObject(k: string, data: Bytes) returns (r: Result<()>)
      modifies this
      ensures objects == old(objects)[k := data] || (r.Err? && objects == old(objects))
      ensures old(faults) == [] ==> faults == [] && r.Ok?
    {
      var f := Draw();
      if f != Lost { objects := objects[k := data]; }
      return if f == Works then Ok(()) else Err(Unavailable);
    }

    method DeleteObject(k: string) returns (r: Result<()>)
      modifies this
      ensures objects == old(objects) - {k} || (r.Err? && objects == old(objects))
      ensures old(faults) == [] ==> faults == [] && r.Ok?
    {
      var f := Draw();
      if f != Lost { objects := objects - {k}; }
      return if f == Works then Ok(()) else Err(Unavailable);
    }

    // Up to `limit` keys under a prefix, which ones is not said.
    method ListObjects(prefix: string, limit: nat) returns (r: Result<set<string>>)
      modifies this`faults
      ensures r.Ok? ==> r.value <= Under(objects, prefix) && |r.value| == Least(limit, |Under(objects, prefix)|)
      ensures old(faults) == [] ==> faults == [] && r.Ok?
    {
      var f := Draw();
      if f != Works { return Err(Unavailable); }
      var keys := Under(objects, prefix);
      while |keys| > limit
        invariant keys <= Under(objects, prefix) && |keys| >= Least(limit, |Under(objects, prefix)|)
        decreases |keys|
      {
        var k :| k in keys;
        keys := keys - {k};
      }
      SubsetCount(keys, Under(objects, prefix));
      return Ok(keys);
    }

    // ---------------------------------------------------------------- staging

    method Read(a: Asset, suffix: string) returns (r: Result<Bytes>)
      requires Suffix(suffix)
      modifies this`faults
      ensures var k := Key(a.id, a.digest, suffix);
        && (r.Ok? ==> ValidAsset(a) && k in objects && r.value == objects[k] && Verified(a, r.value, digest))
        && (r == Err(NotFound) ==> k !in objects)
        && (old(faults) == [] ==> faults == [])
        && (old(faults) == [] && ValidAsset(a) && k !in objects ==> r == Err(NotFound))
        && (old(faults) == [] && ValidAsset(a) && k in objects && Verified(a, objects[k], digest) ==> r == Ok(objects[k]))
    {
      if !ValidAsset(a) { return Err(Invalid); }
      r := GetObject(Key(a.id, a.digest, suffix));
      if r.Err? { return; }
      if |r.value| != a.size { return Err(Conflict); }
      if !Verified(a, r.value, digest) { return Err(Conflict); }
    }

    // An object that is there is never overwritten; only bytes that match the key are written.
    method Put(a: Asset, suffix: string, data: Bytes) returns (r: Result<()>)
      requires Valid() && Suffix(suffix)
      modifies this
      ensures Valid()
      ensures var k := Key(a.id, a.digest, suffix);
        && (r.Ok? ==> ValidAsset(a) && Verified(a, data, digest) && objects == old(objects)[k := data])
        && (objects == old(objects) || (k !in old(objects) && Verified(a, data, digest) && objects == old(objects)[k := data]))
        && (old(faults) == [] ==> faults == [])
        && (old(faults) == [] && ValidAsset(a) && Verified(a, data, digest) && (k in old(objects) ==> old(objects)[k] == data) ==> r.Ok?)
    {
      hide Honest, ResourceId.Valid, Sha;
      if !ValidAsset(a) { return Err(Invalid); }
      var k := Key(a.id, a.digest, suffix);
      if !Verified(a, data, digest) { return Err(Conflict); }
      var was := Read(a, suffix);
      if was.Ok? {
        if was.value != data { return Err(Conflict); }
        return Ok(());
      } else if was.error != NotFound {
        return Err(was.error);
      }
      StoredHonest(objects, digest, a, suffix, data);
      r := PutObject(k, data);
      if r.Err? { return; }
      var now := Read(a, suffix);
      return if now.Ok? then Ok(()) else Err(now.error);
    }

    method Stage(a: Asset, data: Bytes) returns (r: Result<()>)
      requires Valid()
      modifies this
      ensures Valid()
      ensures var k := Key(a.id, a.digest, STAGE);
        && (r.Ok? ==> ValidAsset(a) && Verified(a, data, digest) && objects == old(objects)[k := data])
        && (objects == old(objects) || (Verified(a, data, digest) && objects == old(objects)[k := data]))
        && (old(faults) == [] ==> faults == [])
        && (old(faults) == [] && ValidAsset(a) && Verified(a, data, digest) && (k in old(objects) ==> old(objects)[k] == data) ==> r.Ok?)
    {
      r := Put(a, STAGE, data);
    }

    method RemoveKey(a: Asset, suffix: string) returns (r: Result<()>)
      requires Valid()
      modifies this
      ensures Valid()
      ensures var k := Key(a.id, a.digest, suffix);
        && (r.Ok? ==> objects == old(objects) - {k})
        && (objects == old(objects) || objects == old(objects) - {k})
        && (old(faults) == [] ==> faults == [])
        && (old(faults) == [] && ValidAsset(a) ==> r.Ok?)
    {
      hide Honest, ResourceId.Valid, Sha;
      if !ValidAsset(a) { return Err(Invalid); }
      RemovedHonest(objects, digest, {Key(a.id, a.digest, suffix)});
      r := DeleteObject(Key(a.id, a.digest, suffix));
      if r.Err? { return; }
      var head := GetObject(Key(a.id, a.digest, suffix));
      if head != Err(NotFound) {
        return Err(if head.Err? then head.error else Conflict);
      }
    }

    // The final object is verified before the staged one is removed; a final object that is there
    // already is kept.
    method Finalize(a: Asset) returns (r: Result<()>)
      requires Valid()
      modifies this
      ensures Valid()
      ensures var stage, final := Key(a.id, a.digest, STAGE), Key(a.id, a.digest, FINAL);
        && (forall k :: k != stage && k != final ==> (k in objects <==> k in old(objects)) && (k in objects ==> objects[k] == old(objects)[k]))
        && (r.Ok? ==> stage !in objects && final in objects && Verified(a, objects[final], digest))
        && (final in old(objects) ==> final in objects && objects[final] == old(objects)[final])
        && (final !in old(objects) && final in objects ==> stage in old(objects) && objects[final] == old(objects)[stage])
        && (old(faults) == [] ==> faults == [])
        && (old(faults) == [] && ValidAsset(a) && Finalizable(a, old(objects), digest) ==> r.Ok?)
    {
      hide Honest, ResourceId.Valid, Sha;
      if ValidAsset(a) { assert Key(a.id, a.digest, STAGE) != Key(a.id, a.digest, FINAL) by { TwoKeys(a); } }
      var there := Read(a, FINAL);
      if there.Ok? {
        r := RemoveKey(a, STAGE);
        return;
      } else if there.error != NotFound {
        return Err(there.error);
      }
      var staged := Read(a, STAGE);
      if staged.Err? { return Err(staged.error); }
      r := Put(a, FINAL, staged.value);
      if r.Err? { return; }
      r := RemoveKey(a, STAGE);
    }

    // ---------------------------------------------------------------- removal

    // Three rounds of up to a hundred keys each. Only keys of the asset are touched; success means that
    // none is left. Without failures it takes at most two hundred keys to succeed.
    method Remove(id: string) returns (r: Result<()>)
      requires Valid()
      modifies this
      ensures Valid()
      ensures var prefix := id + "/";
        && (forall k :: !HasPrefix(k, prefix) ==> (k in objects <==> k in old(objects)))
        && (forall k :: k in objects ==> k in old(objects) && objects[k] == old(objects)[k])
        && (r.Ok? ==> ResourceId.Valid(id, "ast") && Under(objects, prefix) == {})
        && (old(faults) == [] && ResourceId.Valid(id, "ast") ==>
              (r.Ok? <==> |Under(old(objects), prefix)| <= 200) &&
              |Under(objects, prefix)| == |Under(old(objects), prefix)| - Least(300, |Under(old(objects), prefix)|))
    {
      hide Honest, HasPrefix, ResourceId.Valid;
      if !ResourceId.Valid(id, "ast") { return Err(Invalid); }
      var prefix := id + "/";
      ghost var quiet := faults == [];
      for round := 0 to 3
        invariant Valid() && (quiet ==> faults == [])
        invariant forall k :: !HasPrefix(k, prefix) ==> (k in objects <==> k in old(objects))
        invariant forall k :: k in objects ==> k in old(objects) && objects[k] == old(objects)[k]
        invariant quiet ==> |Under(objects, prefix)| == |Under(old(objects), prefix)| - Least(100 * round, |Under(old(objects), prefix)|)
        invariant quiet && round > 0 ==> |Under(old(objects), prefix)| > 100 * (round - 1)
      {
        var listed := ListObjects(prefix, 100);
        if listed.Err? { return Err(listed.error); }
        if listed.value == {} {
          return Ok(());
        }
        var todo := listed.value;
        ghost var before := objects;
        assert before - (listed.value - todo) == before;
        while todo != {}
          invariant todo <= listed.value && objects == before - (listed.value - todo)
          invariant Valid() && (quiet ==> faults == [])
          decreases todo
        {
          var k :| k in todo;
          todo := todo - {k};
          RemovedHonest(objects, digest, {k});
          assert before - (listed.value - todo) == before - (listed.value - (todo + {k})) - {k};
          UnderPrefix(before, prefix, listed.value);
          var gone := DeleteObject(k);
          if gone.Err? { return Err(gone.error); }
        }
        UnderLess(before, prefix, listed.value);
        assert listed.value - todo == listed.value;
      }
      return Err(Conflict);
    }
  }

  lemma TwoKeys(a: Asset)
    requires ValidAsset(a)
    ensures Key(a.id, a.digest, STAGE) != Key(a.id, a.digest, FINAL)
  {
    if Key(a.id, a.digest, STAGE) == Key(a.id, a.digest, FINAL) {
      KeysAreDistinct(a.id, a.digest, STAGE, a.id, a.digest, FINAL);
    }
  }

  lemma SubsetCount(a: set<string>, b: set<string>)
    requires a <= b
    ensures |a| <= |b|
  {
    assert b == a + (b - a);
  }

  lemma UnderPrefix(objects: Objects, prefix: string, keys: set<string>)
    requires keys <= Under(objects, prefix)
    ensures forall k :: k in keys ==> HasPrefix(k, prefix)
  {
  }

  lemma UnderLess(objects: Objects, prefix: string, keys: set<string>)
    requires keys <= Under(objects, prefix)
    ensures |Under(objects - keys, prefix)| == |Under(objects, prefix)| - |keys|
  {
    assert Under(objects - keys, prefix) == Under(objects, prefix) - keys;
  }
}
