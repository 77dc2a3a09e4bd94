/** Validation and normalization of the artifacts (validate/validate.go, CheckArtifacts): the two image
    lists become one slice and the object location gets a final slash. */
module ArtifactsCheck {
  import opened GoStrings
  import opened BuildModel
  import opened Utf8

  const MAX_NUM_IMAGES := 100
  const MAX_IMAGE_LENGTH := 1000
  const MAX_ARTIFACTS_PATHS := 100
  const GS_PREFIX := "gs://"

  /** The images of a build, wherever they are given. */
  function AllImages(v: BuildValue): seq<string> {
    if |v.images| > 0 then v.images else v.ArtifactImages()
  }

  predicate ImagesAgree(v: BuildValue) {
    |v.images| > 0 && |v.ArtifactImages()| > 0 ==> v.ArtifactImages() == v.images
  }

  predicate ImagesOk(images: seq<string>) {
    |images| <= MAX_NUM_IMAGES && forall i :: i in images ==> |i| <= MAX_IMAGE_LENGTH
  }

  predicate PathsOk(paths: seq<string>) {
    NoDuplicates(paths) && forall p :: p in paths ==> !HasSpace(p)
  }

  predicate ObjectsOk(o: ObjectsValue) {
    && HasPrefix(o.location, GS_PREFIX)
    && 0 < |o.paths| <= MAX_ARTIFACTS_PATHS
    && PathsOk(o.paths)
  }

  predicate ArtifactsOk(v: BuildValue) {
    && ImagesAgree(v)
    && ImagesOk(AllImages(v))
    && (v.ArtifactObjects().Some? ==> ObjectsOk(v.ArtifactObjects().value))
  }

  function WithSlash(location: string): string {
    if HasSuffix(location, "/") then location else location + "/"
  }

  function NormalizedObjects(o: Option<ObjectsValue>): Option<ObjectsValue> {
    if o.None? then None else Some(o.value.(location := WithSlash(o.value.location)))
  }

  /** The build after a successful check. */
  function Normalized(v: BuildValue): BuildValue {
    v.(images := AllImages(v),
       artifacts := if |v.images| == 0 && v.artifacts.None? then None
                    else Some(ArtifactsValue(AllImages(v), NormalizedObjects(v.ArtifactObjects()))))
  }

  lemma PrefixHasNoMore(paths: seq<string>, i: nat)
    requires i < |paths|
    ensures NoDuplicates(paths[..i + 1]) <==> NoDuplicates(paths[..i]) && paths[i] !in paths[..i]
  {
  }

  method CheckPaths(paths: seq<string>) returns (ok: bool)
    ensures ok <==> PathsOk(paths)
  {
    var pathExists: set<string> := {};
    var duplicates: seq<string> := [];
    for i := 0 to |paths|
      invariant forall p :: p in pathExists <==> p in paths[..i]
      invariant duplicates == [] <==> NoDuplicates(paths[..i])
      invariant forall p :: p in paths[..i] ==> !HasSpace(p)
    {
      var p := paths[i];
      PrefixHasNoMore(paths, i);
      if p in pathExists {
        duplicates := duplicates + [p];
      }
      pathExists := pathExists + {p};
      var found := ContainsSpace(p);
      if found {
        assert p in paths;
        return false;
      }
    }
    assert paths[..|paths|] == paths;
    return |duplicates| == 0;
  }

  method CheckImages(images: array<string>) returns (ok: bool)
    ensures ok <==> ImagesOk(images[..])
  {
    if images.Length > MAX_NUM_IMAGES {
      return false;
    }
    for i := 0 to images.Length
      invariant forall k :: 0 <= k < i ==> |images[k]| <= MAX_IMAGE_LENGTH
    {
      if |images[i]| > MAX_IMAGE_LENGTH {
        assert images[i] in images[..];
        return false;
      }
    }
    return true;
  }

  method CheckObjects(o: ArtifactObjects) returns (ok: bool)
    modifies o`Location
    ensures ok <==> ObjectsOk(old(o.Value()))
    ensures ok ==> Some(o.Value()) == NormalizedObjects(Some(old(o.Value())))
  {
    var gcsURL := o.Location;
    if |gcsURL| == 0 || !HasPrefix(gcsURL, GS_PREFIX) {
      return false;
    }
    if !HasSuffix(gcsURL, "/") {
      o.Location := gcsURL + "/";
    }
    if o.Paths.Length == 0 || o.Paths.Length > MAX_ARTIFACTS_PATHS {
      return false;
    }
    ok := CheckPaths(o.Paths[..]);
  }

  /** The first lines: one slice for both lists, unless both are given and differ. */
  method ShareImages(b: Build) returns (ok: bool)
    modifies b`Artifacts, if b.Artifacts == null then {} else {b.Artifacts}
    ensures ok <==> ImagesAgree(old(b.Value()))
    ensures ok && b.Images.Length > 0 ==> b.SharesImages()
    ensures ok && b.Images.Length == 0 ==> unchanged(b`Artifacts) && (b.Artifacts != null ==> unchanged(b.Artifacts))
    ensures ok ==> (old(b.Artifacts) == null ==> b.Artifacts == null || b.Artifacts.Objects == null)
    ensures b.Artifacts == old(b.Artifacts) || (old(b.Artifacts) == null && fresh(b.Artifacts))
    ensures b.ImageArrays() <= old(b.ImageArrays())
    ensures b.ArtifactObjectsFootprint() == old(b.ArtifactObjectsFootprint())
  {
    hide StepValues;
    ghost var v := b.Value();
    assert v.images == b.Images[..];
    assert b.Artifacts != null ==> v.ArtifactImages() == b.Artifacts.Images[..];
    if b.Images.Length > 0 {
      if b.Artifacts != null && b.Artifacts.Images.Length > 0 && b.Artifacts.Images[..] != b.Images[..] {
        return false;
      }
      if b.Artifacts == null {
        b.Artifacts := new Artifacts(b.Images, null);
      }
      b.Artifacts.Images := b.Images;
    }
    return true;
  }

  /** The limits on the merged images and on the objects. */
  method CheckMergedArtifacts(a: Artifacts) returns (ok: bool)
    modifies if a.Objects == null then {} else {a.Objects}
    ensures ok <==>
              && ImagesOk(old(a.Images[..]))
              && (a.Objects != null ==> ObjectsOk(old(a.Value()).objects.value))
    ensures ok ==> a.Value() == ArtifactsValue(old(a.Images[..]), NormalizedObjects(old(a.Value()).objects))
  {
    hide ImagesOk, ObjectsOk, WithSlash;
    ok := CheckImages(a.Images);
    if ok && a.Objects != null {
      ok := CheckObjects(a.Objects);
    }
  }

  /** Everything CheckArtifacts does, told field by field. */
  method CheckArtifactFields(b: Build) returns (ok: bool)
    modifies b`Images, b`Artifacts, if b.Artifacts == null then {} else {b.Artifacts}
    modifies if b.Artifacts == null || b.Artifacts.Objects == null then {} else {b.Artifacts.Objects}
    ensures ok <==> ArtifactsOk(old(b.Value()))
    ensures ok ==> b.Images[..] == Normalized(old(b.Value())).images
    ensures ok ==> (if b.Artifacts == null then None else Some(b.Artifacts.Value()))
                   == Normalized(old(b.Value())).artifacts
    ensures ok && b.Images.Length > 0 ==> b.SharesImages()
    ensures b.ImageArrays() <= old(b.ImageArrays())
    ensures b.ArtifactObjectsFootprint() == old(b.ArtifactObjectsFootprint())
  {
    assert ImagesOk([]);
    hide ImagesOk, ObjectsOk, StepValues, NormalizedObjects, StepArrays;
    ghost var v := b.Value();
    ok := ShareImages(b);
    if !ok {
      return;
    }
    assert b.Artifacts != null ==> b.Artifacts.Images[..] == AllImages(v);
    if b.Artifacts != null {
      ok := CheckMergedArtifacts(b.Artifacts);
      if !ok {
        return;
      }
      if b.Artifacts.Images.Length > 0 {
        b.Images := b.Artifacts.Images;
      }
    }
  }

  method CheckArtifacts(b: Build) returns (ok: bool)
    modifies b`Images, b`Artifacts, if b.Artifacts == null then {} else {b.Artifacts}
    modifies if b.Artifacts == null || b.Artifacts.Objects == null then {} else {b.Artifacts.Objects}
    ensures ok <==> ArtifactsOk(old(b.Value()))
    ensures ok ==> b.Value() == Normalized(old(b.Value()))
    ensures ok && b.Images.Length > 0 ==> b.SharesImages()
    ensures b.ImageArrays() <= old(b.ImageArrays())
    ensures b.ArtifactObjectsFootprint() == old(b.ArtifactObjectsFootprint())
  {
    hide ArtifactsOk, AllImages, NormalizedObjects, StepValues, StepArrays;
    ok := CheckArtifactFields(b);
    StepValuesFrame(b.Steps);
  }

  /** A normalized build passes again and does not change any more. */
  lemma NormalizingIsStable(v: BuildValue)
    requires ArtifactsOk(v)
    ensures ArtifactsOk(Normalized(v)) && Normalized(Normalized(v)) == Normalized(v)
  {
  }
}
