// The model manifest: what the application shows for each ONNX file in the
// models directory, inferred from the file name alone, with the user's
// per-model overrides of name, description and batch size taking
// precedence.  Reading the directory and the override file are inputs.

module Models {
  import opened Errors
  import opened Text
  import opened Paths

  datatype ModelManifest = ModelManifest(id: string, name: string, description: string, filename: string,
                                         scale: nat, alignment: nat, batchSize: Option<nat>)

  /** What the user set for one model. */
  datatype UserModelInfo = UserModelInfo(name: string, description: string, batchSize: Option<nat>)

  const NOT_ONNX: AppError := Unknown("File is not an ONNX model")

  /**
   * Scale read off a file name, case-sensitively: "x2" gives 2, otherwise
   * "x3" gives 3, otherwise 4.
   */
  function FilenameScale(filename: string): (s: nat)
    ensures s in {2, 3, 4}
    ensures s == 2 <==> Contains(filename, "x2")
    ensures s == 3 <==> !Contains(filename, "x2") && Contains(filename, "x3")
  {
    if Contains(filename, "x2") then 2 else if Contains(filename, "x3") then 3 else 4
  }

  /** A name mentioning both "x2" and "x3" is read as 2x. */
  lemma X2BeforeX3(a: string, b: string, c: string)
    ensures FilenameScale(a + "x3" + b + "x2" + c) == 2
  {
    var name := a + "x3" + b + "x2" + c;
    var i := |a| + 2 + |b|;
    assert name[i..i + 2] == "x2";
    ContainsAt(name, "x2", i);
  }

  /**
   * Input alignment read off the lower-case file name: "hat" gives 8,
   * otherwise "dat" gives 16, otherwise 1.
   */
  function Alignment(filename: string): (a: nat)
    ensures a in {1, 8, 16}
    ensures a == 8 <==> Contains(ToLower(filename), "hat")
    ensures a == 16 <==> !Contains(ToLower(filename), "hat") && Contains(ToLower(filename), "dat")
  {
    var l := ToLower(filename);
    if Contains(l, "hat") then 8 else if Contains(l, "dat") then 16 else 1
  }

  function DefaultDescription(scale: nat): string
  {
    NatToString(scale) + "x Upscaling Model"
  }

  /**
   * The manifest of one file: only a file whose extension is exactly
   * "onnx" is a model; its id is its file name, and an override for that
   * id supplies name, description and batch size verbatim.  Without one
   * the name is the file name with every ".onnx" removed.
   */
  function ScanFile(path: Path, overrides: map<string, UserModelInfo>): (r: AppResult<ModelManifest>)
    ensures r.Ok? <==> Extension(path) == Some("onnx")
    ensures r.Err? ==> r.error == NOT_ONNX
    ensures r.Ok? ==> FileName(path).Some? && r.value.id == r.value.filename == FileName(path).value
                      && r.value.scale == FilenameScale(r.value.filename)
                      && r.value.alignment == Alignment(r.value.filename)
    ensures r.Ok? && r.value.id in overrides ==>
              var o := overrides[r.value.id];
              r.value.name == o.name && r.value.description == o.description && r.value.batchSize == o.batchSize
    ensures r.Ok? && r.value.id !in overrides ==>
              r.value.name == RemoveAll(r.value.filename, ".onnx")
              && r.value.description == DefaultDescription(r.value.scale) && r.value.batchSize == None
  {
    if Extension(path) != Some("onnx") then Err(NOT_ONNX)
    else
      var filename := FileName(path).value;
      var scale := FilenameScale(filename);
      var alignment := Alignment(filename);
      if filename in overrides then
        var o := overrides[filename];
        Ok(ModelManifest(filename, o.name, o.description, filename, scale, alignment, o.batchSize))
      else
        Ok(ModelManifest(filename, RemoveAll(filename, ".onnx"), DefaultDescription(scale), filename, scale,
                         alignment, None))
  }

  /** Removing a pattern that starts with a character the text lacks strips exactly a trailing copy. */
  lemma {:induction false} RemoveTrailing(stem: string, pat: string)
    requires pat != [] && pat[0] !in stem
    ensures RemoveAll(stem + pat, pat) == stem
    decreases |stem|
  {
    if stem == [] {
      assert stem + pat == pat && pat[|pat|..] == [];
    } else {
      assert (stem + pat)[..|pat|] != pat by {
        if |pat| <= |stem + pat| {
          assert (stem + pat)[0] == stem[0] != pat[0];
        }
      }
      assert (stem + pat)[1..] == stem[1..] + pat;
      RemoveTrailing(stem[1..], pat);
      assert stem == [stem[0]] + stem[1..];
    }
  }

  /**
   * A file "stem.onnx" with a dot-free stem and no override is listed under
   * its stem, with the default description and no batch size.
   */
  lemma ScanPlainFile(dir: Path, stem: string, overrides: map<string, UserModelInfo>)
    requires stem != [] && '.' !in stem && stem + ".onnx" !in overrides
    ensures var r := ScanFile(dir + [stem + ".onnx"], overrides);
            r.Ok? && r.value.id == stem + ".onnx" && r.value.name == stem
            && r.value.description == DefaultDescription(FilenameScale(stem + ".onnx"))
            && r.value.batchSize == None
  {
    assert stem + ".onnx" == stem + "." + "onnx";
    StemAndExtension(dir, stem, "onnx");
    RemoveTrailing(stem, ".onnx");
  }

  // ---------------------------------------------------------------------
  // Directory scan

  /** The manifests of a directory listing: the scannable .onnx entries, in listing order. */
  function ScanAll(entries: seq<Path>, overrides: map<string, UserModelInfo>): (r: seq<ModelManifest>)
    ensures |r| <= |entries|
  {
    if entries == [] then []
    else
      var init := ScanAll(entries[..|entries| - 1], overrides);
      var last := entries[|entries| - 1];
      if Extension(last) == Some("onnx") && ScanFile(last, overrides).Ok?
      then init + [ScanFile(last, overrides).value]
      else init
  }

  /** Number of entries with extension "onnx". */
  function OnnxCount(entries: seq<Path>): nat
  {
    if entries == [] then 0
    else OnnxCount(entries[..|entries| - 1]) + (if Extension(entries[|entries| - 1]) == Some("onnx") then 1 else 0)
  }

  /**
   * Every .onnx entry yields a manifest and nothing else does: the scan
   * lists exactly as many models as there are .onnx entries, each named by
   * the file name of one of them.
   */
  lemma {:induction false} ScanAllListsEveryModel(entries: seq<Path>, overrides: map<string, UserModelInfo>)
    ensures |ScanAll(entries, overrides)| == OnnxCount(entries)
    ensures forall m | m in ScanAll(entries, overrides) ::
              exists k | 0 <= k < |entries| :: Extension(entries[k]) == Some("onnx")
                                               && FileName(entries[k]) == Some(m.filename)
  {
    if entries != [] {
      var init := entries[..|entries| - 1];
      ScanAllListsEveryModel(init, overrides);
      forall m | m in ScanAll(entries, overrides)
        ensures exists k | 0 <= k < |entries| :: Extension(entries[k]) == Some("onnx")
                                                 && FileName(entries[k]) == Some(m.filename)
      {
        if m in ScanAll(init, overrides) {
          var k :| 0 <= k < |init| && Extension(init[k]) == Some("onnx") && FileName(init[k]) == Some(m.filename);
          assert entries[k] == init[k];
        } else {
          assert entries[|entries| - 1] == entries[|init|];
        }
      }
    }
  }

  /**
   * Lists the models of a directory: nothing when the directory is
   * missing; otherwise each entry whose extension is "onnx" is scanned
   * with the override map and kept when the scan succeeds.
   */
  method ScanDirectory(dirExists: bool, entries: seq<Path>, overrides: map<string, UserModelInfo>)
    returns (manifests: seq<ModelManifest>)
    ensures !dirExists ==> manifests == []
    ensures dirExists ==> manifests == ScanAll(entries, overrides)
  {
    manifests := [];
    if !dirExists {
      return;
    }
    var i := 0;
    while i < |entries|
      invariant 0 <= i <= |entries|
      invariant manifests == ScanAll(entries[..i], overrides)
    {
      var path := entries[i];
      if Extension(path) == Some("onnx") {
        var scanned := ScanFile(path, overrides);
        if scanned.Ok? {
          manifests := manifests + [scanned.value];
        }
      }
      assert entries[..i + 1][..i] == entries[..i];
      i := i + 1;
    }
    assert entries[..i] == entries;
  }

  // ---------------------------------------------------------------------
  // The user's override map, edited in place by the model-info commands.

  class ModelUserConfig {
    var overrides: map<string, UserModelInfo>

    constructor (overrides: map<string, UserModelInfo>)
      ensures this.overrides == overrides
    {
      this.overrides := overrides;
    }

    /** Sets the override of `id` to exactly the given fields, creating it if missing. */
    method SetOverride(id: string, name: string, description: string, batchSize: Option<nat>)
      modifies this
      ensures overrides == old(overrides)[id := UserModelInfo(name, description, batchSize)]
    {
      var info := if id in overrides then overrides[id] else UserModelInfo("", "", None);
      info := info.(name := name);
      info := info.(description := description);
      info := info.(batchSize := batchSize);
      overrides := overrides[id := info];
    }

    /** Removes the override of `id`, reporting whether there was one. */
    method RemoveOverride(id: string) returns (existed: bool)
      modifies this
      ensures existed <==> id in old(overrides)
      ensures overrides == old(overrides) - {id}
    {
      existed := id in overrides;
      overrides := overrides - {id};
    }
  }

  /** After setting an override, scanning that model's file shows the new fields. */
  lemma ScanSeesOverride(dir: Path, id: string, overrides: map<string, UserModelInfo>, info: UserModelInfo)
    requires Extension(dir + [id]) == Some("onnx")
    ensures var r := ScanFile(Paths.Join(dir, id), overrides[id := info]);
            r.Ok? && r.value.id == id && r.value.name == info.name && r.value.description == info.description
            && r.value.batchSize == info.batchSize
  {
  }

  /** After removing an override, the model is listed under its default name and description again. */
  lemma ScanAfterReset(dir: Path, id: string, overrides: map<string, UserModelInfo>)
    requires Extension(dir + [id]) == Some("onnx")
    ensures var r := ScanFile(Paths.Join(dir, id), overrides - {id});
            r.Ok? && r.value.name == RemoveAll(id, ".onnx") && r.value.batchSize == None
            && r.value.description == DefaultDescription(FilenameScale(id))
  {
  }
}
