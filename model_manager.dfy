/** Where the speech models live (`ModelManager` in
    src-tauri/src/engines/model_manager.rs). Paths are lists of components
    and the file system is the set of paths that exist; every lookup is a
    function of that set. */
module ModelManager {
  import opened Wrappers
  import opened Types
  import opened Seqs

  /** A path as its components: `dir.join(name)` is `dir + [name]`. */
  type Path = seq<string>

  /** The paths for which `exists()` holds. */
  type Disk = set<Path>

  /** The user's model directory and, when one was found, the directory of
      models bundled with the application. */
  datatype Manager = Manager(modelsDir: Path, bundled: Option<Path>)

  /** `ModelManager::new`: the models live in `models` under the application
      data directory. */
  function NewManager(appDataDir: Path, bundled: Option<Path>): (m: Manager)
    ensures m.modelsDir == appDataDir + ["models"] && m.bundled == bundled
  {
    Manager(appDataDir + ["models"], bundled)
  }

  /** Where a downloaded Whisper model is stored. */
  function UserModelPath(m: Manager, size: ModelSize): Path {
    m.modelsDir + [size.FileName()]
  }

  /** `get_model_path`: for Tiny the bundled copy comes first; otherwise the
      downloaded file, if it exists. */
  function ModelPath(m: Manager, size: ModelSize, disk: Disk): Option<Path> {
    if size == Tiny && m.bundled.Some? && m.bundled.value + [size.FileName()] in disk then
      Some(m.bundled.value + [size.FileName()])
    else if UserModelPath(m, size) in disk then Some(UserModelPath(m, size))
    else None
  }

  /** `is_model_available`. */
  predicate IsModelAvailable(m: Manager, size: ModelSize, disk: Disk) {
    ModelPath(m, size, disk).Some?
  }

  /** `available_models`. */
  function AvailableModels(m: Manager, disk: Disk): seq<ModelSize> {
    Filter(AllModelSizes, (s: ModelSize) => IsModelAvailable(m, s, disk))
  }

  /** `delete_model` with the outcome of `remove_file`: only the downloaded
      file is ever removed, and a missing one is not an error. Returns the
      result and the paths that exist afterwards. */
  function DeleteModel(m: Manager, size: ModelSize, disk: Disk, removal: Outcome): (Outcome, Disk) {
    var path := UserModelPath(m, size);
    if path !in disk then (Pass, disk)
    else match removal
      case Pass => (Pass, disk - {path})
      case Fail(e) => (Fail("Failed to delete model: " + e), disk)
  }

  /** The order in which `available_vosk_models` tries the languages. */
  const AllVoskLanguages: seq<VoskLanguage> :=
    [En, Fr, De, Es, It, Ru, Zh, Ja, Ko, Pt, Nl, Pl, Uk, Tr, Vi, Ar, Hi, Fa, Ca, Cs]

  function VoskDir(m: Manager, language: VoskLanguage): Path {
    m.modelsDir + ["vosk", language.ModelName()]
  }

  /** `get_vosk_model_path`. */
  function VoskModelPath(m: Manager, language: VoskLanguage, disk: Disk): Option<Path> {
    if VoskDir(m, language) in disk then Some(VoskDir(m, language)) else None
  }

  /** `available_vosk_models`. */
  function AvailableVoskModels(m: Manager, disk: Disk): seq<VoskLanguage> {
    Filter(AllVoskLanguages, (l: VoskLanguage) => VoskModelPath(m, l, disk).Some?)
  }

  function ParakeetDir(m: Manager, size: ParakeetModelSize): Path {
    m.modelsDir + ["parakeet", size.ModelName()]
  }

  /** `get_parakeet_model_path`. */
  function ParakeetModelPath(m: Manager, size: ParakeetModelSize, disk: Disk): Option<Path> {
    if ParakeetDir(m, size) in disk then Some(ParakeetDir(m, size)) else None
  }

  /** `available_parakeet_models`. */
  function AvailableParakeetModels(m: Manager, disk: Disk): seq<ParakeetModelSize> {
    Filter([Tdt06bV3], (s: ParakeetModelSize) => ParakeetModelPath(m, s, disk).Some?)
  }

  // ---------------------------------------------------------------------
  // Properties

  /** The path found always exists. For Tiny the bundled copy wins whenever
      it exists; Small and Medium are only ever looked up in the user's
      directory. A model is available exactly when its downloaded file
      exists or, for Tiny, its bundled copy does. */
  lemma ModelPathChoice(m: Manager, size: ModelSize, disk: Disk)
    ensures ModelPath(m, size, disk).Some? ==> ModelPath(m, size, disk).value in disk
    ensures size == Tiny && m.bundled.Some? && m.bundled.value + ["ggml-tiny.bin"] in disk ==>
              ModelPath(m, size, disk) == Some(m.bundled.value + ["ggml-tiny.bin"])
    ensures size != Tiny ==>
              ModelPath(m, size, disk) ==
              (if m.modelsDir + [size.FileName()] in disk then Some(m.modelsDir + [size.FileName()]) else None)
    ensures IsModelAvailable(m, size, disk) <==>
              m.modelsDir + [size.FileName()] in disk ||
              (size == Tiny && m.bundled.Some? && m.bundled.value + ["ggml-tiny.bin"] in disk)
  {
  }

  /** `available_models` lists exactly the available sizes, in the order
      Tiny, Small, Medium. */
  lemma AvailableModelsExact(m: Manager, disk: Disk)
    ensures AvailableModels(m, disk) ==
            (if IsModelAvailable(m, Tiny, disk) then [Tiny] else []) +
            (if IsModelAvailable(m, Small, disk) then [Small] else []) +
            (if IsModelAvailable(m, Medium, disk) then [Medium] else [])
  {
    var keep := (s: ModelSize) => IsModelAvailable(m, s, disk);
    assert AllModelSizes[1..] == [Small, Medium];
    assert AllModelSizes[1..][1..] == [Medium];
    assert Filter([Medium], keep) == (if keep(Medium) then [Medium] else []) + Filter([], keep);
  }

  /** Deleting touches nothing but the downloaded file, succeeds when that
      file is absent, and removes it when the removal succeeds. */
  lemma DeleteOnlyUserFile(m: Manager, size: ModelSize, disk: Disk, removal: Outcome)
    ensures var (r, after) := DeleteModel(m, size, disk, removal);
            && (after == disk - {m.modelsDir + [size.FileName()]} || after == disk)
            && (m.modelsDir + [size.FileName()] !in disk ==> r == Pass && after == disk)
            && (r.Pass? ==> m.modelsDir + [size.FileName()] !in after)
            && (r.Fail? ==> after == disk)
  {
  }

  /** A bundled Tiny outlives `delete_model(Tiny)` as long as the bundled
      directory is not the user's model directory; a deleted Small or Medium
      is no longer available. */
  lemma DeleteKeepsBundledTiny(m: Manager, disk: Disk, removal: Outcome)
    requires m.bundled.Some? && m.bundled.value != m.modelsDir
    requires m.bundled.value + ["ggml-tiny.bin"] in disk
    ensures ModelPath(m, Tiny, DeleteModel(m, Tiny, disk, removal).1) == Some(m.bundled.value + ["ggml-tiny.bin"])
  {
    var after := DeleteModel(m, Tiny, disk, removal).1;
    var b := m.bundled.value + ["ggml-tiny.bin"];
    var u := UserModelPath(m, Tiny);
    assert b[..|b| - 1] == m.bundled.value && u[..|u| - 1] == m.modelsDir;
    assert b in after;
  }

  lemma DeleteRemovesDownload(m: Manager, size: ModelSize, disk: Disk, removal: Outcome)
    requires size != Tiny && DeleteModel(m, size, disk, removal).0.Pass?
    ensures !IsModelAvailable(m, size, DeleteModel(m, size, disk, removal).1)
  {
  }

  /** Vosk and Parakeet models are directories `vosk/<model name>` and
      `parakeet/<model name>` under the user's model directory, returned only
      when they exist; two languages never share a directory. */
  lemma VoskAndParakeetPaths(m: Manager, a: VoskLanguage, b: VoskLanguage, p: ParakeetModelSize, disk: Disk)
    ensures VoskModelPath(m, a, disk).Some? <==> m.modelsDir + ["vosk", a.ModelName()] in disk
    ensures VoskModelPath(m, a, disk).Some? ==> VoskModelPath(m, a, disk).value == m.modelsDir + ["vosk", a.ModelName()]
    ensures a != b ==> VoskDir(m, a) != VoskDir(m, b)
    ensures ParakeetModelPath(m, p, disk).Some? <==> m.modelsDir + ["parakeet", "parakeet-tdt-0.6b-v3"] in disk
    ensures ParakeetModelPath(m, p, disk).Some? ==>
              ParakeetModelPath(m, p, disk).value == m.modelsDir + ["parakeet", "parakeet-tdt-0.6b-v3"]
  {
    ModelNamesDistinct(a, b);
    if a != b {
      assert VoskDir(m, a)[|m.modelsDir| + 1] == a.ModelName();
      assert VoskDir(m, b)[|m.modelsDir| + 1] == b.ModelName();
    }
  }

  /** The Vosk languages listed are exactly those installed, in the fixed
      order; the Parakeet list holds its one model exactly when installed. */
  lemma AvailableVoskExact(m: Manager, disk: Disk, l: VoskLanguage)
    ensures l in AvailableVoskModels(m, disk) <==> VoskDir(m, l) in disk
    ensures IsSubsequence(AvailableVoskModels(m, disk), AllVoskLanguages)
    ensures AvailableParakeetModels(m, disk) == (if ParakeetDir(m, Tdt06bV3) in disk then [Tdt06bV3] else [])
  {
    var keep := (x: VoskLanguage) => VoskModelPath(m, x, disk).Some?;
    FilterMembers(AllVoskLanguages, keep, l);
    FilterIsSubsequence(AllVoskLanguages, keep);
    var pk := (s: ParakeetModelSize) => ParakeetModelPath(m, s, disk).Some?;
    assert Filter([Tdt06bV3], pk) == (if pk(Tdt06bV3) then [Tdt06bV3] else []) + Filter([], pk);
  }
}
