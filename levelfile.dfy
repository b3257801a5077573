/**
 One `level.dat*` file of an extracted save: which files are patched, and
 what `process_level_dat_file` returns and writes back for one of them.
 Reading, zlib (de)compression and writing are outside the model: the file
 arrives already decompressed (or as a decompression failure) and the buffer
 to recompress and write back is returned.
 */
module LevelFile {
  import opened ByteSearch
  import opened PatchRules
  import opened PatchEngine
  import opened EngineProperties

  // ---------------------------------------------------------------- file-name filter

  /** Python's `str.startswith`: `s` agrees with `prefix` at each of its positions. */
  predicate StartsWith(s: string, prefix: string): (b: bool)
    ensures b <==> |prefix| <= |s| && forall i :: 0 <= i < |prefix| ==> s[i] == prefix[i]
  {
    |prefix| <= |s| && s[..|prefix|] == prefix
  }

  /** Python's `str.endswith`: the last `|suffix|` characters of `s` agree with `suffix`. */
  predicate EndsWith(s: string, suffix: string): (b: bool)
    ensures b <==> |suffix| <= |s| && forall i :: 0 <= i < |suffix| ==> s[|s| - |suffix| + i] == suffix[i]
  {
    |suffix| <= |s| && s[|s| - |suffix|..] == suffix
  }

  /** The file names `find_level_dat_files` collects. */
  predicate IsLevelDatName(name: string)
  {
    StartsWith(name, "level.dat") && !EndsWith(name, ".datmetadata") && !EndsWith(name, ".bin")
  }

  predicate IsDigit(c: char)
  {
    '0' <= c <= '9'
  }

  /** The numbered chunks `level.dat0`, `level.dat1`, ... (and `level.dat` itself) are all selected. */
  lemma NumberedChunksSelected(digits: string)
    requires forall i :: 0 <= i < |digits| ==> IsDigit(digits[i])
    ensures IsLevelDatName("level.dat" + digits)
  {
    var name := "level.dat" + digits;
    assert name[..9] == "level.dat";
    var last := name[|name| - 1];
    assert last == 't' || IsDigit(last);
    assert EndsWith(name, ".bin") ==> last == 'n';
    assert EndsWith(name, ".datmetadata") ==> last == 'a';
  }

  /** Metadata and `.bin` companions, and names not starting with `level.dat`, are never selected. */
  lemma OthersNotSelected(name: string)
    ensures EndsWith(name, ".datmetadata") ==> !IsLevelDatName(name)
    ensures EndsWith(name, ".bin") ==> !IsLevelDatName(name)
    ensures (|name| < 9 || exists i :: 0 <= i < 9 && name[i] != "level.dat"[i]) ==> !IsLevelDatName(name)
  {
  }

  /** Four names the filter turns away: two companions of a chunk, and two other save files. */
  lemma CompanionsNotSelected()
    ensures !IsLevelDatName("level.datmetadata")
    ensures !IsLevelDatName("level.dat.bin")
    ensures !IsLevelDatName("level-init.dat")
    ensures !IsLevelDatName("script.dat")
  {
    OthersNotSelected("level.datmetadata");
    OthersNotSelected("level.dat.bin");
    OthersNotSelected("level-init.dat");
    OthersNotSelected("script.dat");
    assert "level-init.dat"[5] != "level.dat"[5];
    assert "script.dat"[0] != "level.dat"[0];
  }

  // ---------------------------------------------------------------- one file

  datatype Option<T> = None | Some(value: T)

  /** The outcome of `zlib.decompress` on the file's contents. */
  datatype Inflated = DecompressFailed | Decompressed(bytes: seq<byte>)

  /**
   `process_level_dat_file`: `patched` is its return value, `rewritten` the
   buffer it recompresses and writes back, if any.
   */
  method ProcessLevelDat(file: Inflated, rules: seq<Rule>, doPatch: bool)
    returns (patched: bool, rewritten: Option<seq<byte>>)
    requires AllWellFormed(rules)
    ensures file.DecompressFailed? ==> !patched
    ensures patched <==> rewritten.Some?
    ensures patched ==> doPatch
    ensures file.Decompressed? && doPatch ==>
      (patched <==> RunRules(file.bytes, rules, |rules|, true).data != file.bytes)
    ensures rewritten.Some? ==>
      && file.Decompressed?
      && rewritten.value == RunRules(file.bytes, rules, |rules|, doPatch).data
      && OnlyCleared(file.bytes, rewritten.value)
  {
    if file.DecompressFailed? {
      return false, None;
    }
    var data, dataModified, log := ScanAndPatch(file.bytes, rules, doPatch);
    ModifiedIffBufferChanged(file.bytes, rules, doPatch);
    RunRulesOnlyClears(file.bytes, rules, |rules|, doPatch);
    if dataModified && doPatch {
      return true, Some(data);
    } else {
      return false, None;
    }
  }
}
