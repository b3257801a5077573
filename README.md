# Factorio savegame achievement patch engine, in Dafny

`factorio_savegame_fix.py` re-enables achievements in a Factorio save. It
extracts the save, decompresses every `level.dat*` chunk, and looks for
textual markers (`cheat-will-disable`, `editor`, `command-ran`). Around each
marker it patches one flag byte from 0x01 to 0x00, then recompresses and
repacks the save.

This project models the patch engine of `process_level_dat_file`, which
works on one decompressed buffer.

For every rule of the pattern catalog, in catalog order, the engine does
the following:
- It scans the buffer left to right for non-overlapping occurrences of the
  rule's marker.
- For each occurrence it anchors to the rightmost sentinel byte run lying
  wholly inside a bounded window before the marker.
- It adds a signed offset to the sentinel's start to get a target index, and
  bounds-checks the target.
- It clears the target byte only when it holds exactly 0x01 and patching is
  on.

The model also covers:
- the engine's modified flag and the file-level return decision;
- the clamped ±250-byte hex-dump windows;
- the `level.dat*` file-name filter.

Modules, one per file:

- `ByteSearch` (`search.dfy`): the buffer as `seq<byte>`, and `bytes.find`
  and `bytes.rfind` as recursive functions. Each search comes with its
  characterisation: `find` gives the least match at or after the start,
  `rfind` the greatest match inside the window.
- `PatchRules` (`rules.dfy`): the `Rule` record and the three built-in rules
  with their exact constants.
- `PatchEngine` (`engine.dfy`):
  - `Visit`, `ScanRule` and `RunRules` are the specification. They return an
    `Outcome`: the buffer, the modified flag, and a log of `Event`s, one per
    marker occurrence.
  - Each `Event` carries what the source prints as text: which branch was
    taken, the sentinel and target indices, the byte found, and the hex-dump
    window.
  - `VisitOccurrence` is the body of the loop over occurrences (lines
    56-96), and `ScanOccurrences` and `ScanAndPatch` are the two loops
    themselves (lines 45-98 and 44-98). Line 91 rebinds `data` to a sequence with one byte replaced,
    and later searches see that updated buffer. The loops are proved equal to
    the specification.
- `EngineProperties` (`properties.dfy`): what the engine guarantees.
  - The log is read as a record of the run: replaying its cleared events on
    the input gives the output (`ApplyAll`).
  - Every occurrence is found in, and classified against, the buffer as all
    earlier patches left it.
  - Dry runs are pure.
  - Only bytes that held 0x01 change.
  - The modified flag is exact.
  - Occurrences are reported in catalog order, left to right, without
    overlap.
  - Every dump window lies inside the buffer.
- `LevelFile` (`levelfile.dfy`): the file-name filter and
  `process_level_dat_file` for one file. Its input is the result of
  decompression; its output is the return value and the buffer to
  recompress and write back.
- `Scenarios` (`scenarios.dfy`): concrete buffers taken through the
  specification.

Patching twice is not idempotent, although a second patching run might be
expected to report no change. The command-ran rule targets the first byte
of its own sentinel (offset 0, sentinel `01 FF×8`). Clearing that byte
destroys the sentinel, so a second run can anchor to an earlier sentinel
and clear another byte. `Scenarios.PatchingTwiceClearsAgain` proves this for
two runs of the whole built-in catalog on a 29-byte buffer. The model follows the code.

## Model

| member | source | states |
|---|---|---|
| ByteSearch.Find | factorio_savegame_fix.py:49 | `data.find(marker, index)`: -1, or an index at or after the start where the marker lies wholly inside the buffer |
| ByteSearch.FindLeast | factorio_savegame_fix.py:49 | the search skips nothing: -1 means no match at or after the start; otherwise no index between the start and the answer matches |
| ByteSearch.FindIs | factorio_savegame_fix.py:49 | a match at `j` with no match between the start and `j` is exactly the search's answer |
| ByteSearch.Rfind | factorio_savegame_fix.py:58 | `data.rfind(sentinel, lo, hi)`: -1, or an index `j >= lo` with the sentinel lying wholly inside `[j, hi)` |
| ByteSearch.RfindGreatest | factorio_savegame_fix.py:58 | the backward search skips nothing: -1 means no match inside the window; otherwise no later match fits inside it |
| ByteSearch.RfindIs | factorio_savegame_fix.py:58 | a match inside the window with no later match inside it is exactly the backward search's answer |
| ByteSearch.MatchesSlice | factorio_savegame_fix.py:49 | an occurrence is exactly an equal slice of the buffer, as Python compares it |
| PatchRules.Latin1 | factorio_savegame_fix.py:148 | a `b'...'` literal: the same length, each byte the character's code |
| PatchRules.Repeat | factorio_savegame_fix.py:150 | `bytes([b]) * n`: `n` bytes, each equal to `b` |
| PatchRules.CheatWillDisable | factorio_savegame_fix.py:146-152 | the first rule: marker `cheat-will-disable`, 100 bytes back, a sentinel of sixteen 0xFF, offset -3 (spelled out by `CheatWillDisableBytes`) |
| PatchRules.CheatWillDisableBytes | factorio_savegame_fix.py:146-152 | the first rule byte by byte: its name, the 18 ASCII bytes of its marker, search back 100, sixteen 0xFF, offset -3 |
| PatchRules.EditorWillDisable | factorio_savegame_fix.py:153-159 | the second rule: marker `editor`, 300 bytes back, a sentinel of 0x01 and eight 0xFF, offset -1 (spelled out by `EditorWillDisableBytes`) |
| PatchRules.EditorWillDisableBytes | factorio_savegame_fix.py:153-159 | the second rule byte by byte: its name, the 6 ASCII bytes of `editor`, search back 300, 0x01 then eight 0xFF, offset -1 |
| PatchRules.CommandRan | factorio_savegame_fix.py:160-166 | the third rule: marker `command-ran`, 300 bytes back, a sentinel of 0x01 and eight 0xFF, offset 0 (spelled out by `CommandRanBytes`) |
| PatchRules.CommandRanBytes | factorio_savegame_fix.py:160-166 | the third rule byte by byte: its name, the 11 ASCII bytes of its marker, search back 300, 0x01 then eight 0xFF, offset 0 |
| PatchRules.Catalog | factorio_savegame_fix.py:145-168 | the three rules in the order the loop runs them |
| PatchRules.CatalogMarkersAscii | factorio_savegame_fix.py:145-168 | every byte of every catalog marker is below 0x80, so the marker decodes as UTF-8 for the messages of lines 53 and 61 |
| PatchRules.CatalogWellFormed | factorio_savegame_fix.py:145-168 | every built-in marker is non-empty (18, 6 and 11 bytes), so the engine's scan terminates on the catalog |
| PatchRules.CommandRanClearBreaksSentinel | factorio_savegame_fix.py:160-166 | the command-ran target is the first byte of its sentinel, which holds 0x01; clearing it leaves no sentinel at that index |
| PatchEngine.WindowStart | factorio_savegame_fix.py:56 | the backward window starts at most `search_back_bytes` before the marker, at 0 or exactly that far back |
| PatchEngine.DumpWindow | factorio_savegame_fix.py:63-64 | the ±250 dump range contains its centre, lies inside the buffer, and is clamped only at the buffer's ends |
| PatchEngine.Visit | factorio_savegame_fix.py:56-96 | one occurrence: a clear happens only when patching, at an in-bounds target that held 0x01; "would change" only in a dry run; the new buffer is the old one with just that byte zeroed, or unchanged |
| PatchEngine.ScanRule | factorio_savegame_fix.py:45-98 | scanning one rule keeps the buffer's length |
| PatchEngine.RunRules | factorio_savegame_fix.py:44-98 | running the rules in order keeps the buffer's length |
| PatchEngine.VisitOccurrence | factorio_savegame_fix.py:56-96 | the body of the `while` loop, with its rebinding of `data`, computes exactly `Visit` |
| PatchEngine.ScanOccurrences | factorio_savegame_fix.py:45-98 | the `while True` loop for one rule terminates and continues the buffer, flag and log exactly as `ScanRule` specifies |
| PatchEngine.ScanAndPatch | factorio_savegame_fix.py:42-98 | the loop over the patterns, from `data_modified = False`, computes exactly `RunRules` over the whole catalog |
| EngineProperties.VisitClassified | factorio_savegame_fix.py:56-96 | each branch means what it reports: no sentinel in the window; or the rightmost sentinel, target = sentinel + offset, checked against the bounds, with the byte found there |
| EngineProperties.VisitAnchorsRightmost | factorio_savegame_fix.py:56-60 | any sentinel inside the window means one is found, and it lies at or after every other |
| EngineProperties.VisitGuarded | factorio_savegame_fix.py:73-92 | one occurrence changes the buffer exactly when it reports a clear, and then only at a target that held 0x01, set to 0x00, length kept |
| EngineProperties.ScanRuleRecords | factorio_savegame_fix.py:86-92 | a rule's output is its input with the log's cleared targets replayed in order, and each of them held 0x01 when cleared |
| EngineProperties.ScanRuleModified | factorio_savegame_fix.py:89-94 | a rule's modified flag is set exactly when one of its events cleared a byte; a dry run clears none |
| EngineProperties.ScanRuleShaped | factorio_savegame_fix.py:56-81 | every reported occurrence lies inside the buffer, its sentinel inside the window, its target at sentinel + offset, its dump the clamped window |
| EngineProperties.ScanRuleNonOverlapping | factorio_savegame_fix.py:48-98 | occurrences are reported left to right from the start, each at or after the end of the previous one, whatever the branch taken |
| EngineProperties.ScanRuleGreedy | factorio_savegame_fix.py:48-51 | in a dry run, each occurrence is the first match at or after the end of the previous one, and none is left after the last |
| EngineProperties.ScanRulePatchedGreedy | factorio_savegame_fix.py:48-51 | in either mode, each occurrence is the first match at or after the end of the previous one in the buffer as the rule's earlier clears left it, and none is left after the last |
| EngineProperties.ScanRuleReplays | factorio_savegame_fix.py:49-91 | each occurrence of a rule is found in, and visited against, the buffer as that rule's earlier occurrences left it |
| EngineProperties.RunRulesRecords | factorio_savegame_fix.py:44-98 | the output of all rules is the input with every cleared target replayed in order, and each held 0x01 when cleared |
| EngineProperties.RunRulesModified | factorio_savegame_fix.py:42-92 | `data_modified` is set exactly when some event cleared a byte; a dry run clears none |
| EngineProperties.RunRulesShaped | factorio_savegame_fix.py:44-81 | every event of every rule names that rule and is shaped like that rule's event over the buffer's length |
| EngineProperties.RunRulesOrdered | factorio_savegame_fix.py:44-98 | events come rule by rule in catalog order, and within one rule left to right without overlap |
| EngineProperties.RunRulesDryRunKeeps | factorio_savegame_fix.py:89-94 | a dry run of any prefix of the catalog leaves the buffer unchanged |
| EngineProperties.RunRulesDryRunCovers | factorio_savegame_fix.py:48-51 | in a dry run no marker occurrence is missed: each one is reported or overlaps a reported occurrence of the same rule |
| EngineProperties.RunRulesPrefix | factorio_savegame_fix.py:44-98 | the events of the first `m` rules are a prefix of the events of the first `n` |
| EngineProperties.RuleSegment | factorio_savegame_fix.py:44-98 | rule `ri`'s events sit in the whole log right after those of the rules before it, ending where the events of the first `ri + 1` rules end |
| EngineProperties.EachRuleScansGreedily | factorio_savegame_fix.py:44-51 | in either mode, each rule's stretch of the whole log carries that rule and is the greedy search of its marker over the buffer as all earlier events left it: no occurrence is skipped |
| EngineProperties.RunRulesReplays | factorio_savegame_fix.py:44-91 | the whole log is a replay: each event is visited against the buffer as all earlier events left it |
| EngineProperties.DryRunPure | factorio_savegame_fix.py:89-110 | with patching off the buffer comes back unchanged, nothing is cleared and the flag stays false |
| EngineProperties.EachOccurrenceSeesEarlierPatches | factorio_savegame_fix.py:44-91 | event `a` is a marker occurrence in, and is classified against, the input with events `0..a-1` applied, across rules and within a rule |
| EngineProperties.DryRunClassified | factorio_savegame_fix.py:56-96 | in a dry run every event is a marker occurrence in the input buffer, and its classification holds of the input buffer |
| EngineProperties.RunRulesOnlyClears | factorio_savegame_fix.py:86-92 | every byte of the output equals the input's, or went from 0x01 to 0x00 |
| EngineProperties.ModifiedIffBufferChanged | factorio_savegame_fix.py:86-100 | the output differs from the input exactly at cleared targets, each from 0x01 to 0x00; length kept; the flag is set exactly when the buffer changed, and only when patching |
| EngineProperties.DumpWindowsInsideBuffer | factorio_savegame_fix.py:60-83 | every hex dump, around the marker or around the in-bounds target, lies inside the buffer and contains its centre; out-of-bounds targets get no dump |
| EngineProperties.TargetsPrecedeMarkers | factorio_savegame_fix.py:73 | when every offset points before the end of its sentinel, every target lies before its marker occurrence |
| EngineProperties.CatalogTargetsPrecedeMarkers | factorio_savegame_fix.py:145-166 | the built-in offsets (-3, -1, 0) satisfy that, so every target of the catalog lies before its marker |
| LevelFile.StartsWith | factorio_savegame_fix.py:19 | `str.startswith`: the prefix is no longer than the name and agrees with it position by position |
| LevelFile.EndsWith | factorio_savegame_fix.py:19 | `str.endswith`: the suffix is no longer than the name and agrees with its last characters position by position |
| LevelFile.IsLevelDatName | factorio_savegame_fix.py:19 | the file filter: starts with `level.dat` and ends in neither `.datmetadata` nor `.bin` (its consequences are the next two rows) |
| LevelFile.NumberedChunksSelected | factorio_savegame_fix.py:19 | `level.dat` followed by any digits is selected |
| LevelFile.OthersNotSelected | factorio_savegame_fix.py:19 | for every name: one ending in `.datmetadata` or in `.bin`, or one that is shorter than `level.dat` or differs from it in one of its first nine characters, is not selected |
| LevelFile.CompanionsNotSelected | factorio_savegame_fix.py:19 | four example names are turned away: `level.datmetadata`, `level.dat.bin`, `level-init.dat` and `script.dat` |
| LevelFile.ProcessLevelDat | factorio_savegame_fix.py:32-110 | a decompression failure returns False; True exactly when a buffer is written back, only when patching, and exactly when patching changed a byte; the written buffer is the engine's output and differs only by cleared 0x01 bytes |
| Scenarios.AbabFoundThreeTimes | factorio_savegame_fix.py:48-98 | marker "ab" in "ababab" is reported three times, at 0, 2 and 4 |
| Scenarios.OverlappingOccurrenceSkipped | factorio_savegame_fix.py:98 | in "aaa" the overlapping occurrence of "aa" at 1 is not reported |
| Scenarios.SentinelAtStartIsOutOfBounds | factorio_savegame_fix.py:73-77 | 16×FF, 01, marker: sentinel at 0, target -3 out of bounds, buffer unchanged, flag false |
| Scenarios.FlagBeforeSentinelIsCleared | factorio_savegame_fix.py:86-92 | sentinel at 15, target 12 holds 0x01: with patching exactly byte 12 becomes 0x00 and the flag is set |
| Scenarios.FlagBeforeSentinelDryRun | factorio_savegame_fix.py:93-94 | the same buffer in a dry run: reported as "would change", buffer and flag untouched |
| Scenarios.CloserSentinelChosen | factorio_savegame_fix.py:58 | with two sentinels in the window the later one (17) is the anchor, not the earlier (0) |
| Scenarios.PatchingTwiceClearsAgain | factorio_savegame_fix.py:42-98 | on two back-to-back command-ran sentinels the first patching run of the whole three-rule catalog clears byte 9, and a second run over its output clears byte 0 and reports modified again |

## Left out

- zlib decompression and compression (lines 37, 102) are not modelled. The input is the result of decompression (`LevelFile.Inflated`), and the output is the buffer to be compressed.
- File reads and writes (lines 33-34, 104-105) are I/O.
- Zip extraction, directory walking and repacking (lines 8-21, 112-134) are I/O and library calls. Only the file-name predicate of line 19 is modelled.
- Backup, cleanup and the per-save decision in `main` (lines 136-182) are filesystem side effects over several files. Only the pattern catalog of lines 145-168 is modelled.
- The `input()` prompt and the `argparse` entry point (lines 139, 184-190) are user interface.
- The console output and the text layout of `hex_dump` (lines 23-30 and every `print`) are diagnostics only. The events keep each decision and the dump's bounds, but not the text.
- Empty markers are excluded by the precondition `WellFormed` (marker non-empty) on every scanning member (`ScanRule`, `RunRules`, `ScanOccurrences`, `ScanAndPatch`, `ProcessLevelDat`). With an empty marker, `index += len(search_string)` never advances and the loop at line 48 would not terminate. All built-in markers are non-empty (`PatchRules.CatalogWellFormed`).
- Marker decoding is not modelled. The messages of lines 53 and 61 call `search_string.decode()`, outside any `try`. A marker that is not valid UTF-8 would raise there at its first occurrence and abort `process_level_dat_file`. The model assumes every marker decodes and goes on. The built-in markers are ASCII (`PatchRules.CatalogMarkersAscii`), so the catalog behaves the same either way.
- A negative `search_back_bytes` is excluded by the type of `Rule.searchBack` (`nat`). Python would accept one: the window would start after the marker, `rfind` would return -1, and every occurrence would be reported as not found. No call site passes a negative value.
- Idempotence of patching is not claimed, because the source does not have it (`Scenarios.PatchingTwiceClearsAgain`).
- `bytes.find` and `bytes.rfind` are modelled only for non-negative bounds, which is all the engine passes them.
