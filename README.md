# conv_cueiso in Dafny

A model of the CUE/BIN/ISO converter `sources/conv_cueiso.py`, with proofs
about it. It covers the sector transcoding of `bin_to_iso` and `iso_to_bin`,
the CUE sheet reader `parse_cue`, the three-line sheet that `iso_to_bin`
writes, the overwrite gate (`check_overwrite` and `ask_overwrite`), and the
routing of `process_file`.

- `common.dfy`, module `Common`: `Option`, `Result`, the `Byte` type and `Min`.
- `sectors.dfy`, module `Sectors`: the sector constants.
  - `RawToUser` and `UserToRaw` give whole-image meaning to the two copy loops.
  - The loops themselves are the methods `BinToIso` and `IsoToBin`. They read
    chunks at a file position until a read returns nothing.
  - Python's clamped slicing and the resizing slice assignment on a
    `bytearray` are written out (`Slice`, `SliceAssign`).
- `sector_laws.dfy`, module `SectorLaws`: what the loops produce, sector by
  sector.
  - output lengths and where each byte comes from;
  - the short final chunk;
  - the round trip ISO -> BIN -> ISO.
- `text.dfy`, module `Text`: the pieces of Python's `str` the reader and the
  prompt use.
  - `strip`, ASCII `upper` and `lower`, `startswith`, `in`;
  - the lines a text-mode file yields;
  - UTF-8 encoding, and UTF-8 decoding with `errors="ignore"`.
- `cue_sheet.dfy`, module `CueSheet`:
  - the reader as a fold over per-line effects (`Parse`);
  - the method `ParseCue`, with the reader's loop;
  - a declarative description of its result;
  - the written sheet (`SheetText`), and the proof that the reader accepts it.
- `overwrite.dfy`, module `Overwrite`:
  - the prompt loop `AskOverwrite`, over the lines standard input delivers;
  - the gate `CheckOverwrite`, and its specification `Gate`.
- `paths.dfy`, module `Paths`: `Path.suffix` and `Path.with_suffix`.
- `dispatch.dfy`, module `Dispatch`: the converters and `process_file` acting
  on a file system.
  - The file system is a map from paths to contents.
  - Each call ends in `Converted(fs')`, `Skipped` or `Failed(error)`.
  - `Failed` stands for each place where the program reports an error and
    exits.
  - Lemmas cover what a run may change and when it may replace a file.
  - An end-to-end lemma follows an image through the written sheet and back.

The reader upper-cases each whole line before it splits out the quoted file
name. So the BIN name it returns is upper case, even where a sheet shows it
in lower case. The model follows the code here.
`CueSheet.ParsedNameUpper` states this behaviour. `Dispatch.DefaultNamesMissTheImage`
states what follows from it: converting `x.iso` writes `x.bin` and `x.cue`.
Reading `x.cue` back with `-f` then looks for `X.BIN`. On a case-sensitive
file system with no such file, it stops with "not found". Without `-f`, the
default destination of `x.cue` is `x.iso` itself, which still exists, so the
overwrite gate decides first.

The sheet is read as "utf-8", not "utf-8-sig". A sheet saved with a
byte-order mark in front of its FILE line therefore keeps the mark as a
character; the line no longer starts with FILE, and the sheet is refused as
invalid. `CueSheet.MarkedSheetRefused` and `Dispatch.MarkedCueRefused` state
this.

## Model

| member | source | states |
|---|---|---|
| Sectors.BinToIso | sources/conv_cueiso.py:105-114 | the copy loop writes exactly `RawToUser(bin, mode)`, the payload of every `mode`-sized chunk in order, including a short last chunk |
| SectorLaws.UserModeCopies | sources/conv_cueiso.py:113-114 | in 2048-byte mode the ISO written is the BIN image byte for byte |
| SectorLaws.RawSectorsToUser | sources/conv_cueiso.py:106-112 | for N whole raw sectors the ISO has N * 2048 bytes, and its block k is bytes [16, 2064) of sector k |
| SectorLaws.ShortChunk | sources/conv_cueiso.py:107-112 | a short chunk of r raw bytes contributes its bytes [min(16, r), min(r, 2064)), so nothing when r <= 16 |
| SectorLaws.RawTail | sources/conv_cueiso.py:106-112 | a trailing partial sector is not dropped: the ISO of q sectors plus r bytes is the ISO of the q sectors followed by the remainder's bytes from 16 up to 2064 |
| Sectors.IsoToBin | sources/conv_cueiso.py:125-133 | the copy loop writes exactly `UserToRaw(iso)`: one frame per 2048-byte chunk, built by slice assignment into a zeroed 2352-byte array |
| SectorLaws.FrameLayout | sources/conv_cueiso.py:131-132 | a frame is 16 zero bytes, the chunk, then 288 zero bytes, so 304 + the chunk's length |
| SectorLaws.UserToRawBlocks | sources/conv_cueiso.py:125-133 | for q whole blocks and an r-byte remainder, the BIN has q * 2352 (+ 304 + r) bytes; sector k is zeros around ISO block k; the short frame is zeros around the remainder |
| SectorLaws.RoundTrip | sources/conv_cueiso.py:102-133 | ISO -> BIN -> ISO in 2352 mode gives the image back, followed by `Padding` zero bytes: none for whole blocks, else min(288, 2048 - r) |
| SectorLaws.AlignedRoundTrip | sources/conv_cueiso.py:102-133 | an image of whole 2048-byte blocks survives the round trip unchanged |
| CueSheet.ParseCue | sources/conv_cueiso.py:71-96 | the reader's loop over the lines returns `Parse(lines)`: it stops at the first refused line, otherwise it keeps the last name and mode, then does the final check |
| CueSheet.ParseDecidedBy | sources/conv_cueiso.py:76-96 | the first refused line's reason is the result; with none, success iff the last FILE line gave a non-empty name and some TRACK line gave a mode; the result is the last name and the last mode; any other failure is "invalid" |
| CueSheet.RejectsExactly | sources/conv_cueiso.py:79-91 | a line is refused iff it is a FILE line without '"', or a non-FILE TRACK line that names AUDIO or neither MODE1/2352 nor MODE1/2048; AUDIO wins over any mode |
| CueSheet.ClassifyNormal | sources/conv_cueiso.py:79-91 | a FILE line's name has no lower-case letter and no '"'; a single line never yields the "invalid" error |
| CueSheet.QuotedName | sources/conv_cueiso.py:80 | `split('"')[1]` fails iff the line holds no '"'; the piece found holds no '"' |
| CueSheet.QuotedBetween | sources/conv_cueiso.py:80 | for a line `p"name"s` with no '"' in `p` or `name`, the piece found is `name` |
| CueSheet.ParsedNameUpper | sources/conv_cueiso.py:77-80 | every name the reader returns has no lower-case letter and no '"' |
| CueSheet.SheetAscii | sources/conv_cueiso.py:135-139 | the written sheet is ASCII whenever the BIN name is, so every ASCII-compatible locale encoding writes it as UTF-8 does |
| CueSheet.WrittenSheetParses | sources/conv_cueiso.py:135-139 | the sheet written for an ASCII name with no '"' or line break reads back as that name upper-cased, in 2352 mode |
| CueSheet.MarkedLineIgnored | sources/conv_cueiso.py:77-82 | a line starting with U+FEFF is neither a FILE nor a TRACK line, since `strip` keeps the mark |
| CueSheet.MarkedSheetRefused | sources/conv_cueiso.py:75-94 | the written sheet with a byte-order mark in front is refused as invalid: the FILE line is hidden and only the mode is found |
| Text.StripShape | sources/conv_cueiso.py:77 | `strip` keeps one contiguous piece with white space only before and after it, and no white space at its ends |
| Text.UpperAppend | sources/conv_cueiso.py:77 | upper-casing distributes over concatenation |
| Text.Upper | sources/conv_cueiso.py:77 | upper-casing keeps the length, leaves no lower-case letter, and changes only lower-case letters |
| Text.DecodeEncode | sources/conv_cueiso.py:75 | any text written as UTF-8 reads back unchanged through the `errors="ignore"` decoding |
| Text.DecodeMark | sources/conv_cueiso.py:75 | a leading byte-order mark is decoded to the character U+FEFF, not dropped |
| Text.LowerIsAnyCase | sources/conv_cueiso.py:49 | lower-casing gives a word without capitals iff the text spells that word in any mix of cases |
| Overwrite.ClassifyAnyCase | sources/conv_cueiso.py:49-53 | after stripping, an answer is yes iff it spells "y" or "yes" in any case, and no iff it spells "n" or "no" in any case or is empty |
| Overwrite.ClassifyPadded | sources/conv_cueiso.py:49 | white space around an answer does not change how it is taken |
| Overwrite.FirstDecisive | sources/conv_cueiso.py:48-53 | the position of the first yes-or-no answer, with every earlier answer undecided; `None` iff every answer is undecided |
| Overwrite.AskOverwrite | sources/conv_cueiso.py:47-53 | the prompt reads lines up to and including the first decisive one and consents iff that line is yes; if there is none it reads every line and ends without an answer (EOF) |
| Overwrite.CheckOverwrite | sources/conv_cueiso.py:56-65 | the gate returns `Gate`: an absent path or `force` passes without a question; with `ask` the first decisive answer decides; otherwise "already exists" |
| Overwrite.GateDecides | sources/conv_cueiso.py:56-65 | the gate passes iff the path is absent, forced, or asked and answered yes first; each refusal reason holds exactly in its case; it passes on the unread rest of the input |
| Overwrite.ConsentNeeded | sources/conv_cueiso.py:56-65 | an existing path passes only with `force` or with a yes among the answers |
| Overwrite.YesFirst | sources/conv_cueiso.py:50-51 | a first answer of yes lets an existing path through after reading one line |
| Overwrite.UnclearSkipped | sources/conv_cueiso.py:48-53 | an undecided answer is passed over: the gate decides as it would on the following lines |
| Paths.LastDot | sources/conv_cueiso.py:148 | the position of the last '.', with no '.' after it; `None` iff the name has no '.' |
| Paths.Stem | sources/conv_cueiso.py:120 | the name is its stem followed by its suffix |
| Paths.WithSuffix | sources/conv_cueiso.py:120 | renaming fails iff the name is empty, and keeps the directory (that it keeps the stem is stated by `Paths.SuffixOfWithSuffix`) |
| Paths.SuffixOfWithSuffix | sources/conv_cueiso.py:120 | after renaming to a proper suffix such as ".cue", that is the path's suffix and the stem is the original stem: only the final extension is replaced |
| Paths.WithSuffixMoves | sources/conv_cueiso.py:120 | renaming to a different proper suffix gives a different path |
| Dispatch.RouteAnyCase | sources/conv_cueiso.py:148-163 | an input goes to the sheet reader, the ISO converter or the BIN converter iff its suffix spells ".cue", ".iso" or ".bin" in any case |
| Dispatch.BinToIsoFile | sources/conv_cueiso.py:102-116 | `bin_to_iso` gates the ISO path, needs the BIN to exist, and writes `RawToUser` of it; a source that is its own destination reads as empty |
| Dispatch.IsoToBinFile | sources/conv_cueiso.py:119-142 | `iso_to_bin` derives the sheet path, gates the BIN path and then the sheet path on the remaining input, needs the ISO to exist, writes the frames and then the sheet |
| Dispatch.CueToIsoFile | sources/conv_cueiso.py:150-154 | a sheet is decoded, split into lines and parsed; the BIN it names is looked up beside it and converted in the sheet's mode to the output or to `<stem>.iso` |
| Dispatch.ProcessFile | sources/conv_cueiso.py:147-166 | `process_file` is `ProcessOutcome`: the routed conversion, or `Skipped` |
| Dispatch.SkippedExactly | sources/conv_cueiso.py:165-166 | an input is skipped iff its lower-cased suffix is none of ".cue", ".iso", ".bin" |
| Dispatch.BinToIsoGuarded | sources/conv_cueiso.py:102-105 | `bin_to_iso` writes only its destination, and replaces an existing one only with `force` or a yes |
| Dispatch.IsoToBinGuarded | sources/conv_cueiso.py:119-125 | `iso_to_bin` writes only the BIN and the sheet, and replaces either only with `force` or a yes |
| Dispatch.ExistingFilesGuarded | sources/conv_cueiso.py:147-166 | a conversion never removes a file, and an existing file whose contents change was let through by `force` or a yes |
| Dispatch.NeitherFlagKeepsFiles | sources/conv_cueiso.py:56-65 | without `-f` and `-a` no existing file changes |
| Dispatch.BinToIsoForced | sources/conv_cueiso.py:102-114 | with `force`, `bin_to_iso` always writes the payload of the source over the destination |
| Dispatch.IsoToBinForced | sources/conv_cueiso.py:119-139 | with `force`, `iso_to_bin` writes the frames over the BIN path and the sheet over `<stem>.cue` |
| Dispatch.SheetRouted | sources/conv_cueiso.py:120 | the written sheet's path has the suffix ".cue", so `process_file` hands it to the reader |
| Dispatch.WrittenCueParses | sources/conv_cueiso.py:135-139 | after `iso_to_bin`, the sheet on disk parses as the BIN name upper-cased, in 2352 mode |
| Dispatch.MarkedCueRefused | sources/conv_cueiso.py:75-94 | a sheet file holding the written sheet behind a byte-order mark ends in "invalid or unsupported CUE file" |
| Dispatch.SheetConverts | sources/conv_cueiso.py:150-154 | with `force`, a sheet naming a BIN beside it converts that BIN to the given output |
| Dispatch.RoundTripThroughSheet | sources/conv_cueiso.py:119-154 | for a BIN name with no lower-case letter, ISO -> BIN+CUE and then the CUE -> ISO gives back the image plus `Padding` zeros |
| Dispatch.DefaultNames | sources/conv_cueiso.py:157 | the default BIN path differs from the ISO path, and neither it nor the sheet is the upper-cased BIN name |
| Dispatch.DefaultNamesMissTheImage | sources/conv_cueiso.py:150-158 | with default names and `-f`, reading the written sheet back looks for the upper-cased BIN name and fails with "not found" when that file is absent |

## Left out

- Command-line parsing, globbing, directory walking, `main` and exit codes are not modelled. A run that prints `[ERR]` and exits is a `Failed` outcome. `[WARN]` is `Skipped`.
- Messages printed on success and failure are not modelled. Neither is the prompt text.
- I/O errors other than a missing source are not modelled: permissions, a directory in place of a file, a full disk, a failed read.
- A failure after the destination was opened, which leaves a truncated file, is not modelled.
- Concurrency, and other processes changing files, are not modelled.
- Paths are a directory and a name in it. Equal values mean the same file.
  - Case-insensitive file systems, links and `..` are not modelled.
  - A BIN name holding a path separator, or an absolute name, is joined as a plain name in the same directory.
  - Both of these can make different values denote the same file.
- `sources/conv_cuechd.py` is not part of this model.
- Text.Decode: decodes each well-formed UTF-8 sequence and drops each byte that starts none, one at a time. Python drops the longest malformed prefix at once; the bytes after its first are continuation bytes, which start nothing, so the text is the same. Python's incremental decoding of a text file in pieces is not modelled.
- Text.Upper: maps ASCII letters only. Python's `str.upper` also maps other letters, some to several characters ("ß" to "SS", "ﬁ" to "FI"). A line whose FILE, TRACK or AUDIO keyword is spelled with such characters ("AUDıO", whose dotless ı Python upper-cases to I), and a BIN name with such letters, are read differently by the model.
- Text.Lower: maps ASCII letters only. No other character lowers to a letter of "y", "yes", "n" or "no", so the classification of answers (`Overwrite.ClassifyAnyCase`) is unaffected.
- Text.Lines: keeps each line's terminator as found. Python would turn "\r" and "\r\n" into "\n". Every line is stripped before use.
- Dispatch.SheetBytes: `Path.write_text` is given no encoding and writes in the locale's preferred encoding; the model writes UTF-8. Non-ASCII BIN names are written differently in other locales.
- CueSheet.WrittenSheetParses: requires an ASCII BIN name, because `Upper` maps ASCII letters only.
- Dispatch.WrittenCueParses: requires an ASCII BIN name, for the locale encoding and for `Upper`.
- Dispatch.RoundTripThroughSheet: requires an ASCII BIN name, for the locale encoding and for `Upper`.
- `Path.write_text` may translate "\n" to the platform's line terminator. The sheet is modelled as written with "\n".
- Sync, header and error-correction bytes are never computed by the program; the frames hold zeros there, as modelled.
- `input()` raising `EOFError` when standard input runs out is the `InputExhausted` refusal. A Ctrl-C at the prompt is not modelled.
- Dispatch.RoundTripThroughSheet: also requires a BIN name without lower-case letters, because the reader upper-cases the name (see `Dispatch.DefaultNamesMissTheImage` for the other case).
- Paths.Suffix: follows the rule of `Path.suffix` where a name ending in '.' has no suffix. Python versions that changed this rule are not modelled.
