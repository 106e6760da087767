/**
 * The converters and the dispatcher: `bin_to_iso`, `iso_to_bin` and
 * `process_file` acting on a file system.
 *
 * The file system is a map from paths to file contents; a path absent from
 * the map does not exist. Each conversion either ends with the new file
 * system or stops with the error the program reports before exiting.
 */
module Dispatch {
  import opened Common
  import opened Text
  import opened Sectors
  import opened Paths
  import SectorLaws
  import CueSheet
  import Overwrite

  type FileSystem = map<Path, seq<Byte>>

  /** Why a conversion stopped. */
  datatype JobError =
    | BadCue(cue: Path, why: CueSheet.CueError)       // `parse_cue` rejected the sheet
    | Refused(target: Path, reason: Overwrite.Refusal) // the overwrite gate refused a destination
    | NotFound(source: Path)                           // opening a source for reading failed
    | EmptyName(path: Path)                            // `with_suffix` on a path without a name

  datatype Outcome = Converted(fs: FileSystem) | Skipped | Failed(error: JobError)

  const CUE_SUFFIX := ".cue"
  const ISO_SUFFIX := ".iso"
  const BIN_SUFFIX := ".bin"

  /** The three suffixes the program writes are proper: a dot and letters. */
  lemma SuffixesProper()
    ensures ProperSuffix(CUE_SUFFIX) && ProperSuffix(ISO_SUFFIX) && ProperSuffix(BIN_SUFFIX)
  {
  }

  /**
   * What `bin_to_iso` leaves behind: the ISO destination is gated first;
   * then the BIN image is opened for reading and the destination for
   * writing, which empties it, so a destination that is the source itself
   * reads as empty.
   */
  function BinToIsoOutcome(fs: FileSystem, bin: Path, iso: Path, mode: SectorMode,
                           force: bool, ask: bool, answers: seq<string>): (o: Outcome)
    ensures o != Skipped
  {
    match Overwrite.Gate(iso in fs, force, ask, answers)
    case Refuse(reason) => Failed(Refused(iso, reason))
    case Proceed(_) =>
      if bin !in fs then Failed(NotFound(bin))
      else
        var source := if bin == iso then [] else fs[bin];
        Converted(fs[iso := RawToUser(source, mode)])
  }

  /** `bin_to_iso` run through the verified gate and copy loop. */
  method BinToIsoFile(fs: FileSystem, bin: Path, iso: Path, mode: SectorMode,
                      force: bool, ask: bool, answers: seq<string>) returns (out: Outcome)
    ensures out == BinToIsoOutcome(fs, bin, iso, mode, force, ask, answers)
  {
    var verdict := Overwrite.CheckOverwrite(iso in fs, force, ask, answers);
    if verdict.Refuse? {
      return Failed(Refused(iso, verdict.reason));
    }
    if bin !in fs {
      return Failed(NotFound(bin));
    }
    var source := if bin == iso then [] else fs[bin];
    var data := BinToIso(source, mode);
    return Converted(fs[iso := data]);
  }

  /**
   * The CUE sheet `iso_to_bin` writes for a BIN image called `binName`.
   * `write_text` is given no encoding and uses the locale's; UTF-8 is taken
   * here, and any ASCII-compatible locale writes an ASCII sheet the same way.
   */
  function SheetBytes(binName: string): seq<Byte>
  {
    Encode(CueSheet.SheetText(binName))
  }

  /**
   * What `iso_to_bin` leaves behind: the sheet's path is derived first, the
   * BIN destination and then the sheet are gated (the second question reads
   * the lines the first left), the ISO image is opened, the BIN image is
   * written and then the sheet.
   */
  function IsoToBinOutcome(fs: FileSystem, iso: Path, bin: Path,
                           force: bool, ask: bool, answers: seq<string>): (o: Outcome)
    ensures o != Skipped
  {
    match WithSuffix(bin, CUE_SUFFIX)
    case None => Failed(EmptyName(bin))
    case Some(cue) =>
      match Overwrite.Gate(bin in fs, force, ask, answers)
      case Refuse(reason) => Failed(Refused(bin, reason))
      case Proceed(rest) =>
        match Overwrite.Gate(cue in fs, force, ask, rest)
        case Refuse(reason) => Failed(Refused(cue, reason))
        case Proceed(_) =>
          if iso !in fs then Failed(NotFound(iso))
          else
            var source := if iso == bin then [] else fs[iso];
            Converted(fs[bin := UserToRaw(source)][cue := SheetBytes(bin.name)])
  }

  /** `iso_to_bin` run through the verified gates and copy loop. */
  method IsoToBinFile(fs: FileSystem, iso: Path, bin: Path,
                      force: bool, ask: bool, answers: seq<string>) returns (out: Outcome)
    ensures out == IsoToBinOutcome(fs, iso, bin, force, ask, answers)
  {
    var cuePath := WithSuffix(bin, CUE_SUFFIX);
    if cuePath.None? {
      return Failed(EmptyName(bin));
    }
    var cue := cuePath.value;
    var first := Overwrite.CheckOverwrite(bin in fs, force, ask, answers);
    if first.Refuse? {
      return Failed(Refused(bin, first.reason));
    }
    var second := Overwrite.CheckOverwrite(cue in fs, force, ask, first.rest);
    if second.Refuse? {
      return Failed(Refused(cue, second.reason));
    }
    if iso !in fs {
      return Failed(NotFound(iso));
    }
    var source := if iso == bin then [] else fs[iso];
    var data := IsoToBin(source);
    var written := fs[bin := data];
    return Converted(written[cue := SheetBytes(bin.name)]);
  }

  /** The conversion `process_file` picks from the lower-cased suffix of the input. */
  datatype Route = FromCue | FromIso | FromBin | Unsupported

  function RouteOf(inp: Path): (r: Route)
    ensures r == FromCue <==> Lower(Suffix(inp.name)) == CUE_SUFFIX
    ensures r == FromIso <==> Lower(Suffix(inp.name)) == ISO_SUFFIX
    ensures r == FromBin <==> Lower(Suffix(inp.name)) == BIN_SUFFIX
    ensures r == Unsupported <==> Lower(Suffix(inp.name)) !in {CUE_SUFFIX, ISO_SUFFIX, BIN_SUFFIX}
  {
    var ext := Lower(Suffix(inp.name));
    if ext == CUE_SUFFIX then FromCue
    else if ext == ISO_SUFFIX then FromIso
    else if ext == BIN_SUFFIX then FromBin
    else Unsupported
  }

  /** The suffix is compared without regard to case: ".CUE", ".Iso" and ".bIn" are routed too. */
  lemma RouteAnyCase(inp: Path)
    ensures RouteOf(inp) == FromCue <==> SpellsAnyCase(Suffix(inp.name), CUE_SUFFIX)
    ensures RouteOf(inp) == FromIso <==> SpellsAnyCase(Suffix(inp.name), ISO_SUFFIX)
    ensures RouteOf(inp) == FromBin <==> SpellsAnyCase(Suffix(inp.name), BIN_SUFFIX)
  {
    var x := Suffix(inp.name);
    LowerIsAnyCase(x, CUE_SUFFIX);
    LowerIsAnyCase(x, ISO_SUFFIX);
    LowerIsAnyCase(x, BIN_SUFFIX);
  }

  /** The destination: `output` when given, otherwise the input renamed to `suffix`. */
  function Target(inp: Path, output: Option<Path>, suffix: string): Option<Path>
  {
    if output.Some? then output else WithSuffix(inp, suffix)
  }

  /**
   * The `.cue` branch of `process_file`: the sheet is read as text (decoded
   * as UTF-8, malformed bytes dropped) and parsed; the BIN image it names is
   * looked up next to it and converted in the sheet's mode.
   */
  function CueOutcome(fs: FileSystem, inp: Path, output: Option<Path>,
                      force: bool, ask: bool, answers: seq<string>): (o: Outcome)
    ensures o != Skipped
  {
    if inp !in fs then Failed(NotFound(inp))
    else
      match CueSheet.Parse(Lines(Decode(fs[inp])))
      case Err(why) => Failed(BadCue(inp, why))
      case Ok(cue) =>
        match Target(inp, output, ISO_SUFFIX)
        case None => Failed(EmptyName(inp))
        case Some(iso) => BinToIsoOutcome(fs, Path(inp.dir, cue.binFile), iso, cue.mode, force, ask, answers)
  }

  /** The `.cue` branch of `process_file`, run through the verified parser and converter. */
  method CueToIsoFile(fs: FileSystem, inp: Path, output: Option<Path>,
                      force: bool, ask: bool, answers: seq<string>) returns (out: Outcome)
    ensures out == CueOutcome(fs, inp, output, force, ask, answers)
  {
    if inp !in fs {
      return Failed(NotFound(inp));
    }
    var parsed := CueSheet.ParseCue(Lines(Decode(fs[inp])));
    if parsed.Err? {
      return Failed(BadCue(inp, parsed.error));
    }
    var iso := Target(inp, output, ISO_SUFFIX);
    if iso.None? {
      return Failed(EmptyName(inp));
    }
    out := BinToIsoFile(fs, Path(inp.dir, parsed.value.binFile), iso.value, parsed.value.mode, force, ask, answers);
  }

  /** The `.iso` branch of `process_file`. */
  function IsoOutcome(fs: FileSystem, inp: Path, output: Option<Path>,
                      force: bool, ask: bool, answers: seq<string>): (o: Outcome)
    ensures o != Skipped
  {
    match Target(inp, output, BIN_SUFFIX)
    case None => Failed(EmptyName(inp))
    case Some(bin) => IsoToBinOutcome(fs, inp, bin, force, ask, answers)
  }

  /** The `.bin` branch of `process_file`: the input is read as raw 2352-byte sectors. */
  function BinOutcome(fs: FileSystem, inp: Path, output: Option<Path>,
                      force: bool, ask: bool, answers: seq<string>): (o: Outcome)
    ensures o != Skipped
  {
    match Target(inp, output, ISO_SUFFIX)
    case None => Failed(EmptyName(inp))
    case Some(iso) => BinToIsoOutcome(fs, inp, iso, Raw2352, force, ask, answers)
  }

  /** What `process_file` leaves behind; any input of another suffix is skipped. */
  function ProcessOutcome(fs: FileSystem, inp: Path, output: Option<Path>,
                          force: bool, ask: bool, answers: seq<string>): Outcome
  {
    match RouteOf(inp)
    case FromCue => CueOutcome(fs, inp, output, force, ask, answers)
    case FromIso => IsoOutcome(fs, inp, output, force, ask, answers)
    case FromBin => BinOutcome(fs, inp, output, force, ask, answers)
    case Unsupported => Skipped
  }

  /** `process_file` run through the verified parser and converters. */
  method ProcessFile(fs: FileSystem, inp: Path, output: Option<Path>,
                     force: bool, ask: bool, answers: seq<string>) returns (out: Outcome)
    ensures out == ProcessOutcome(fs, inp, output, force, ask, answers)
  {
    var route := RouteOf(inp);
    match route
    case FromCue =>
      out := CueToIsoFile(fs, inp, output, force, ask, answers);
    case FromIso =>
      var bin := Target(inp, output, BIN_SUFFIX);
      if bin.None? {
        return Failed(EmptyName(inp));
      }
      out := IsoToBinFile(fs, inp, bin.value, force, ask, answers);
    case FromBin =>
      var iso := Target(inp, output, ISO_SUFFIX);
      if iso.None? {
        return Failed(EmptyName(inp));
      }
      out := BinToIsoFile(fs, inp, iso.value, Raw2352, force, ask, answers);
    case Unsupported =>
      out := Skipped;
  }

  /**
   * Only inputs routed to a conversion (suffix .cue, .iso or .bin, in any
   * case) are acted on; every other input is skipped.
   */
  lemma SkippedExactly(fs: FileSystem, inp: Path, output: Option<Path>,
                       force: bool, ask: bool, answers: seq<string>)
    ensures ProcessOutcome(fs, inp, output, force, ask, answers) == Skipped <==> RouteOf(inp) == Unsupported
  {
  }

  /** The file system after a conversion keeps every file, and changes at most `a` and `b`. */
  predicate ChangesAtMost(fs: FileSystem, after: FileSystem, a: Path, b: Path)
  {
    fs.Keys <= after.Keys
    && (forall p :: p in fs && p != a && p != b ==> after[p] == fs[p])
    && (forall p :: p in after && p !in fs ==> p == a || p == b)
  }

  /** A file that existed and now holds something else was let through by the gate. */
  predicate Overwrote(fs: FileSystem, after: FileSystem, p: Path)
  {
    p in fs && p in after && after[p] != fs[p]
  }

  /** A yes among the lines left after a question is a yes among all of them. */
  lemma SomeYesSuffix(answers: seq<string>, k: nat)
    requires k <= |answers| && Overwrite.SomeYes(answers[k..])
    ensures Overwrite.SomeYes(answers)
  {
    var j :| 0 <= j < |answers[k..]| && Overwrite.Classify(answers[k..][j]) == Overwrite.Yes;
    assert answers[k + j] == answers[k..][j];
  }

  /**
   * `bin_to_iso` writes only its destination, and replaces an existing file
   * only when forced or told yes.
   */
  lemma BinToIsoGuarded(fs: FileSystem, bin: Path, iso: Path, mode: SectorMode,
                        force: bool, ask: bool, answers: seq<string>)
    requires BinToIsoOutcome(fs, bin, iso, mode, force, ask, answers).Converted?
    ensures var after := BinToIsoOutcome(fs, bin, iso, mode, force, ask, answers).fs;
      ChangesAtMost(fs, after, iso, iso)
      && (iso in fs ==> force || (ask && Overwrite.SomeYes(answers)))
  {
    if iso in fs {
      Overwrite.ConsentNeeded(true, force, ask, answers);
    }
  }

  /**
   * `iso_to_bin` writes only the BIN image and its sheet, and replaces
   * either when it already exists only when forced or told yes.
   */
  lemma IsoToBinGuarded(fs: FileSystem, iso: Path, bin: Path,
                        force: bool, ask: bool, answers: seq<string>)
    requires IsoToBinOutcome(fs, iso, bin, force, ask, answers).Converted?
    ensures var cue := WithSuffix(bin, CUE_SUFFIX).value;
      var after := IsoToBinOutcome(fs, iso, bin, force, ask, answers).fs;
      ChangesAtMost(fs, after, bin, cue)
      && ((bin in fs || cue in fs) ==> force || (ask && Overwrite.SomeYes(answers)))
  {
    var cue := WithSuffix(bin, CUE_SUFFIX).value;
    var v := Overwrite.Gate(bin in fs, force, ask, answers);
    Overwrite.GateDecides(bin in fs, force, ask, answers);
    if bin in fs {
      Overwrite.ConsentNeeded(true, force, ask, answers);
    }
    if cue in fs {
      var rest := v.rest;
      Overwrite.ConsentNeeded(true, force, ask, rest);
      if !force {
        SomeYesSuffix(answers, |answers| - |rest|);
      }
    }
  }

  /**
   * Whatever `process_file` converts, it never deletes a file, and an
   * existing file whose contents change was let through by `force` or by a
   * yes typed at the prompt.
   */
  lemma ExistingFilesGuarded(fs: FileSystem, inp: Path, output: Option<Path>,
                             force: bool, ask: bool, answers: seq<string>, p: Path)
    requires ProcessOutcome(fs, inp, output, force, ask, answers).Converted?
    ensures fs.Keys <= ProcessOutcome(fs, inp, output, force, ask, answers).fs.Keys
    ensures Overwrote(fs, ProcessOutcome(fs, inp, output, force, ask, answers).fs, p) ==>
      force || (ask && Overwrite.SomeYes(answers))
  {
    match RouteOf(inp)
    case FromCue =>
      var cue := CueSheet.Parse(Lines(Decode(fs[inp]))).value;
      var iso := Target(inp, output, ISO_SUFFIX).value;
      BinToIsoGuarded(fs, Path(inp.dir, cue.binFile), iso, cue.mode, force, ask, answers);
    case FromIso =>
      var bin := Target(inp, output, BIN_SUFFIX).value;
      IsoToBinGuarded(fs, inp, bin, force, ask, answers);
    case FromBin =>
      var iso := Target(inp, output, ISO_SUFFIX).value;
      BinToIsoGuarded(fs, inp, iso, Raw2352, force, ask, answers);
    case Unsupported =>
  }

  /** Without `-f` or `-a`, no existing file is ever changed. */
  lemma NeitherFlagKeepsFiles(fs: FileSystem, inp: Path, output: Option<Path>,
                              answers: seq<string>, p: Path)
    requires ProcessOutcome(fs, inp, output, false, false, answers).Converted?
    requires p in fs
    ensures var after := ProcessOutcome(fs, inp, output, false, false, answers).fs;
      p in after && after[p] == fs[p]
  {
    ExistingFilesGuarded(fs, inp, output, false, false, answers, p);
  }

  /** With `force`, `bin_to_iso` writes the payload of the source over the destination. */
  lemma BinToIsoForced(fs: FileSystem, bin: Path, iso: Path, mode: SectorMode, ask: bool, answers: seq<string>)
    requires bin in fs && bin != iso
    ensures BinToIsoOutcome(fs, bin, iso, mode, true, ask, answers) == Converted(fs[iso := RawToUser(fs[bin], mode)])
  {
    Overwrite.GateDecides(iso in fs, true, ask, answers);
  }

  /**
   * With `force`, `iso_to_bin` writes the framed image over the BIN
   * destination and the sheet over the path beside it.
   */
  lemma IsoToBinForced(fs: FileSystem, iso: Path, bin: Path, ask: bool, answers: seq<string>)
    requires iso in fs && iso != bin && bin.name != []
    ensures var cue := WithSuffix(bin, CUE_SUFFIX).value;
      IsoToBinOutcome(fs, iso, bin, true, ask, answers)
        == Converted(fs[bin := UserToRaw(fs[iso])][cue := SheetBytes(bin.name)])
  {
    var cue := WithSuffix(bin, CUE_SUFFIX).value;
    Overwrite.GateDecides(bin in fs, true, ask, answers);
    Overwrite.GateDecides(cue in fs, true, ask, answers);
  }

  /** The sheet's default path ends in ".cue", so `process_file` routes it to the parser. */
  lemma SheetRouted(bin: Path)
    requires bin.name != []
    ensures RouteOf(WithSuffix(bin, CUE_SUFFIX).value) == FromCue
  {
    var cue := WithSuffix(bin, CUE_SUFFIX).value;
    SuffixesProper();
    SuffixOfWithSuffix(bin, CUE_SUFFIX);
    assert Lower(CUE_SUFFIX) == CUE_SUFFIX;
  }

  /**
   * The sheet `iso_to_bin` leaves beside the BIN image reads back, through
   * `parse_cue`, as that image's name in upper case and 2352-byte mode,
   * provided the name is ASCII, non-empty and free of quotes and line breaks.
   * ASCII keeps the sheet the same in every ASCII-compatible locale encoding
   * and keeps `Upper` in step with Python's `str.upper`.
   */
  lemma WrittenCueParses(fs: FileSystem, iso: Path, bin: Path,
                         force: bool, ask: bool, answers: seq<string>)
    requires IsoToBinOutcome(fs, iso, bin, force, ask, answers).Converted?
    requires CueSheet.SheetSafe(bin.name) && IsAscii(bin.name)
    ensures var cue := WithSuffix(bin, CUE_SUFFIX).value;
      var after := IsoToBinOutcome(fs, iso, bin, force, ask, answers).fs;
      cue in after && CueSheet.Parse(Lines(Decode(after[cue]))) == Ok(CueSheet.Cue(Upper(bin.name), Raw2352))
  {
    var text := CueSheet.SheetText(bin.name);
    DecodeEncode(text);
    CueSheet.WrittenSheetParses(bin.name);
  }

  /**
   * A sheet saved with a byte-order mark in front of its FILE line, as some
   * editors save UTF-8, is refused as invalid: the mark is read as a
   * character, and the line no longer starts with FILE.
   */
  lemma MarkedCueRefused(fs: FileSystem, cue: Path, name: string, output: Option<Path>,
                         force: bool, ask: bool, answers: seq<string>)
    requires cue in fs && fs[cue] == BYTE_ORDER_MARK + SheetBytes(name) && CueSheet.SheetSafe(name)
    ensures CueOutcome(fs, cue, output, force, ask, answers) == Failed(BadCue(cue, CueSheet.InvalidCue))
  {
    CueSheet.MarkedSheetRefused(name);
  }

  /** With `force`, a sheet naming a BIN image beside it converts that image to `out`. */
  lemma SheetConverts(fs: FileSystem, cue: Path, bin: Path, out: Path, ask: bool, answers: seq<string>)
    requires cue in fs && CueSheet.Parse(Lines(Decode(fs[cue]))) == Ok(CueSheet.Cue(bin.name, Raw2352))
    requires cue.dir == bin.dir && bin in fs && bin != out
    ensures CueOutcome(fs, cue, Some(out), true, ask, answers) == Converted(fs[out := RawToUser(fs[bin], Raw2352)])
  {
    assert Path(cue.dir, bin.name) == bin;
    BinToIsoForced(fs, bin, out, Raw2352, ask, answers);
  }

  /**
   * Converting an ISO image to a BIN image whose name has no lower-case
   * letters, and then converting the sheet written beside it, gives back
   * the ISO image, followed, when its length is not a multiple of 2048, by
   * the zeros its short final frame adds: up to 288 of them, never past a
   * whole block.
   */
  lemma RoundTripThroughSheet(fs: FileSystem, iso: Path, bin: Path, out: Path, ask: bool, answers: seq<string>)
    requires iso in fs && iso != bin && out != bin
    requires CueSheet.SheetSafe(bin.name) && IsAscii(bin.name) && NoLower(bin.name)
    requires Suffix(bin.name) != CUE_SUFFIX
    ensures IsoToBinOutcome(fs, iso, bin, true, ask, answers).Converted?
    ensures var cue := WithSuffix(bin, CUE_SUFFIX).value;
      var after := IsoToBinOutcome(fs, iso, bin, true, ask, answers).fs;
      var image := fs[iso];
      ProcessOutcome(after, cue, Some(out), true, ask, answers)
        == Converted(after[out := image + Zeros(SectorLaws.Padding(|image|))])
  {
    var cue := WithSuffix(bin, CUE_SUFFIX).value;
    var image := fs[iso];
    IsoToBinForced(fs, iso, bin, ask, answers);
    var after := IsoToBinOutcome(fs, iso, bin, true, ask, answers).fs;
    SuffixesProper();
    WithSuffixMoves(bin, CUE_SUFFIX);
    assert after[bin] == UserToRaw(image);
    WrittenCueParses(fs, iso, bin, true, ask, answers);
    UpperFixed(bin.name);
    SheetConverts(after, cue, bin, out, ask, answers);
    SheetRouted(bin);
    SectorLaws.RoundTrip(image);
  }

  /** A name ending in a lower-case letter is not the upper case of any name. */
  lemma NotAnUpperCase(name: string, other: string)
    requires name != [] && 'a' <= name[|name| - 1] <= 'z'
    ensures Upper(other) != name
  {
    if |Upper(other)| == |name| {
      assert !('a' <= Upper(other)[|name| - 1] <= 'z');
    }
  }

  /**
   * The default BIN name ends in "bin" and the sheet's in "cue": neither is
   * the upper case of the BIN name, and the BIN path is not the ISO path.
   */
  lemma DefaultNames(iso: Path)
    requires iso.name != [] && Suffix(iso.name) != BIN_SUFFIX
    ensures var bin := WithSuffix(iso, BIN_SUFFIX).value;
      var cue := WithSuffix(bin, CUE_SUFFIX).value;
      bin != iso && bin.name != [] && bin.dir == iso.dir && cue.dir == iso.dir
      && Path(iso.dir, Upper(bin.name)) != bin && Path(iso.dir, Upper(bin.name)) != cue
  {
    var bin := WithSuffix(iso, BIN_SUFFIX).value;
    var cue := WithSuffix(bin, CUE_SUFFIX).value;
    SuffixesProper();
    WithSuffixMoves(iso, BIN_SUFFIX);
    assert bin.name[|bin.name| - 1] == 'n';
    assert cue.name[|cue.name| - 1] == 'e';
    NotAnUpperCase(bin.name, bin.name);
    NotAnUpperCase(cue.name, bin.name);
  }

  /**
   * With the default names an ISO image becomes "<stem>.bin" and
   * "<stem>.cue"; the sheet names "<STEM>.BIN", because `parse_cue`
   * upper-cases whole lines, so converting the sheet back with `force`
   * looks for a file that was not written and stops when no such file
   * exists. (Without `force`, the default destination of the sheet is the
   * original ISO image, which still exists, so the gate may stop it first.)
   */
  lemma DefaultNamesMissTheImage(fs: FileSystem, iso: Path, ask: bool, answers: seq<string>)
    requires iso in fs && iso.name != [] && Suffix(iso.name) != BIN_SUFFIX
    requires var bin := WithSuffix(iso, BIN_SUFFIX).value;
      CueSheet.SheetSafe(bin.name) && IsAscii(bin.name) && Path(iso.dir, Upper(bin.name)) !in fs
    ensures var bin := WithSuffix(iso, BIN_SUFFIX).value;
      IsoToBinOutcome(fs, iso, bin, true, ask, answers).Converted?
    ensures var bin := WithSuffix(iso, BIN_SUFFIX).value;
      var cue := WithSuffix(bin, CUE_SUFFIX).value;
      var after := IsoToBinOutcome(fs, iso, bin, true, ask, answers).fs;
      ProcessOutcome(after, cue, None, true, ask, answers) == Failed(NotFound(Path(iso.dir, Upper(bin.name))))
  {
    var bin := WithSuffix(iso, BIN_SUFFIX).value;
    var cue := WithSuffix(bin, CUE_SUFFIX).value;
    var wanted := Path(iso.dir, Upper(bin.name));
    DefaultNames(iso);
    IsoToBinForced(fs, iso, bin, ask, answers);
    var after := IsoToBinOutcome(fs, iso, bin, true, ask, answers).fs;
    assert wanted !in after;
    WrittenCueParses(fs, iso, bin, true, ask, answers);
    SheetRouted(bin);
    var target := WithSuffix(cue, ISO_SUFFIX).value;
    Overwrite.GateDecides(target in after, true, ask, answers);
    assert CueOutcome(after, cue, None, true, ask, answers) == Failed(NotFound(wanted));
  }
}
