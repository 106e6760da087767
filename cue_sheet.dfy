/**
 * The minimal, strict CUE sheet reader of `parse_cue` and the three-line
 * sheet that `iso_to_bin` writes beside every BIN image.
 *
 * Every line is stripped and upper-cased before it is looked at. A line
 * starting with FILE names the BIN image (the text after its first double
 * quote, up to the next one); a line starting with TRACK sets the sector
 * size, and is rejected when it mentions AUDIO or names neither MODE1/2352
 * nor MODE1/2048. Later lines overwrite earlier ones. Other lines are
 * ignored.
 */
module CueSheet {
  import opened Common
  import opened Text
  import opened Sectors

  /** Why a sheet is refused. */
  datatype CueError =
    | QuoteMissing      // a FILE line without '"': `split('"')[1]` raises IndexError
    | AudioTrack        // "audio tracks are not supported"
    | UnsupportedMode   // "unsupported track mode"
    | InvalidCue        // "invalid or unsupported CUE file": no BIN name or no mode

  /** What a sheet that is accepted names: the BIN image and its sector mode. */
  datatype Cue = Cue(binFile: string, mode: SectorMode)

  /** What one line does to the reader's state. */
  datatype Effect =
    | SetFile(name: string)
    | SetMode(mode: SectorMode)
    | NoEffect
    | Reject(why: CueError)

  /** The two variables the reader keeps, `None` until a line sets them. */
  datatype Slots = Slots(binFile: Option<string>, mode: Option<SectorMode>)

  const FILE_KEY := "FILE"
  const TRACK_KEY := "TRACK"
  const AUDIO_KEY := "AUDIO"
  const MODE_2352_KEY := "MODE1/2352"
  const MODE_2048_KEY := "MODE1/2048"

  /** What the reader looks at: the line stripped, then upper-cased. */
  function Normalize(line: string): string
  {
    Upper(Strip(line))
  }

  /** The text from the start of `s` up to its first '"', or all of `s`. */
  function UpToQuote(s: string): (r: string)
    ensures '"' !in r
    ensures |r| <= |s| && r == s[..|r|]
    ensures |r| < |s| ==> s[|r|] == '"'
  {
    if s == [] || s[0] == '"' then [] else [s[0]] + UpToQuote(s[1..])
  }

  /**
   * `l.split('"')[1]`: the piece after the first '"', up to the next '"' or
   * the end of the line; `None` when the line holds no '"' (the split then
   * has a single piece and indexing it raises).
   */
  function QuotedName(l: string): (r: Option<string>)
    ensures r.None? <==> '"' !in l
    ensures r.Some? ==> '"' !in r.value
  {
    if l == [] then None
    else if l[0] == '"' then Some(UpToQuote(l[1..]))
    else QuotedName(l[1..])
  }

  /** A name between the first two quotes of a line is the name `split` finds. */
  lemma {:induction false} QuotedBetween(p: string, name: string, s: string)
    requires '"' !in p && '"' !in name
    ensures QuotedName(p + ['"'] + name + ['"'] + s) == Some(name)
  {
    var l := p + ['"'] + name + ['"'] + s;
    if p == [] {
      assert l == ['"'] + (name + ['"'] + s);
      assert l[1..] == name + ['"'] + s;
      UpToQuoteBefore(name, s);
    } else {
      assert l[0] == p[0];
      assert l[1..] == p[1..] + ['"'] + name + ['"'] + s;
      QuotedBetween(p[1..], name, s);
    }
  }

  lemma {:induction false} UpToQuoteBefore(name: string, s: string)
    requires '"' !in name
    ensures UpToQuote(name + ['"'] + s) == name
  {
    if name == [] {
      assert (name + ['"'] + s)[0] == '"';
    } else {
      assert (name + ['"'] + s)[1..] == name[1..] + ['"'] + s;
      UpToQuoteBefore(name[1..], s);
      assert name == [name[0]] + name[1..];
    }
  }

  /**
   * The effect of one line, already stripped and upper-cased: a FILE line
   * is looked at first and is never taken for a TRACK line; on a TRACK line
   * AUDIO is tested before either mode, and MODE1/2352 before MODE1/2048.
   */
  function ClassifyNormal(l: string): (e: Effect)
    requires NoLower(l)
    ensures e.SetFile? ==> NoLower(e.name) && '"' !in e.name
    ensures e.Reject? ==> e.why != InvalidCue
  {
    if StartsWith(l, FILE_KEY) then
      match QuotedName(l)
      case None => Reject(QuoteMissing)
      case Some(name) =>
        assert NoLower(name) by {
          UpperQuotedName(l);
        }
        SetFile(name)
    else if StartsWith(l, TRACK_KEY) then
      if Contains(l, AUDIO_KEY) then Reject(AudioTrack)
      else if Contains(l, MODE_2352_KEY) then SetMode(Raw2352)
      else if Contains(l, MODE_2048_KEY) then SetMode(User2048)
      else Reject(UnsupportedMode)
    else NoEffect
  }

  /** The effect of one line of the sheet as read from the file. */
  function Classify(line: string): (e: Effect)
    ensures e.SetFile? ==> NoLower(e.name) && '"' !in e.name
    ensures e.Reject? ==> e.why != InvalidCue
  {
    ClassifyNormal(Normalize(line))
  }

  /** The effect of every line, in order. */
  function Effects(lines: seq<string>): (es: seq<Effect>)
    ensures |es| == |lines|
    ensures forall i :: 0 <= i < |lines| ==> es[i] == Classify(lines[i])
  {
    seq(|lines|, i requires 0 <= i < |lines| => Classify(lines[i]))
  }

  /** A piece of an upper-cased line is upper-cased. */
  lemma {:induction false} UpperQuotedName(l: string)
    requires NoLower(l) && QuotedName(l).Some?
    ensures NoLower(QuotedName(l).value)
  {
    if l[0] == '"' {
      UpToQuoteInside(l[1..]);
    } else {
      UpperQuotedName(l[1..]);
    }
  }

  lemma UpToQuoteInside(s: string)
    requires NoLower(s)
    ensures NoLower(UpToQuote(s))
  {
    var r := UpToQuote(s);
    assert forall i :: 0 <= i < |r| ==> r[i] == s[i];
  }


  /**
   * When a line is refused: a FILE line without a quote, or a TRACK line
   * (that is not a FILE line) which mentions AUDIO or names neither mode;
   * the reason is AUDIO whenever the line mentions it, whatever modes it
   * also names.
   */
  lemma RejectsExactly(line: string)
    ensures var l := Normalize(line);
      Classify(line).Reject? <==>
        (StartsWith(l, FILE_KEY) && '"' !in l)
        || (!StartsWith(l, FILE_KEY) && StartsWith(l, TRACK_KEY)
            && (Contains(l, AUDIO_KEY) || (!Contains(l, MODE_2352_KEY) && !Contains(l, MODE_2048_KEY))))
    ensures var l := Normalize(line);
      Classify(line) == Reject(AudioTrack) <==>
        !StartsWith(l, FILE_KEY) && StartsWith(l, TRACK_KEY) && Contains(l, AUDIO_KEY)
  {
  }

  /** The new state after one line that is not refused. */
  function Apply(s: Slots, e: Effect): Slots
  {
    match e
    case SetFile(name) => s.(binFile := Some(name))
    case SetMode(mode) => s.(mode := Some(mode))
    case _ => s
  }

  /** The pass over the lines' effects from state `s`: stops at the first refusal. */
  function Scan(es: seq<Effect>, s: Slots): Result<Slots, CueError>
    decreases |es|
  {
    if es == [] then Ok(s)
    else if es[0].Reject? then Err(es[0].why)
    else Scan(es[1..], Apply(s, es[0]))
  }

  /** The final test: a non-empty BIN name and a mode are required. */
  function Finish(s: Slots): (r: Result<Cue, CueError>)
    ensures r.Ok? <==> s.binFile.Some? && s.binFile.value != [] && s.mode.Some?
    ensures r.Err? ==> r.error == InvalidCue
    ensures r.Ok? ==> r.value == Cue(s.binFile.value, s.mode.value)
  {
    if s.binFile.None? || s.binFile.value == [] || s.mode.None? then Err(InvalidCue)
    else Ok(Cue(s.binFile.value, s.mode.value))
  }

  /** `parse_cue` on the lines of a sheet. */
  function Parse(lines: seq<string>): Result<Cue, CueError>
  {
    match Scan(Effects(lines), Slots(None, None))
    case Err(e) => Err(e)
    case Ok(s) => Finish(s)
  }

  /**
   * `parse_cue`'s loop: looks at each line in turn, stops at the first
   * refused one, and otherwise reassigns the BIN name or the mode.
   */
  method ParseCue(lines: seq<string>) returns (r: Result<Cue, CueError>)
    ensures r == Parse(lines)
  {
    var binFile: Option<string> := None;
    var mode: Option<SectorMode> := None;
    ghost var es := Effects(lines);
    for i := 0 to |lines|
      invariant Scan(es[i..], Slots(binFile, mode)) == Scan(es, Slots(None, None))
    {
      var e := Classify(lines[i]);
      ScanStep(es, i, Slots(binFile, mode));
      match e
      case Reject(why) =>
        return Err(why);
      case SetFile(name) =>
        binFile := Some(name);
      case SetMode(m) =>
        mode := Some(m);
      case NoEffect =>
    }
    assert es[|lines|..] == [];
    r := Finish(Slots(binFile, mode));
  }

  /** One line of the pass, at position `i`. */
  lemma ScanStep(es: seq<Effect>, i: nat, s: Slots)
    requires i < |es|
    ensures Scan(es[i..], s) == if es[i].Reject? then Err(es[i].why) else Scan(es[i + 1..], Apply(s, es[i]))
  {
    assert es[i..][1..] == es[i + 1..];
  }

  /** The index of the first refusal, if any. */
  function FirstRejected(es: seq<Effect>): (r: Option<nat>)
    ensures r.Some? ==> r.value < |es| && es[r.value].Reject?
    ensures r.Some? ==> forall j :: 0 <= j < r.value ==> !es[j].Reject?
    ensures r.None? ==> forall j :: 0 <= j < |es| ==> !es[j].Reject?
    decreases |es|
  {
    if es == [] then None
    else if es[0].Reject? then Some(0)
    else match FirstRejected(es[1..])
      case None => None
      case Some(i) => Some(i + 1)
  }

  /** `a` if it holds a value, else `b`. */
  function Or<T>(a: Option<T>, b: Option<T>): Option<T>
  {
    if a.Some? then a else b
  }

  /** The name set by the last FILE line that sets one. */
  function LastFile(es: seq<Effect>): Option<string>
    decreases |es|
  {
    if es == [] then None
    else Or(LastFile(es[1..]), if es[0].SetFile? then Some(es[0].name) else None)
  }

  /** The mode set by the last TRACK line that sets one. */
  function LastMode(es: seq<Effect>): Option<SectorMode>
    decreases |es|
  {
    if es == [] then None
    else Or(LastMode(es[1..]), if es[0].SetMode? then Some(es[0].mode) else None)
  }

  /** The pass stops with the reason of the first refusal. */
  lemma {:induction false} ScanStopsAt(es: seq<Effect>, s: Slots)
    requires FirstRejected(es).Some?
    ensures Scan(es, s) == Err(es[FirstRejected(es).value].why)
    decreases |es|
  {
    if !es[0].Reject? {
      assert FirstRejected(es[1..]).Some?;
      ScanStopsAt(es[1..], Apply(s, es[0]));
    }
  }

  /** Without a refusal the pass ends with the last name and the last mode set. */
  lemma {:induction false} ScanKeepsLast(es: seq<Effect>, s: Slots)
    requires FirstRejected(es).None?
    ensures Scan(es, s) == Ok(Slots(Or(LastFile(es), s.binFile), Or(LastMode(es), s.mode)))
    decreases |es|
  {
    if es != [] {
      assert FirstRejected(es[1..]).None?;
      ScanKeepsLast(es[1..], Apply(s, es[0]));
    }
  }

  /**
   * What `parse_cue` decides: the reason of the first refused line; else
   * success exactly when some FILE line gave a non-empty name and some
   * TRACK line set a mode, with the last such name and the last such mode.
   */
  lemma ParseDecidedBy(lines: seq<string>)
    ensures var es := Effects(lines);
      FirstRejected(es).Some? ==> Parse(lines) == Err(es[FirstRejected(es).value].why)
    ensures var es := Effects(lines);
      FirstRejected(es).None? ==>
        (Parse(lines).Ok? <==> LastFile(es).Some? && LastFile(es).value != [] && LastMode(es).Some?)
    ensures var es := Effects(lines);
      FirstRejected(es).None? && Parse(lines).Ok? ==>
        Parse(lines).value == Cue(LastFile(es).value, LastMode(es).value)
    ensures var es := Effects(lines);
      FirstRejected(es).None? && Parse(lines).Err? ==> Parse(lines).error == InvalidCue
  {
    var es := Effects(lines);
    if FirstRejected(es).Some? {
      ScanStopsAt(es, Slots(None, None));
    } else {
      ScanKeepsLast(es, Slots(None, None));
    }
  }

  /** Every name the reader returns is upper-case: the line was upper-cased before the split. */
  lemma ParsedNameUpper(lines: seq<string>)
    requires Parse(lines).Ok?
    ensures NoLower(Parse(lines).value.binFile) && '"' !in Parse(lines).value.binFile
  {
    var es := Effects(lines);
    ParseDecidedBy(lines);
    if FirstRejected(es).Some? {
      assert false;
    }
    LastFileIsSet(es);
  }

  lemma {:induction false} LastFileIsSet(es: seq<Effect>)
    requires forall i :: 0 <= i < |es| && es[i].SetFile? ==> NoLower(es[i].name) && '"' !in es[i].name
    requires LastFile(es).Some?
    ensures NoLower(LastFile(es).value) && '"' !in LastFile(es).value
    decreases |es|
  {
    if LastFile(es[1..]).Some? {
      LastFileIsSet(es[1..]);
    }
  }

  /** The first line of the sheet `iso_to_bin` writes, before its terminator. */
  function FileLine(binName: string): string
  {
    "FILE \"" + binName + "\" BINARY"
  }

  const TRACK_LINE := "TRACK 01 MODE1/2352"
  const INDEX_LINE := "INDEX 01 00:00:00"

  /** The sheet `iso_to_bin` writes for a BIN image named `binName`. */
  function SheetText(binName: string): string
  {
    FileLine(binName) + "\n" + "  " + TRACK_LINE + "\n" + "    " + INDEX_LINE + "\n"
  }

  /** The sheet is plain ASCII when the BIN name is. */
  lemma SheetAscii(binName: string)
    requires IsAscii(binName)
    ensures IsAscii(SheetText(binName))
  {
    var t := FileLine(binName);
    AsciiAppend("FILE \"", binName);
    AsciiAppend("FILE \"" + binName, "\" BINARY");
    AsciiAppend(t, "\n");
    AsciiAppend(t + "\n", "  ");
    AsciiAppend(t + "\n" + "  ", TRACK_LINE);
    AsciiAppend(t + "\n" + "  " + TRACK_LINE, "\n");
    AsciiAppend(t + "\n" + "  " + TRACK_LINE + "\n", "    ");
    AsciiAppend(t + "\n" + "  " + TRACK_LINE + "\n" + "    ", INDEX_LINE);
    AsciiAppend(t + "\n" + "  " + TRACK_LINE + "\n" + "    " + INDEX_LINE, "\n");
  }

  /** A name that fits between the quotes of a FILE line and on one line. */
  predicate SheetSafe(name: string)
  {
    name != [] && '"' !in name && '\n' !in name && '\r' !in name
  }

  lemma FileLineStrip(name: string)
    ensures Strip(FileLine(name) + "\n") == FileLine(name)
  {
    var t := FileLine(name);
    assert t[0] == 'F' && t[|t| - 1] == 'Y';
    assert [] + t + "\n" == t + "\n";
    StripAround([], t, "\n");
  }

  lemma FileLineUpper(name: string)
    ensures Upper(FileLine(name)) == "FILE " + ['"'] + Upper(name) + ['"'] + " BINARY"
  {
    UpperAppend("FILE \"" + name, "\" BINARY");
    UpperAppend("FILE \"", name);
    UpperFixed("FILE \"");
    UpperFixed("\" BINARY");
  }

  /** Upper-casing brings in no '"'. */
  lemma UpperQuoteFree(name: string)
    requires '"' !in name
    ensures '"' !in Upper(name)
  {
  }

  lemma FileLineKey(u: string)
    ensures StartsWith("FILE " + ['"'] + u + ['"'] + " BINARY", FILE_KEY)
  {
    var l := "FILE " + ['"'] + u + ['"'] + " BINARY";
    assert l[..4] == FILE_KEY;
  }

  /** The first line of the sheet names the upper-cased BIN image. */
  lemma FileLineEffect(name: string)
    requires SheetSafe(name)
    ensures Classify(FileLine(name) + "\n") == SetFile(Upper(name))
  {
    var u := Upper(name);
    FileLineStrip(name);
    FileLineUpper(name);
    FileLineKey(u);
    UpperQuoteFree(name);
    QuotedBetween("FILE ", u, " BINARY");
  }

  /** A padded line without lower-case letters is looked at as the bare line. */
  lemma NormalizePadded(a: string, l: string, b: string)
    requires AllSpace(a) && AllSpace(b) && NoLower(l)
    requires l != [] && !IsSpace(l[0]) && !IsSpace(l[|l| - 1])
    ensures Normalize(a + l + b) == l
  {
    StripAround(a, l, b);
    UpperFixed(l);
  }

  lemma TrackLineShape(l: string)
    requires l == TRACK_LINE
    ensures NoLower(l) && l != [] && !IsSpace(l[0]) && !IsSpace(l[|l| - 1])
  {
  }

  lemma TrackLineKeys(l: string)
    requires l == TRACK_LINE
    ensures !StartsWith(l, FILE_KEY) && StartsWith(l, TRACK_KEY)
  {
    NotStartsWith(l, FILE_KEY, 0);
    assert l[..5] == TRACK_KEY;
  }

  lemma TrackLineNotAudio(l: string)
    requires l == TRACK_LINE
    ensures !Contains(l, AUDIO_KEY)
  {
    assert 'U' in AUDIO_KEY;
    NotContainedFor(l, AUDIO_KEY, 'U');
  }

  lemma TrackLineMode(l: string)
    requires l == TRACK_LINE
    ensures Contains(l, MODE_2352_KEY)
  {
    assert l[9..19] == MODE_2352_KEY;
    ContainedAt(l, MODE_2352_KEY, 9);
  }

  /** The second line of the sheet sets 2352 mode. */
  lemma TrackLineEffect(l: string)
    requires l == TRACK_LINE
    ensures Classify("  " + l + "\n") == SetMode(Raw2352)
  {
    TrackLineShape(l);
    NormalizePadded("  ", l, "\n");
    TrackLineKeys(l);
    TrackLineNotAudio(l);
    TrackLineMode(l);
  }

  lemma IndexLineShape(l: string)
    requires l == INDEX_LINE
    ensures NoLower(l) && l != [] && !IsSpace(l[0]) && !IsSpace(l[|l| - 1])
    ensures !StartsWith(l, FILE_KEY) && !StartsWith(l, TRACK_KEY)
  {
    NotStartsWith(l, FILE_KEY, 0);
    NotStartsWith(l, TRACK_KEY, 0);
  }

  /** The third line of the sheet changes nothing. */
  lemma IndexLineEffect(l: string)
    requires l == INDEX_LINE
    ensures Classify("    " + l + "\n") == NoEffect
  {
    IndexLineShape(l);
    NormalizePadded("    ", l, "\n");
  }

  lemma FileLineNoBreak(name: string)
    requires SheetSafe(name)
    ensures var l1 := FileLine(name) + "\n";
      l1[|l1| - 1] == '\n' && forall m :: 0 <= m < |l1| - 1 ==> !IsLineBreak(l1[m])
  {
    var l1 := FileLine(name) + "\n";
    forall m | 0 <= m < |l1| - 1
      ensures !IsLineBreak(l1[m])
    {
      if 6 <= m < 6 + |name| {
        assert l1[m] == name[m - 6];
      }
    }
  }

  lemma PaddedNoBreak(pad: string, l: string)
    requires l == TRACK_LINE || l == INDEX_LINE
    requires pad == "  " || pad == "    "
    ensures var t := pad + l + "\n";
      t[|t| - 1] == '\n' && forall m :: 0 <= m < |t| - 1 ==> !IsLineBreak(t[m])
  {
  }

  /** The written sheet is its three lines, each with its terminator. */
  lemma SheetTextSplit(name: string)
    ensures SheetText(name)
      == (FileLine(name) + "\n") + (("  " + TRACK_LINE + "\n") + (("    " + INDEX_LINE + "\n") + []))
  {
  }

  /** The written sheet splits into its three lines. */
  lemma SheetLines(name: string)
    requires SheetSafe(name)
    ensures Lines(SheetText(name))
      == [FileLine(name) + "\n", "  " + TRACK_LINE + "\n", "    " + INDEX_LINE + "\n"]
  {
    var l1 := FileLine(name) + "\n";
    var l2 := "  " + TRACK_LINE + "\n";
    var l3 := "    " + INDEX_LINE + "\n";
    SheetTextSplit(name);
    FileLineNoBreak(name);
    PaddedNoBreak("  ", TRACK_LINE);
    PaddedNoBreak("    ", INDEX_LINE);
    LinesCons(l1, l2 + (l3 + []));
    LinesCons(l2, l3 + []);
    LinesCons(l3, []);
  }

  /** What each line of the written sheet does. */
  lemma SheetEffects(name: string)
    requires SheetSafe(name)
    ensures var es := Effects(Lines(SheetText(name)));
      |es| == 3 && es[0] == SetFile(Upper(name)) && es[1] == SetMode(Raw2352) && es[2] == NoEffect
  {
    var lines := Lines(SheetText(name));
    var es := Effects(lines);
    assert lines == [FileLine(name) + "\n", "  " + TRACK_LINE + "\n", "    " + INDEX_LINE + "\n"] by {
      SheetLines(name);
    }
    assert es[0] == SetFile(Upper(name)) by {
      FileLineEffect(name);
    }
    assert es[1] == SetMode(Raw2352) by {
      TrackLineEffect(TRACK_LINE);
    }
    assert es[2] == NoEffect by {
      IndexLineEffect(INDEX_LINE);
    }
  }

  /**
   * The sheet `iso_to_bin` writes reads back as the upper-cased BIN name
   * in 2352 mode, when the name is non-empty, holds no '"' and no line
   * break, and is ASCII, where `Upper` agrees with Python's `str.upper`.
   */
  lemma WrittenSheetParses(name: string)
    requires SheetSafe(name) && IsAscii(name)
    ensures Parse(Lines(SheetText(name))) == Ok(Cue(Upper(name), Raw2352))
  {
    SheetEffects(name);
    ScanSheet(Effects(Lines(SheetText(name))), Upper(name));
  }

  /** The pass over the three effects of a written sheet. */
  lemma ScanSheet(es: seq<Effect>, u: string)
    requires |es| == 3 && es[0] == SetFile(u) && es[1] == SetMode(Raw2352) && es[2] == NoEffect
    requires u != []
    ensures Scan(es, Slots(None, None)) == Ok(Slots(Some(u), Some(Raw2352)))
  {
    var done := Slots(Some(u), Some(Raw2352));
    assert Scan(es[2..], done) == Ok(done) by {
      assert es[2..][0] == NoEffect;
      assert es[2..][1..] == [];
    }
    assert Scan(es[1..], Slots(Some(u), None)) == Ok(done) by {
      assert es[1..][0] == SetMode(Raw2352);
      assert es[1..][1..] == es[2..];
    }
  }

  /**
   * A line that starts with the byte-order mark U+FEFF is neither a FILE
   * nor a TRACK line: `strip` keeps the mark, so the key is not at the start.
   */
  lemma MarkedLineIgnored(line: string)
    ensures Classify(['\U{FEFF}'] + line) == NoEffect
  {
    var s := ['\U{FEFF}'] + line;
    TrimEndKeepsHead(s);
    var l := Normalize(s);
    assert l != [] && l[0] == '\U{FEFF}';
    NotStartsWith(l, FILE_KEY, 0);
    NotStartsWith(l, TRACK_KEY, 0);
  }

  lemma MarkedLineNoBreak(name: string)
    requires SheetSafe(name)
    ensures var m1 := ['\U{FEFF}'] + (FileLine(name) + "\n");
      m1[|m1| - 1] == '\n' && forall m :: 0 <= m < |m1| - 1 ==> !IsLineBreak(m1[m])
  {
    var l1 := FileLine(name) + "\n";
    var m1 := ['\U{FEFF}'] + l1;
    FileLineNoBreak(name);
    assert forall m :: 1 <= m < |m1| ==> m1[m] == l1[m - 1];
  }

  /** The marked sheet splits into the marked first line and the other two. */
  lemma MarkedSheetLines(name: string)
    requires SheetSafe(name)
    ensures Lines(['\U{FEFF}'] + SheetText(name))
      == [['\U{FEFF}'] + (FileLine(name) + "\n"), "  " + TRACK_LINE + "\n", "    " + INDEX_LINE + "\n"]
  {
    var l1 := FileLine(name) + "\n";
    var l2 := "  " + TRACK_LINE + "\n";
    var l3 := "    " + INDEX_LINE + "\n";
    var m1 := ['\U{FEFF}'] + l1;
    var rest := l2 + (l3 + []);
    assert ['\U{FEFF}'] + SheetText(name) == m1 + rest by {
      SheetTextSplit(name);
      assert ['\U{FEFF}'] + (l1 + rest) == m1 + rest;
    }
    assert Lines(m1 + rest) == [m1, l2, l3] by {
      MarkedLineNoBreak(name);
      SheetTailLines();
      LinesCons(m1, rest);
    }
  }

  /** The last two lines of the sheet split as two lines. */
  lemma SheetTailLines()
    ensures Lines(("  " + TRACK_LINE + "\n") + (("    " + INDEX_LINE + "\n") + []))
      == ["  " + TRACK_LINE + "\n", "    " + INDEX_LINE + "\n"]
  {
    var l2 := "  " + TRACK_LINE + "\n";
    var l3 := "    " + INDEX_LINE + "\n";
    PaddedNoBreak("  ", TRACK_LINE);
    PaddedNoBreak("    ", INDEX_LINE);
    LinesCons(l2, l3 + []);
    LinesCons(l3, []);
  }

  /** The pass over a sheet whose only effect is the mode. */
  lemma ScanModeOnly(es: seq<Effect>)
    requires |es| == 3 && es[0] == NoEffect && es[1] == SetMode(Raw2352) && es[2] == NoEffect
    ensures Scan(es, Slots(None, None)) == Ok(Slots(None, Some(Raw2352)))
  {
    var done := Slots(None, Some(Raw2352));
    assert Scan(es[2..], done) == Ok(done) by {
      assert es[2..][0] == NoEffect;
      assert es[2..][1..] == [];
    }
    assert Scan(es[1..], Slots(None, None)) == Ok(done) by {
      assert es[1..][0] == SetMode(Raw2352);
      assert es[1..][1..] == es[2..];
    }
  }

  /**
   * The written sheet saved with a byte-order mark in front is refused as
   * invalid: the file is read as "utf-8", not "utf-8-sig", so the mark
   * stays in front of the FILE line and hides it; only the mode is found.
   */
  lemma MarkedSheetRefused(name: string)
    requires SheetSafe(name)
    ensures Parse(Lines(Decode(BYTE_ORDER_MARK + Encode(SheetText(name))))) == Err(InvalidCue)
  {
    var l1 := FileLine(name) + "\n";
    DecodeMark(Encode(SheetText(name)));
    DecodeEncode(SheetText(name));
    MarkedSheetLines(name);
    var lines := Lines(['\U{FEFF}'] + SheetText(name));
    var es := Effects(lines);
    assert es[0] == NoEffect by {
      MarkedLineIgnored(l1);
    }
    assert es[1] == SetMode(Raw2352) by {
      TrackLineEffect(TRACK_LINE);
    }
    assert es[2] == NoEffect by {
      IndexLineEffect(INDEX_LINE);
    }
    ScanModeOnly(es);
  }
}
