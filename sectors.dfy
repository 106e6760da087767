/**
 * Sector transcoding between a BIN image and an ISO image.
 *
 * A raw MODE1 sector is 2352 bytes long; its 2048 bytes of user data start
 * at byte 16, after the 12-byte sync pattern and the 4-byte header, and are
 * followed by 288 bytes of error detection and correction (the sector layout
 * of a MODE1 sector in ECMA-130). An ISO image is the bare sequence of 2048-byte
 * user-data blocks. `bin_to_iso` keeps the user-data field of each chunk it
 * reads; `iso_to_bin` wraps each 2048-byte chunk in a zero-filled frame. The
 * converter never computes sync, header or error-correction bytes: it drops
 * them or leaves zeros.
 */
module Sectors {
  import opened Common

  const SECTOR_2352: nat := 2352
  const SECTOR_2048: nat := 2048
  /** Where the user data of a raw MODE1 sector starts. */
  const DATA_OFFSET_2352: nat := 16
  /** The bytes after the user data in a raw sector: 2352 - 16 - 2048. */
  const TAIL_2352: nat := 288

  /** The sector size a CUE sheet declares for its track. */
  datatype SectorMode = Raw2352 | User2048

  function SectorSize(mode: SectorMode): (n: nat)
    ensures n == SECTOR_2352 || n == SECTOR_2048
  {
    if mode == Raw2352 then SECTOR_2352 else SECTOR_2048
  }

  /** `n` zero bytes, as `bytearray(n)` holds them. */
  function Zeros(n: nat): (z: seq<Byte>)
    ensures |z| == n
    ensures forall i :: 0 <= i < n ==> z[i] == 0
  {
    seq(n, _ => 0)
  }

  /**
   * `f.read(n)` on a regular file whose position is `pos`: the next `n` bytes,
   * fewer only when the end of the file comes first.
   */
  function Read(file: seq<Byte>, pos: nat, n: nat): (chunk: seq<Byte>)
    requires pos <= |file|
    ensures |chunk| == Min(n, |file| - pos)
  {
    file[pos..Min(pos + n, |file|)]
  }

  /** Python's `s[lo:hi]` with `0 <= lo <= hi`: both bounds are clamped to `len(s)`. */
  function Slice(s: seq<Byte>, lo: nat, hi: nat): (r: seq<Byte>)
    requires lo <= hi
    ensures |r| == Min(hi, |s|) - Min(lo, |s|)
  {
    s[Min(lo, |s|)..Min(hi, |s|)]
  }

  /**
   * Python's `s[lo:hi] = d` on a `bytearray`: the slice is replaced by `d`
   * whatever the length of `d`, so the array shrinks or grows.
   */
  function SliceAssign(s: seq<Byte>, lo: nat, hi: nat, d: seq<Byte>): (r: seq<Byte>)
    requires lo <= hi <= |s|
    ensures |r| == |s| - (hi - lo) + |d|
  {
    s[..lo] + d + s[hi..]
  }

  /** What `bin_to_iso` writes for one chunk read in raw mode. */
  function UserData(sector: seq<Byte>): seq<Byte>
  {
    Slice(sector, DATA_OFFSET_2352, DATA_OFFSET_2352 + SECTOR_2048)
  }

  /** What `bin_to_iso` writes for one chunk read in `mode`. */
  function Payload(sector: seq<Byte>, mode: SectorMode): seq<Byte>
  {
    if mode == Raw2352 then UserData(sector) else sector
  }

  /** The frame `iso_to_bin` writes for one chunk of an ISO image. */
  function Frame(data: seq<Byte>): seq<Byte>
  {
    SliceAssign(Zeros(SECTOR_2352), DATA_OFFSET_2352, DATA_OFFSET_2352 + SECTOR_2048, data)
  }

  /**
   * The whole ISO image `bin_to_iso` writes for a BIN image read in
   * `mode`-sized chunks: the payload of every chunk, the last one possibly
   * short.
   */
  function RawToUser(bin: seq<Byte>, mode: SectorMode): seq<Byte>
    decreases |bin|
  {
    var n := SectorSize(mode);
    if |bin| <= n then Payload(bin, mode)
    else Payload(bin[..n], mode) + RawToUser(bin[n..], mode)
  }

  /**
   * The whole BIN image `iso_to_bin` writes for an ISO image: the frame of
   * every 2048-byte chunk, the last one possibly short.
   */
  function UserToRaw(iso: seq<Byte>): seq<Byte>
    decreases |iso|
  {
    if iso == [] then []
    else if |iso| <= SECTOR_2048 then Frame(iso)
    else Frame(iso[..SECTOR_2048]) + UserToRaw(iso[SECTOR_2048..])
  }

  /** Block `k` of an ISO image: bytes [k*2048, k*2048 + 2048). */
  function IsoBlock(iso: seq<Byte>, k: nat): seq<Byte>
    requires k * SECTOR_2048 + SECTOR_2048 <= |iso|
  {
    iso[k * SECTOR_2048..k * SECTOR_2048 + SECTOR_2048]
  }

  /** Sector `k` of a raw image: bytes [k*2352, k*2352 + 2352). */
  function RawSector(bin: seq<Byte>, k: nat): seq<Byte>
    requires k * SECTOR_2352 + SECTOR_2352 <= |bin|
  {
    bin[k * SECTOR_2352..k * SECTOR_2352 + SECTOR_2352]
  }

  /**
   * `bin_to_iso`'s copy loop: read `mode`-sized chunks until a read returns
   * nothing and write each chunk's payload.
   */
  method BinToIso(bin: seq<Byte>, mode: SectorMode) returns (iso: seq<Byte>)
    ensures iso == RawToUser(bin, mode)
  {
    iso := [];
    var pos: nat := 0;
    while true
      invariant pos <= |bin|
      invariant iso + RawToUser(bin[pos..], mode) == RawToUser(bin, mode)
      decreases |bin| - pos
    {
      var sector := Read(bin, pos, SectorSize(mode));
      if sector == [] {
        break;
      }
      ghost var done := iso;
      if mode == Raw2352 {
        iso := iso + Slice(sector, DATA_OFFSET_2352, DATA_OFFSET_2352 + SECTOR_2048);
      } else {
        iso := iso + sector;
      }
      BinToIsoStep(bin, pos, mode, done, iso, RawToUser(bin, mode));
      pos := pos + |sector|;
    }
    assert bin[pos..] == [];
  }

  /** The loop invariant of `BinToIso` survives writing one chunk's payload. */
  lemma BinToIsoStep(bin: seq<Byte>, pos: nat, mode: SectorMode, done: seq<Byte>, iso: seq<Byte>, whole: seq<Byte>)
    requires pos < |bin|
    requires done + RawToUser(bin[pos..], mode) == whole
    requires iso == done + Payload(Read(bin, pos, SectorSize(mode)), mode)
    ensures iso + RawToUser(bin[pos + |Read(bin, pos, SectorSize(mode))|..], mode) == whole
  {
    var sector := Read(bin, pos, SectorSize(mode));
    var p := Payload(sector, mode);
    var rest := RawToUser(bin[pos + |sector|..], mode);
    assert RawToUser(bin[pos..], mode) == p + rest by {
      RawToUserUnfold(bin, pos, mode);
    }
    assert (done + p) + rest == done + (p + rest);
  }

  /** One step of `RawToUser` on the part of `bin` that starts at `pos`. */
  lemma RawToUserUnfold(bin: seq<Byte>, pos: nat, mode: SectorMode)
    requires pos < |bin|
    ensures var sector := Read(bin, pos, SectorSize(mode));
      RawToUser(bin[pos..], mode) == Payload(sector, mode) + RawToUser(bin[pos + |sector|..], mode)
  {
    var n := SectorSize(mode);
    var rest := bin[pos..];
    var sector := Read(bin, pos, n);
    if |rest| <= n {
      assert sector == rest;
      assert bin[pos + |sector|..] == [];
      assert RawToUser([], mode) == [];
      assert Payload(sector, mode) + [] == Payload(sector, mode);
    } else {
      assert sector == rest[..n];
      assert bin[pos + n..] == rest[n..];
    }
  }

  /** One step of `UserToRaw` on the part of `iso` that starts at `pos`. */
  lemma UserToRawUnfold(iso: seq<Byte>, pos: nat)
    requires pos < |iso|
    ensures var data := Read(iso, pos, SECTOR_2048);
      UserToRaw(iso[pos..]) == Frame(data) + UserToRaw(iso[pos + |data|..])
  {
    var rest := iso[pos..];
    var data := Read(iso, pos, SECTOR_2048);
    if |rest| <= SECTOR_2048 {
      assert data == rest;
      assert iso[pos + |data|..] == [];
      assert Frame(data) + [] == Frame(data);
    } else {
      assert data == rest[..SECTOR_2048];
      assert iso[pos + SECTOR_2048..] == rest[SECTOR_2048..];
    }
  }

  /** The loop invariant of `IsoToBin` survives writing one frame. */
  lemma IsoToBinStep(iso: seq<Byte>, pos: nat, done: seq<Byte>, bin: seq<Byte>, whole: seq<Byte>)
    requires pos < |iso|
    requires done + UserToRaw(iso[pos..]) == whole
    requires bin == done + Frame(Read(iso, pos, SECTOR_2048))
    ensures bin + UserToRaw(iso[pos + |Read(iso, pos, SECTOR_2048)|..]) == whole
  {
    var data := Read(iso, pos, SECTOR_2048);
    var f := Frame(data);
    var rest := UserToRaw(iso[pos + |data|..]);
    assert UserToRaw(iso[pos..]) == f + rest by {
      UserToRawUnfold(iso, pos);
    }
    assert (done + f) + rest == done + (f + rest);
  }

  /**
   * `iso_to_bin`'s copy loop: read 2048-byte chunks until a read returns
   * nothing; put each into a zero-filled 2352-byte `bytearray` by slice
   * assignment at [16, 2064) and write it.
   */
  method IsoToBin(iso: seq<Byte>) returns (bin: seq<Byte>)
    ensures bin == UserToRaw(iso)
  {
    bin := [];
    var pos: nat := 0;
    while true
      invariant pos <= |iso|
      invariant bin + UserToRaw(iso[pos..]) == UserToRaw(iso)
      decreases |iso| - pos
    {
      var data := Read(iso, pos, SECTOR_2048);
      if data == [] {
        break;
      }
      ghost var done := bin;
      var sector := Zeros(SECTOR_2352);
      sector := SliceAssign(sector, DATA_OFFSET_2352, DATA_OFFSET_2352 + SECTOR_2048, data);
      bin := bin + sector;
      IsoToBinStep(iso, pos, done, bin, UserToRaw(iso));
      pos := pos + |data|;
    }
    assert iso[pos..] == [];
  }
}
