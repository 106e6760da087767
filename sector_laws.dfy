/**
 * What the two copy loops of the converter produce, stated sector by sector:
 * output lengths, where each byte comes from, what happens to a short final
 * chunk, and the round trip ISO -> BIN -> ISO.
 */
module SectorLaws {
  import opened Common
  import opened Sectors

  /** Nothing in, nothing out. */
  lemma RawToUserEmpty(mode: SectorMode)
    ensures RawToUser([], mode) == []
  {
    assert Payload([], mode) == [];
  }

  /** A chunk of at least one whole sector: its first sector, then the rest. */
  lemma RawToUserFirst(s: seq<Byte>, mode: SectorMode)
    requires SectorSize(mode) <= |s|
    ensures RawToUser(s, mode) == Payload(s[..SectorSize(mode)], mode) + RawToUser(s[SectorSize(mode)..], mode)
  {
    var n := SectorSize(mode);
    if |s| == n {
      assert s[..n] == s;
      assert s[n..] == [];
      RawToUserEmpty(mode);
      assert Payload(s, mode) + [] == Payload(s, mode);
    }
  }

  /** In 2048 mode `bin_to_iso` copies every chunk verbatim: the ISO is the BIN. */
  lemma {:induction false} UserModeCopies(bin: seq<Byte>)
    ensures RawToUser(bin, User2048) == bin
    decreases |bin|
  {
    if |bin| > SECTOR_2048 {
      UserModeCopies(bin[SECTOR_2048..]);
      assert bin == bin[..SECTOR_2048] + bin[SECTOR_2048..];
    }
  }

  /** Chunking restarts at every whole-sector boundary, so the conversion distributes over it. */
  lemma {:induction false} RawToUserAppend(a: seq<Byte>, b: seq<Byte>, mode: SectorMode)
    requires |a| % SectorSize(mode) == 0
    ensures RawToUser(a + b, mode) == RawToUser(a, mode) + RawToUser(b, mode)
    decreases |a|
  {
    var n := SectorSize(mode);
    if a == [] {
      assert a + b == b;
      RawToUserEmpty(mode);
    } else {
      MultipleStep(|a|, mode);
      RawToUserAppend(a[n..], b, mode);
      RawToUserAppendStep(a, b, mode);
    }
  }

  /** A non-zero multiple of the sector size is at least one sector, and one sector less is still a multiple. */
  lemma MultipleStep(len: nat, mode: SectorMode)
    requires 0 < len && len % SectorSize(mode) == 0
    ensures SectorSize(mode) <= len && (len - SectorSize(mode)) % SectorSize(mode) == 0
  {
    if mode == Raw2352 {
      assert len % 2352 == 0;
    } else {
      assert len % 2048 == 0;
    }
  }

  lemma Regroup<T>(p: seq<T>, x: seq<T>, y: seq<T>, lhs: seq<T>, rhs: seq<T>)
    requires lhs == p + (x + y) && rhs == p + x
    ensures lhs == rhs + y
  {
  }

  /** The first sector of `a + b` is the first sector of `a`. */
  lemma RawToUserFirstOfAppend(a: seq<Byte>, b: seq<Byte>, mode: SectorMode)
    requires SectorSize(mode) <= |a|
    ensures var n := SectorSize(mode);
      RawToUser(a + b, mode) == Payload(a[..n], mode) + RawToUser(a[n..] + b, mode)
  {
    var n := SectorSize(mode);
    RawToUserFirst(a + b, mode);
    assert (a + b)[..n] == a[..n];
    assert (a + b)[n..] == a[n..] + b;
  }

  /** One sector of `RawToUserAppend`'s induction. */
  lemma RawToUserAppendStep(a: seq<Byte>, b: seq<Byte>, mode: SectorMode)
    requires SectorSize(mode) <= |a|
    requires var n := SectorSize(mode);
      RawToUser(a[n..] + b, mode) == RawToUser(a[n..], mode) + RawToUser(b, mode)
    ensures RawToUser(a + b, mode) == RawToUser(a, mode) + RawToUser(b, mode)
  {
    var n := SectorSize(mode);
    RawToUserFirstOfAppend(a, b, mode);
    RawToUserFirst(a, mode);
    Regroup(Payload(a[..n], mode), RawToUser(a[n..], mode), RawToUser(b, mode), RawToUser(a + b, mode), RawToUser(a, mode));
  }

  lemma {:induction false} WholeSectors(q: nat)
    ensures (q * SECTOR_2352) % SECTOR_2352 == 0
  {
    if q > 0 {
      WholeSectors(q - 1);
      assert q * SECTOR_2352 == (q - 1) * SECTOR_2352 + SECTOR_2352;
    }
  }

  /**
   * For N whole raw sectors `bin_to_iso` writes exactly N * 2048 bytes, and
   * block k of the ISO is bytes [16, 2064) of sector k, in sector order.
   */
  lemma {:induction false} RawSectorsToUser(bin: seq<Byte>, n: nat)
    requires |bin| == n * SECTOR_2352
    ensures |RawToUser(bin, Raw2352)| == n * SECTOR_2048
    ensures forall k :: 0 <= k < n ==>
      IsoBlock(RawToUser(bin, Raw2352), k) == RawSector(bin, k)[DATA_OFFSET_2352..DATA_OFFSET_2352 + SECTOR_2048]
  {
    if n == 0 {
      assert bin == [];
      RawToUserEmpty(Raw2352);
    } else {
      var out := RawToUser(bin, Raw2352);
      var first := bin[..SECTOR_2352];
      var rest := bin[SECTOR_2352..];
      var tail := RawToUser(rest, Raw2352);
      RawSectorsToUser(rest, n - 1);
      RawToUserFirst(bin, Raw2352);
      assert UserData(first) == first[16..2064];
      assert out == first[16..2064] + tail;
      forall k | 0 <= k < n
        ensures IsoBlock(out, k) == RawSector(bin, k)[16..2064]
      {
        if k == 0 {
          assert IsoBlock(out, 0) == first[16..2064];
          assert RawSector(bin, 0) == first;
        } else {
          assert IsoBlock(out, k) == IsoBlock(tail, k - 1);
          assert RawSector(bin, k) == RawSector(rest, k - 1);
        }
      }
    }
  }

  /** What a short final chunk of r raw bytes yields: its bytes [16, min(r, 2064)). */
  lemma ShortChunk(t: seq<Byte>)
    requires 0 < |t| < SECTOR_2352
    ensures RawToUser(t, Raw2352) == t[Min(DATA_OFFSET_2352, |t|)..Min(|t|, DATA_OFFSET_2352 + SECTOR_2048)]
  {
  }

  /**
   * A raw image of q whole sectors and an r-byte remainder: the remainder is
   * not dropped; its bytes [16, min(r, 2064)) follow the q * 2048 bytes of
   * the whole sectors, which is nothing when r <= 16.
   */
  lemma RawTail(bin: seq<Byte>, q: nat, r: nat)
    requires |bin| == q * SECTOR_2352 + r && 0 < r < SECTOR_2352
    ensures RawToUser(bin, Raw2352)
      == RawToUser(bin[..q * SECTOR_2352], Raw2352)
         + bin[q * SECTOR_2352..][Min(DATA_OFFSET_2352, r)..Min(r, DATA_OFFSET_2352 + SECTOR_2048)]
  {
    var cut := q * SECTOR_2352;
    var whole := bin[..cut];
    var rest := bin[cut..];
    assert RawToUser(bin, Raw2352) == RawToUser(whole, Raw2352) + RawToUser(rest, Raw2352) by {
      WholeSectors(q);
      assert bin == whole + rest;
      RawToUserAppend(whole, rest, Raw2352);
    }
    ShortChunk(rest);
  }

  /** A single chunk of at most 2048 bytes becomes a single frame. */
  lemma LoneBlock(data: seq<Byte>)
    requires 0 < |data| <= SECTOR_2048
    ensures UserToRaw(data) == Frame(data)
  {
  }

  /** A run of zeros cut short is a shorter run of zeros. */
  lemma ZerosPrefix(n: nat, m: nat)
    requires m <= n
    ensures Zeros(n)[..m] == Zeros(m)
  {
  }

  /** The frame around a chunk of at most 2048 bytes: 16 zeros, the chunk, 288 zeros. */
  lemma FrameLayout(data: seq<Byte>)
    requires |data| <= SECTOR_2048
    ensures Frame(data) == Zeros(DATA_OFFSET_2352) + data + Zeros(TAIL_2352)
    ensures |Frame(data)| == 304 + |data|
  {
    assert Zeros(SECTOR_2352)[..16] == Zeros(16);
    assert Zeros(SECTOR_2352)[2064..] == Zeros(288);
  }

  /** A block of at least one whole block: its first frame, then the rest. */
  lemma UserToRawFirst(s: seq<Byte>)
    requires SECTOR_2048 <= |s|
    ensures UserToRaw(s) == Frame(s[..SECTOR_2048]) + UserToRaw(s[SECTOR_2048..])
  {
    if |s| == SECTOR_2048 {
      assert s[..SECTOR_2048] == s;
      assert s[SECTOR_2048..] == [];
      assert Frame(s) + [] == Frame(s);
    }
  }

  /** `iso_to_bin` also restarts at every whole-block boundary. */
  lemma {:induction false} UserToRawAppend(a: seq<Byte>, b: seq<Byte>)
    requires |a| % SECTOR_2048 == 0
    ensures UserToRaw(a + b) == UserToRaw(a) + UserToRaw(b)
    decreases |a|
  {
    if a == [] {
      assert a + b == b;
    } else {
      var n := SECTOR_2048;
      var f := Frame(a[..n]);
      UserToRawFirst(a);
      UserToRawFirst(a + b);
      assert (a + b)[..n] == a[..n];
      assert (a + b)[n..] == a[n..] + b;
      UserToRawAppend(a[n..], b);
      assert (f + UserToRaw(a[n..])) + UserToRaw(b) == f + (UserToRaw(a[n..]) + UserToRaw(b));
    }
  }

  /** Sector k of the BIN `iso_to_bin` writes is 16 zeros, block k of the ISO and 288 zeros. */
  lemma {:induction false} UserToRawSector(iso: seq<Byte>, k: nat)
    requires k * SECTOR_2048 + SECTOR_2048 <= |iso|
    ensures k * SECTOR_2352 + SECTOR_2352 <= |UserToRaw(iso)|
    ensures RawSector(UserToRaw(iso), k) == Zeros(DATA_OFFSET_2352) + IsoBlock(iso, k) + Zeros(TAIL_2352)
  {
    var first := iso[..SECTOR_2048];
    var rest := iso[SECTOR_2048..];
    var f := Frame(first);
    var tail := UserToRaw(rest);
    UserToRawFirst(iso);
    FrameLayout(first);
    if k == 0 {
      assert RawSector(f + tail, 0) == f;
      assert IsoBlock(iso, 0) == first;
    } else {
      UserToRawSector(rest, k - 1);
      assert RawSector(f + tail, k) == RawSector(tail, k - 1);
      assert IsoBlock(iso, k) == IsoBlock(rest, k - 1);
    }
  }

  /**
   * The length of the BIN `iso_to_bin` writes for an ISO of q whole blocks
   * and an r-byte remainder, and its short final frame.
   */
  lemma {:induction false} UserToRawShape(iso: seq<Byte>, q: nat, r: nat)
    requires |iso| == q * SECTOR_2048 + r && r < SECTOR_2048
    ensures |UserToRaw(iso)| == q * SECTOR_2352 + (if r > 0 then 304 + r else 0)
    ensures r > 0 ==>
      UserToRaw(iso)[q * SECTOR_2352..] == Zeros(DATA_OFFSET_2352) + iso[q * SECTOR_2048..] + Zeros(TAIL_2352)
  {
    if q == 0 {
      if r > 0 {
        LoneBlock(iso);
        FrameLayout(iso);
      } else {
        assert iso == [];
      }
    } else {
      var first := iso[..SECTOR_2048];
      var rest := iso[SECTOR_2048..];
      var f := Frame(first);
      var tail := UserToRaw(rest);
      UserToRawFirst(iso);
      FrameLayout(first);
      UserToRawShape(rest, q - 1, r);
      if r > 0 {
        assert (f + tail)[q * SECTOR_2352..] == tail[(q - 1) * SECTOR_2352..];
        assert iso[q * SECTOR_2048..] == rest[(q - 1) * SECTOR_2048..];
      }
    }
  }

  /**
   * The BIN `iso_to_bin` writes for an ISO of q whole blocks and an r-byte
   * remainder: q * 2352 bytes plus, when r > 0, a frame of 304 + r bytes
   * (the slice assignment shrinks the short frame). Sector k is 16 zeros,
   * block k and 288 zeros; the short frame is 16 zeros, the remainder and
   * 288 zeros.
   */
  lemma UserToRawBlocks(iso: seq<Byte>, q: nat, r: nat)
    requires |iso| == q * SECTOR_2048 + r && r < SECTOR_2048
    ensures |UserToRaw(iso)| == q * SECTOR_2352 + (if r > 0 then 304 + r else 0)
    ensures forall k :: 0 <= k < q ==>
      RawSector(UserToRaw(iso), k) == Zeros(DATA_OFFSET_2352) + IsoBlock(iso, k) + Zeros(TAIL_2352)
    ensures r > 0 ==>
      UserToRaw(iso)[q * SECTOR_2352..] == Zeros(DATA_OFFSET_2352) + iso[q * SECTOR_2048..] + Zeros(TAIL_2352)
  {
    UserToRawShape(iso, q, r);
    forall k | 0 <= k < q
      ensures RawSector(UserToRaw(iso), k) == Zeros(DATA_OFFSET_2352) + IsoBlock(iso, k) + Zeros(TAIL_2352)
    {
      UserToRawSector(iso, k);
    }
  }

  /** The middle of a three-part sequence, followed by a prefix of the last part. */
  lemma MiddleThrough(a: seq<Byte>, b: seq<Byte>, c: seq<Byte>, m: nat)
    requires m <= |c|
    ensures (a + b + c)[|a|..|a| + |b| + m] == b + c[..m]
  {
  }

  /** A remainder shorter than one block comes back followed by min(288, 2048 - r) zeros. */
  lemma ShortRoundTrip(iso: seq<Byte>)
    requires 0 < |iso| < SECTOR_2048
    ensures RawToUser(UserToRaw(iso), Raw2352) == iso + Zeros(Min(TAIL_2352, SECTOR_2048 - |iso|))
  {
    var r := |iso|;
    var m := Min(288, 2048 - r);
    var f := Frame(iso);
    assert UserToRaw(iso) == f;
    assert f == Zeros(16) + iso + Zeros(288) && |f| == 304 + r by {
      FrameLayout(iso);
    }
    assert RawToUser(f, Raw2352) == f[16..16 + r + m] by {
      ShortChunk(f);
    }
    assert f[16..16 + r + m] == iso + Zeros(288)[..m] by {
      MiddleThrough(Zeros(16), iso, Zeros(288), m);
    }
    ZerosPrefix(288, m);
  }

  /** The user data of a whole block's frame is that block. */
  lemma WholeFrameData(first: seq<Byte>)
    requires |first| == SECTOR_2048
    ensures |Frame(first)| == SECTOR_2352
    ensures UserData(Frame(first)) == first
  {
    var f := Frame(first);
    assert f == Zeros(16) + first + Zeros(288) && |f| == SECTOR_2352 by {
      FrameLayout(first);
    }
    assert UserData(f) == f[16..2064];
    MiddleThrough(Zeros(16), first, Zeros(288), 0);
  }

  /** Reading raw sectors back from a whole block's frame followed by more frames. */
  lemma FrameThenRest(first: seq<Byte>, more: seq<Byte>)
    requires |first| == SECTOR_2048
    ensures RawToUser(Frame(first) + more, Raw2352) == first + RawToUser(more, Raw2352)
  {
    var f := Frame(first);
    WholeFrameData(first);
    RawToUserFirstOfAppend(f, more, Raw2352);
    assert f[..SECTOR_2352] == f;
    assert f[SECTOR_2352..] + more == more;
  }

  /** A whole first block comes back unchanged, ahead of whatever the rest gives. */
  lemma FirstBlockRoundTrip(iso: seq<Byte>)
    requires SECTOR_2048 <= |iso|
    ensures RawToUser(UserToRaw(iso), Raw2352)
      == iso[..SECTOR_2048] + RawToUser(UserToRaw(iso[SECTOR_2048..]), Raw2352)
  {
    UserToRawFirst(iso);
    FrameThenRest(iso[..SECTOR_2048], UserToRaw(iso[SECTOR_2048..]));
  }

  /**
   * The zero bytes the round trip appends to an ISO image of `len` bytes:
   * none when the image is whole blocks, else min(288, 2048 - r) for an
   * r-byte remainder.
   */
  function Padding(len: nat): nat
  {
    if len % SECTOR_2048 == 0 then 0 else Min(TAIL_2352, SECTOR_2048 - len % SECTOR_2048)
  }

  /** Dropping one whole block does not change the padding. */
  lemma PaddingStep(len: nat)
    requires SECTOR_2048 <= len
    ensures Padding(len - SECTOR_2048) == Padding(len)
  {
    assert (len - 2048) % 2048 == len % 2048;
  }

  /**
   * ISO -> BIN -> ISO: a whole number of blocks comes back unchanged; an
   * r-byte remainder comes back followed by min(288, 2048 - r) zero bytes,
   * the part of the shortened frame's zero tail that falls inside [16, 2064).
   */
  lemma {:induction false} RoundTrip(iso: seq<Byte>)
    ensures RawToUser(UserToRaw(iso), Raw2352) == iso + Zeros(Padding(|iso|))
    decreases |iso|
  {
    if iso == [] {
      RawToUserEmpty(Raw2352);
      assert iso + Zeros(0) == iso;
    } else if |iso| < SECTOR_2048 {
      ShortRoundTrip(iso);
      assert |iso| % SECTOR_2048 == |iso|;
    } else {
      var first := iso[..SECTOR_2048];
      var rest := iso[SECTOR_2048..];
      FirstBlockRoundTrip(iso);
      RoundTrip(rest);
      PaddingStep(|iso|);
      assert iso == first + rest;
      Regroup(first, rest, Zeros(Padding(|iso|)), RawToUser(UserToRaw(iso), Raw2352), iso);
    }
  }

  /** The aligned case of the round trip. */
  lemma AlignedRoundTrip(iso: seq<Byte>)
    requires |iso| % SECTOR_2048 == 0
    ensures RawToUser(UserToRaw(iso), Raw2352) == iso
  {
    RoundTrip(iso);
    assert iso + Zeros(0) == iso;
  }
}
