/** Writer-ref files on remotes without hard links: frames, reservations and their reader (src/remote.rs). */
module RefFrame {
  import opened Wrappers
  import opened Bytes

  /** The SHA-256 digest of a byte string. */
  type Sha = seq<Byte> -> seq<Byte>

  ghost predicate Digests(sha: Sha) {
    forall b :: |sha(b)| == 32
  }

  /** 0x00 and "TRANSFS-REF-1\n". */
  const REF_PREFIX: seq<Byte> := [0, 84, 82, 65, 78, 83, 70, 83, 45, 82, 69, 70, 45, 49, 10]

  /** 0x00 and "TRANSFS-PENDING-1\n". */
  const PENDING_PREFIX: seq<Byte> := [0, 84, 82, 65, 78, 83, 70, 83, 45, 80, 69, 78, 68, 73, 78, 71, 45, 49, 10]

  const HEADER: nat := 23

  datatype FrameError = TooLarge | InvalidFrame | LengthOverflow | Mismatch

  function EncodeReservation(sha: Sha, bytes: seq<Byte>): seq<Byte> {
    PENDING_PREFIX + HexText(sha(bytes))
  }

  function Frame(sha: Sha, bytes: seq<Byte>): seq<Byte> {
    REF_PREFIX + Le64(|bytes|) + bytes + sha(bytes)
  }

  function EncodeRef(sha: Sha, bytes: seq<Byte>): Result<seq<Byte>, FrameError> {
    if |bytes| >= U64 then Failure(TooLarge) else Success(Frame(sha, bytes))
  }

  /** `decode_ref`: `None` for a file still being written. */
  function DecodeRef(sha: Sha, bytes: seq<Byte>): Result<Option<seq<Byte>>, FrameError> {
    if || bytes == []
       || (|bytes| < |REF_PREFIX| && bytes <= REF_PREFIX)
       || (|bytes| < |PENDING_PREFIX| && bytes <= PENDING_PREFIX)
       || PENDING_PREFIX <= bytes
    then Success(None)
    else if !(REF_PREFIX <= bytes) then
      if bytes[0] == 0 then Failure(InvalidFrame) else Success(Some(bytes))
    else if |bytes| < HEADER then Success(None)
    else
      var length := FromLittleEndian(bytes[|REF_PREFIX|..HEADER]);
      var end := HEADER + length + 32;
      if end >= U64 then Failure(LengthOverflow)
      else if |bytes| < end then Success(None)
      else if |bytes| != end || sha(bytes[HEADER..HEADER + length]) != bytes[HEADER + length..] then Failure(Mismatch)
      else Success(Some(bytes[HEADER..HEADER + length]))
  }

  /** What a reader sees of a ref file: a value, or nothing yet. */
  function Decoded(sha: Sha, bytes: seq<Byte>): Option<seq<Byte>> {
    match DecodeRef(sha, bytes)
    case Success(value) => value
    case Failure(_) => None
  }

  lemma FrameParts(sha: Sha, bytes: seq<Byte>)
    requires Digests(sha) && |bytes| < U64
    ensures var f := Frame(sha, bytes);
            && |f| == HEADER + |bytes| + 32
            && REF_PREFIX <= f && !(PENDING_PREFIX <= f)
            && FromLittleEndian(f[|REF_PREFIX|..HEADER]) == |bytes|
            && f[HEADER..HEADER + |bytes|] == bytes
            && f[HEADER + |bytes|..] == sha(bytes)
  {
    var f := Frame(sha, bytes);
    assert f[9] == REF_PREFIX[9] != PENDING_PREFIX[9];
    assert f[|REF_PREFIX|..HEADER] == Le64(|bytes|);
    Le64RoundTrip(|bytes|);
  }

  /** A frame decodes to its bytes exactly when its whole length fits the platform's 64-bit size. */
  lemma FrameRoundTrip(sha: Sha, bytes: seq<Byte>)
    requires Digests(sha)
    ensures (exists f :: EncodeRef(sha, bytes) == Success(f) && DecodeRef(sha, f) == Success(Some(bytes)))
            <==> HEADER + |bytes| + 32 < U64
    ensures EncodeRef(sha, bytes).Failure? <==> |bytes| >= 0x1_0000_0000_0000_0000
  {
    if |bytes| < U64 {
      FrameParts(sha, bytes);
      assert EncodeRef(sha, bytes) == Success(Frame(sha, bytes));
    }
  }

  /** Every strict prefix of a frame reads as incomplete. */
  lemma FramePrefixIncomplete(sha: Sha, bytes: seq<Byte>, n: nat)
    requires Digests(sha) && HEADER + |bytes| + 32 < U64
    requires n < |Frame(sha, bytes)|
    ensures DecodeRef(sha, Frame(sha, bytes)[..n]) == Success(None)
  {
    var f := Frame(sha, bytes);
    var cut := f[..n];
    FrameParts(sha, bytes);
    if n < |REF_PREFIX| {
      assert cut == REF_PREFIX[..n];
    } else {
      assert REF_PREFIX <= cut;
      assert cut[9] == REF_PREFIX[9] != PENDING_PREFIX[9];
      if n >= HEADER {
        assert cut[|REF_PREFIX|..HEADER] == f[|REF_PREFIX|..HEADER];
      }
    }
  }

  /** A reservation, whole or cut short, reads as incomplete. */
  lemma ReservationIncomplete(sha: Sha, bytes: seq<Byte>, n: nat)
    requires n <= |EncodeReservation(sha, bytes)|
    ensures DecodeRef(sha, EncodeReservation(sha, bytes)[..n]) == Success(None)
  {
    var cut := EncodeReservation(sha, bytes)[..n];
    if n < |PENDING_PREFIX| {
      assert cut == PENDING_PREFIX[..n];
    } else {
      assert cut[..|PENDING_PREFIX|] == PENDING_PREFIX;
    }
  }

  /** Only a frame, or a plain file that does not start with NUL, reads as a value. */
  lemma DecodedIsFramed(sha: Sha, file: seq<Byte>, bytes: seq<Byte>)
    requires DecodeRef(sha, file) == Success(Some(bytes))
    ensures file == Frame(sha, bytes) || (file == bytes && file != [] && file[0] != 0)
  {
    if REF_PREFIX <= file {
      var word := file[|REF_PREFIX|..HEADER];
      LittleEndianInverse(word);
      assert file == REF_PREFIX + word + bytes + sha(bytes);
    }
  }

  /** Plain JSON refs, as written with hard links, read as themselves. */
  lemma PlainRoundTrip(sha: Sha, bytes: seq<Byte>)
    requires bytes != [] && bytes[0] != 0
    ensures DecodeRef(sha, bytes) == Success(Some(bytes))
  {
    assert REF_PREFIX[0] == 0 && PENDING_PREFIX[0] == 0;
  }

  /** The fixed beginnings are NUL and ASCII text, and a header is one of them and eight bytes of length. */
  lemma PrefixesAre()
    ensures var text := "TRANSFS-REF-1\n";
            && |REF_PREFIX| == 1 + |text| && REF_PREFIX[0] == 0
            && forall i | 0 <= i < |text| :: REF_PREFIX[i + 1] == text[i] as int
    ensures var text := "TRANSFS-PENDING-1\n";
            && |PENDING_PREFIX| == 1 + |text| && PENDING_PREFIX[0] == 0
            && forall i | 0 <= i < |text| :: PENDING_PREFIX[i + 1] == text[i] as int
    ensures HEADER == |REF_PREFIX| + 8
  {
  }
}
