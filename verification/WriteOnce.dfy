/**
 `write_once_ref` on one path (src/remote.rs): any number of callers, with and without hard links,
 interleaved at every file operation and crashing anywhere.
 */
module WriteOnce {
  import opened Wrappers
  import opened Bytes
  import opened RefFrame
  import opened Slots

  type Pid = nat

  /** What the path names: a caller's own O_EXCL file, or a file put there by rename or link. */
  datatype Path = Absent | Reservation(owner: Pid, bytes: seq<Byte>) | Placed(bytes: seq<Byte>)

  datatype Pc =
    | Start
    | Reserving(written: nat)   // created the file; this many bytes of the marker are in it
    | Writing                   // `write_content`: about to read the path
    | Renaming                  // its temporary file is complete; about to rename it
    | Reading                   // the path existed; about to read it
    | Returned(won: bool)
    | Crashed

  datatype Caller = Caller(bytes: seq<Byte>, hardLinks: bool, pc: Pc)

  datatype World = World(path: Path, callers: map<Pid, Caller>)

  function Contents(path: Path): seq<Byte> {
    match path
    case Absent => []
    case Reservation(_, bytes) => bytes
    case Placed(bytes) => bytes
  }

  function Become(w: World, p: Pid, pc: Pc): World
    requires p in w.callers
  {
    w.(callers := w.callers[p := w.callers[p].(pc := pc)])
  }

  /** One file operation of caller `p`, or its crash. */
  ghost predicate Step(sha: Sha, w: World, w': World, p: Pid) {
    && p in w.callers
    && match w.callers[p].pc
       case Start => StartStep(w, w', p) || w' == Become(w, p, Crashed)
       case Reserving(_) => ReserveStep(sha, w, w', p) || w' == Become(w, p, Crashed)
       case Writing => WriteStep(sha, w, w', p) || w' == Become(w, p, Crashed)
       case Renaming => RenameStep(sha, w, w', p) || w' == Become(w, p, Crashed)
       case Reading => ReadStep(sha, w, w', p) || w' == Become(w, p, Crashed)
       case _ => false
  }

  /** `write_content` finds its bytes in place, or prepares a temporary file. */
  ghost predicate WriteStep(sha: Sha, w: World, w': World, p: Pid)
    requires p in w.callers
  {
    w' == Become(w, p, if Contents(w.path) == Frame(sha, w.callers[p].bytes) then Returned(true) else Renaming)
  }

  ghost predicate RenameStep(sha: Sha, w: World, w': World, p: Pid)
    requires p in w.callers
  {
    w' == Become(w, p, Returned(true)).(path := Placed(Frame(sha, w.callers[p].bytes)))
  }

  ghost predicate ReadStep(sha: Sha, w: World, w': World, p: Pid)
    requires p in w.callers
  {
    w' == Become(w, p, AfterRead(sha, w.callers[p], Contents(w.path)))
  }

  /** Exclusive create, or a hard link of a complete file: both fail if the path exists. */
  ghost predicate StartStep(w: World, w': World, p: Pid)
    requires p in w.callers
  {
    if !w.path.Absent? then w' == Become(w, p, Reading)
    else if w.callers[p].hardLinks then w' == Become(w, p, Returned(true)).(path := Placed(w.callers[p].bytes))
    else w' == Become(w, p, Reserving(0)).(path := Reservation(p, []))
  }

  /** Some more marker bytes reach the created file, or all are in and `write_content` begins. */
  ghost predicate ReserveStep(sha: Sha, w: World, w': World, p: Pid)
    requires p in w.callers && w.callers[p].pc.Reserving?
  {
    var marker, n := EncodeReservation(sha, w.callers[p].bytes), w.callers[p].pc.written;
    if n >= |marker| then w' == Become(w, p, Writing)
    else
      exists k :: n < k <= |marker|
        && w' == Become(w, p, Reserving(k)).(
             path := if w.path.Reservation? && w.path.owner == p then Reservation(p, marker[..k]) else w.path)
  }

  function AfterRead(sha: Sha, c: Caller, existing: seq<Byte>): Pc {
    if c.hardLinks then Returned(existing == c.bytes)
    else if existing == Frame(sha, c.bytes) then Returned(true)
    else if existing == EncodeReservation(sha, c.bytes) then Writing
    else Returned(false)
  }

  /** Callers pass JSON (never empty, never starting with NUL), and no two of them a digest collision. */
  ghost predicate FairCallers(sha: Sha, w: World) {
    && Digests(sha)
    && (forall p | p in w.callers :: var b := w.callers[p].bytes; b != [] && b[0] != 0 && HEADER + |b| + 32 < U64)
    && (forall p, q | p in w.callers && q in w.callers ::
          sha(w.callers[p].bytes) == sha(w.callers[q].bytes) ==> w.callers[p].bytes == w.callers[q].bytes)
  }

  ghost predicate Initial(w: World) {
    w.path.Absent? && forall p | p in w.callers :: w.callers[p].pc.Start?
  }

  /** Callers that hold, or saw, the claim on this path. */
  predicate Committed(pc: Pc) {
    pc.Reserving? || pc.Writing? || pc.Renaming? || pc == Returned(true)
  }

  /** The bytes whose publication the path is committed to. */
  ghost predicate Claims(sha: Sha, w: World, bytes: seq<Byte>) {
    match w.path
    case Absent => false
    case Reservation(p, content) =>
      && p in w.callers && w.callers[p].bytes == bytes && !w.callers[p].hardLinks
      && |content| <= |EncodeReservation(sha, bytes)| && content == EncodeReservation(sha, bytes)[..|content|]
    case Placed(content) => content == Frame(sha, bytes) || content == bytes
  }

  ghost predicate CallerOk(sha: Sha, w: World, p: Pid)
    requires p in w.callers
  {
    var c := w.callers[p];
    var marker := EncodeReservation(sha, c.bytes);
    && (Committed(c.pc) ==> Claims(sha, w, c.bytes))
    && (c.hardLinks ==> !c.pc.Reserving? && !c.pc.Writing? && !c.pc.Renaming?)
    && (c.pc == Returned(true) ==> w.path.Placed?)
    && (c.pc.Reserving? ==>
          && c.pc.written <= |marker|
          && (w.path == Reservation(p, marker[..c.pc.written])
              || (c.pc.written == |marker| && w.path == Placed(Frame(sha, c.bytes)))))
    && (c.pc.Writing? || c.pc.Renaming? ==> Contents(w.path) == marker || Contents(w.path) == Frame(sha, c.bytes))
    && (c.pc.Reading? ==> !w.path.Absent?)
  }

  ghost predicate Claimed(sha: Sha, w: World) {
    !w.path.Absent? ==> exists p :: p in w.callers && Claims(sha, w, w.callers[p].bytes)
  }

  ghost predicate Inv(sha: Sha, w: World) {
    FairCallers(sha, w) && Claimed(sha, w) && forall p | p in w.callers :: CallerOk(sha, w, p)
  }

  // ----- markers, frames and plain files never look like one another -----

  lemma MarkerInjective(sha: Sha, a: seq<Byte>, b: seq<Byte>)
    requires Digests(sha) && EncodeReservation(sha, a) == EncodeReservation(sha, b)
    ensures sha(a) == sha(b)
  {
    var n := |PENDING_PREFIX|;
    assert HexText(sha(a)) == EncodeReservation(sha, a)[n..] == EncodeReservation(sha, b)[n..] == HexText(sha(b));
    HexTextInjective(sha(a), sha(b));
  }

  lemma FrameInjective(sha: Sha, a: seq<Byte>, b: seq<Byte>)
    requires Digests(sha) && |a| < U64 && |b| < U64 && Frame(sha, a) == Frame(sha, b)
    ensures a == b
  {
    FrameParts(sha, a);
    FrameParts(sha, b);
  }

  lemma Shapes(sha: Sha, a: seq<Byte>, b: seq<Byte>, n: nat)
    requires Digests(sha) && |a| < U64 && n <= |EncodeReservation(sha, a)|
    ensures |EncodeReservation(sha, a)| == |PENDING_PREFIX| + 64
    ensures Frame(sha, b) != EncodeReservation(sha, a)[..n]
    ensures b != [] && b[0] != 0 ==> b != EncodeReservation(sha, a)[..n] && b != Frame(sha, a)
  {
    var marker := EncodeReservation(sha, a);
    assert marker[0] == 0 && marker[9] == PENDING_PREFIX[9];
    assert Frame(sha, b)[9] == REF_PREFIX[9] && |Frame(sha, b)| >= HEADER;
    assert Frame(sha, a)[0] == 0;
  }

  // ----- the invariant -----

  /** Everyone committed to the path is committed to the same bytes. */
  lemma OneClaim(sha: Sha, w: World, p: Pid, q: Pid)
    requires FairCallers(sha, w) && p in w.callers && q in w.callers
    requires Claims(sha, w, w.callers[p].bytes) && Claims(sha, w, w.callers[q].bytes)
    ensures w.callers[p].bytes == w.callers[q].bytes
  {
    var a, b := w.callers[p].bytes, w.callers[q].bytes;
    if w.path.Placed? {
      Shapes(sha, a, b, 0);
      Shapes(sha, b, a, 0);
      if Frame(sha, a) == Frame(sha, b) { FrameInjective(sha, a, b); }
    }
  }

  lemma ClaimsStay(sha: Sha, w: World, w': World, p: Pid, bytes: seq<Byte>)
    requires p in w.callers && w'.path == w.path && w'.callers.Keys == w.callers.Keys
    requires forall q | q in w.callers && q != p :: w'.callers[q] == w.callers[q]
    requires w'.callers[p] == w.callers[p].(pc := w'.callers[p].pc)
    ensures Claims(sha, w', bytes) <==> Claims(sha, w, bytes)
  {
    hide EncodeReservation, Frame;
  }

  lemma OthersKeepPath(sha: Sha, w: World, w': World, p: Pid)
    requires Inv(sha, w) && p in w.callers
    requires w'.path == w.path && w'.callers.Keys == w.callers.Keys
    requires forall q | q in w.callers && q != p :: w'.callers[q] == w.callers[q]
    requires w'.callers[p] == w.callers[p].(pc := w'.callers[p].pc)
    requires CallerOk(sha, w', p)
    ensures Inv(sha, w')
  {
    hide Claims, EncodeReservation, Frame;
    forall bytes ensures Claims(sha, w', bytes) <==> Claims(sha, w, bytes) {
      ClaimsStay(sha, w, w', p, bytes);
    }
    forall q | q in w'.callers ensures CallerOk(sha, w', q) {
      if q != p { assert CallerOk(sha, w, q); }
    }
    if !w'.path.Absent? {
      var q :| q in w.callers && Claims(sha, w, w.callers[q].bytes);
      assert Claims(sha, w', w'.callers[q].bytes);
    }
  }

  /** With nothing on the path yet, nobody else is committed. */
  lemma FirstClaim(sha: Sha, w: World, w': World, p: Pid)
    requires Inv(sha, w) && p in w.callers && w.callers[p].pc.Start? && w.path.Absent? && StartStep(w, w', p)
    ensures Inv(sha, w')
  {
    var c := w.callers[p];
    assert Claims(sha, w', c.bytes);
    forall q | q in w'.callers ensures CallerOk(sha, w', q) {
      if q != p { assert CallerOk(sha, w, q); }
    }
    assert w'.callers[p].bytes == c.bytes;
  }

  /** While the marker is incomplete only its owner is committed. */
  lemma MarkerGrows(sha: Sha, w: World, w': World, p: Pid)
    requires Inv(sha, w) && p in w.callers && w.callers[p].pc.Reserving?
    requires w.callers[p].pc.written < |EncodeReservation(sha, w.callers[p].bytes)| && ReserveStep(sha, w, w', p)
    ensures Inv(sha, w')
  {
    var c := w.callers[p];
    var marker := EncodeReservation(sha, c.bytes);
    assert CallerOk(sha, w, p);
    assert Claims(sha, w', c.bytes) && w'.callers[p].bytes == c.bytes;
    forall q | q in w'.callers ensures CallerOk(sha, w', q) {
      assert CallerOk(sha, w, q);
      if q != p {
        var d := w.callers[q];
        Shapes(sha, c.bytes, d.bytes, c.pc.written);
        Shapes(sha, d.bytes, c.bytes, 0);
        if Committed(d.pc) { OneClaim(sha, w, p, q); }
      }
    }
  }

  /** The rename replaces its own marker or its own frame. */
  lemma RenamePlaces(sha: Sha, w: World, w': World, p: Pid)
    requires Inv(sha, w) && p in w.callers && w.callers[p].pc.Renaming?
    requires RenameStep(sha, w, w', p)
    ensures Inv(sha, w')
  {
    var c := w.callers[p];
    assert CallerOk(sha, w, p);
    assert Claims(sha, w', c.bytes) && w'.callers[p].bytes == c.bytes;
    forall q | q in w'.callers ensures CallerOk(sha, w', q) {
      assert CallerOk(sha, w, q);
      if q != p && Committed(w.callers[q].pc) {
        OneClaim(sha, w, p, q);
        var marker := EncodeReservation(sha, c.bytes);
        assert marker[..|marker|] == marker;
        Shapes(sha, c.bytes, c.bytes, |marker|);
        if w.callers[q].pc.Reserving? {
          Shapes(sha, c.bytes, c.bytes, w.callers[q].pc.written);
        }
      }
    }
  }

  lemma StartKeepsInv(sha: Sha, w: World, w': World, p: Pid)
    requires Inv(sha, w) && p in w.callers && w.callers[p].pc.Start? && StartStep(w, w', p)
    ensures Inv(sha, w')
  {
    if w.path.Absent? {
      FirstClaim(sha, w, w', p);
    } else {
      OthersKeepPath(sha, w, w', p);
    }
  }

  lemma ReserveKeepsInv(sha: Sha, w: World, w': World, p: Pid)
    requires Inv(sha, w) && p in w.callers && w.callers[p].pc.Reserving? && ReserveStep(sha, w, w', p)
    ensures Inv(sha, w')
  {
    assert CallerOk(sha, w, p);
    if w.callers[p].pc.written < |EncodeReservation(sha, w.callers[p].bytes)| {
      MarkerGrows(sha, w, w', p);
    } else {
      var marker := EncodeReservation(sha, w.callers[p].bytes);
      assert marker[..|marker|] == marker;
      OthersKeepPath(sha, w, w', p);
    }
  }

  /** A reader that finds its own frame or bytes finds them in place. */
  lemma FoundInPlace(sha: Sha, w: World, p: Pid)
    requires Inv(sha, w) && p in w.callers && !w.path.Absent?
    requires Contents(w.path) == if w.callers[p].hardLinks then w.callers[p].bytes else Frame(sha, w.callers[p].bytes)
    ensures w.path.Placed? && Claims(sha, w, w.callers[p].bytes)
  {
    var c := w.callers[p];
    if w.path.Reservation? {
      var q :| q in w.callers && Claims(sha, w, w.callers[q].bytes);
      Shapes(sha, w.callers[q].bytes, c.bytes, |w.path.bytes|);
    }
  }

  /** A reader that finds its own marker finds a reservation of its own bytes. */
  lemma FoundMarker(sha: Sha, w: World, p: Pid)
    requires Inv(sha, w) && p in w.callers && !w.path.Absent?
    requires Contents(w.path) == EncodeReservation(sha, w.callers[p].bytes)
    ensures w.path.Reservation? && Claims(sha, w, w.callers[p].bytes)
  {
    var c := w.callers[p];
    var marker := EncodeReservation(sha, c.bytes);
    assert marker[..|marker|] == marker;
    var q :| q in w.callers && Claims(sha, w, w.callers[q].bytes);
    var d := w.callers[q];
    Shapes(sha, c.bytes, d.bytes, |marker|);
    if w.path.Reservation? {
      Shapes(sha, d.bytes, c.bytes, 0);
      var other := EncodeReservation(sha, d.bytes);
      assert other[..|other|] == other;
      MarkerInjective(sha, c.bytes, d.bytes);
    }
  }

  lemma ReadKeepsInv(sha: Sha, w: World, w': World, p: Pid)
    requires Inv(sha, w) && p in w.callers && w.callers[p].pc.Reading? && ReadStep(sha, w, w', p)
    ensures Inv(sha, w')
  {
    assert CallerOk(sha, w, p);
    if w'.callers[p].pc == Returned(true) {
      FoundInPlace(sha, w, p);
    } else if w'.callers[p].pc == Writing {
      FoundMarker(sha, w, p);
    }
    OthersKeepPath(sha, w, w', p);
  }

  lemma WriteKeepsInv(sha: Sha, w: World, w': World, p: Pid)
    requires Inv(sha, w) && p in w.callers && w.callers[p].pc.Writing? && WriteStep(sha, w, w', p)
    ensures Inv(sha, w')
  {
    assert CallerOk(sha, w, p);
    if w'.callers[p].pc == Returned(true) {
      FoundInPlace(sha, w, p);
    }
    OthersKeepPath(sha, w, w', p);
  }

  lemma CrashKeepsInv(sha: Sha, w: World, p: Pid)
    requires Inv(sha, w) && p in w.callers
    ensures Inv(sha, Become(w, p, Crashed))
  {
    assert CallerOk(sha, w, p);
    OthersKeepPath(sha, w, Become(w, p, Crashed), p);
  }

  lemma StepKeepsInv(sha: Sha, w: World, w': World, p: Pid)
    requires Inv(sha, w) && Step(sha, w, w', p)
    ensures Inv(sha, w')
  {
    if w' == Become(w, p, Crashed) {
      CrashKeepsInv(sha, w, p);
    } else {
      match w.callers[p].pc
      case Start => StartKeepsInv(sha, w, w', p);
      case Reserving(_) => ReserveKeepsInv(sha, w, w', p);
      case Writing => WriteKeepsInv(sha, w, w', p);
      case Renaming => RenamePlaces(sha, w, w', p);
      case Reading => ReadKeepsInv(sha, w, w', p);
    }
  }

  // ----- what readers see, over whole runs -----

  /** The value `refs_for` or `read_remote_id` would read now. */
  ghost function Value(sha: Sha, w: World): Option<seq<Byte>> {
    Decoded(sha, Contents(w.path))
  }

  /** The path as a slot. */
  ghost function AsSlot(sha: Sha, w: World): Slot<seq<Byte>>
    requires Inv(sha, w)
  {
    match w.path
    case Absent => Empty
    case Reservation(owner, content) =>
      if |content| < |PENDING_PREFIX| + 64 then Torn(owner) else Reserved(Claimant(sha, w))
    case Placed(_) => Complete(Claimant(sha, w))
  }

  ghost function Claimant(sha: Sha, w: World): (bytes: seq<Byte>)
    requires Inv(sha, w) && !w.path.Absent?
    ensures Claims(sha, w, bytes)
  {
    var p :| p in w.callers && Claims(sha, w, w.callers[p].bytes);
    w.callers[p].bytes
  }

  lemma ClaimantIs(sha: Sha, w: World, p: Pid)
    requires Inv(sha, w) && p in w.callers && Claims(sha, w, w.callers[p].bytes)
    ensures Claimant(sha, w) == w.callers[p].bytes
  {
    var q :| q in w.callers && Claims(sha, w, w.callers[q].bytes) && w.callers[q].bytes == Claimant(sha, w);
    OneClaim(sha, w, p, q);
  }

  /** A value is readable exactly when the slot is complete. */
  lemma ValueIsSlot(sha: Sha, w: World)
    requires Inv(sha, w)
    ensures Value(sha, w) == if AsSlot(sha, w).Complete? then Some(AsSlot(sha, w).value) else None
  {
    if !w.path.Absent? {
      var q :| q in w.callers && Claims(sha, w, w.callers[q].bytes);
      var d := w.callers[q].bytes;
      ClaimantIs(sha, w, q);
      if w.path.Reservation? {
        ReservationIncomplete(sha, d, |w.path.bytes|);
      } else {
        FrameRoundTrip(sha, d);
        PlainRoundTrip(sha, d);
      }
    }
  }

  /** Callers that returned true passed the bytes everyone reads. */
  lemma WinnersReadTheirBytes(sha: Sha, w: World, p: Pid)
    requires Inv(sha, w) && p in w.callers && w.callers[p].pc == Returned(true)
    ensures Value(sha, w) == Some(w.callers[p].bytes)
  {
    assert CallerOk(sha, w, p);
    ClaimantIs(sha, w, p);
    ValueIsSlot(sha, w);
  }

  function SlotFor(path: Path, bytes: seq<Byte>): Slot<seq<Byte>> {
    match path
    case Absent => Empty
    case Reservation(owner, content) => if |content| < |PENDING_PREFIX| + 64 then Torn(owner) else Reserved(bytes)
    case Placed(_) => Complete(bytes)
  }

  lemma SlotIs(sha: Sha, w: World, q: Pid)
    requires Inv(sha, w) && q in w.callers && Claims(sha, w, w.callers[q].bytes)
    ensures AsSlot(sha, w) == SlotFor(w.path, w.callers[q].bytes)
  {
    ClaimantIs(sha, w, q);
  }

  /** A claimed path only grows its marker or becomes the claimed frame. */
  lemma PathMoves(sha: Sha, w: World, w': World, p: Pid, bytes: seq<Byte>)
    requires Inv(sha, w) && Step(sha, w, w', p) && !w.path.Absent?
    ensures SlotFor(w'.path, bytes) == SlotFor(w.path, bytes) ||
            SlotStep(SlotFor(w.path, bytes), SlotFor(w'.path, bytes))
  {
    var c := w.callers[p];
    assert CallerOk(sha, w, p);
    Shapes(sha, c.bytes, c.bytes, 0);
    if c.pc.Renaming? && w.path.Reservation? {
      Shapes(sha, c.bytes, c.bytes, |w.path.bytes|);
    }
  }

  /** Each file operation leaves the slot alone or moves it one legal step. */
  lemma StepRefinesSlot(sha: Sha, w: World, w': World, p: Pid)
    requires Inv(sha, w) && Step(sha, w, w', p)
    ensures Inv(sha, w')
    ensures AsSlot(sha, w') == AsSlot(sha, w) || SlotStep(AsSlot(sha, w), AsSlot(sha, w'))
    ensures var a, b := AsSlot(sha, w), AsSlot(sha, w');
            || a == b
            || (a.Empty? && (b.Torn? || b.Complete?))
            || (a.Torn? && b.Reserved?)
            || (a.Reserved? && b == Complete(a.value))
  {
    StepKeepsInv(sha, w, w', p);
    if !w.path.Absent? {
      var q :| q in w.callers && Claims(sha, w, w.callers[q].bytes);
      ClaimPersists(sha, w, w', p, q);
      SlotIs(sha, w, q);
      SlotIs(sha, w', q);
      PathMoves(sha, w, w', p, w.callers[q].bytes);
    }
  }

  lemma ValueStays(sha: Sha, w: World, w': World, p: Pid)
    requires Inv(sha, w) && Step(sha, w, w', p) && Value(sha, w).Some?
    ensures Value(sha, w') == Value(sha, w)
  {
    StepRefinesSlot(sha, w, w', p);
    ValueIsSlot(sha, w);
    ValueIsSlot(sha, w');
  }

  lemma ClaimPersists(sha: Sha, w: World, w': World, p: Pid, q: Pid)
    requires Inv(sha, w) && Step(sha, w, w', p)
    requires q in w.callers && Claims(sha, w, w.callers[q].bytes)
    ensures q in w'.callers && w'.callers[q].bytes == w.callers[q].bytes
    ensures Claims(sha, w', w.callers[q].bytes)
  {
    hide *;
    StepKeepsCallers(sha, w, w', p);
    if w'.path == w.path {
      ClaimsStay(sha, w, w', p, w.callers[q].bytes);
    } else {
      ClaimMovesOn(sha, w, w', p, q);
    }
  }

  lemma StepKeepsCallers(sha: Sha, w: World, w': World, p: Pid)
    requires Step(sha, w, w', p)
    ensures p in w.callers && w'.callers.Keys == w.callers.Keys &&
            w'.callers[p] == w.callers[p].(pc := w'.callers[p].pc)
    ensures forall q | q in w.callers && q != p :: w'.callers[q] == w.callers[q]
  {
    hide Frame, EncodeReservation;
  }

  lemma ClaimMovesOn(sha: Sha, w: World, w': World, p: Pid, q: Pid)
    requires Inv(sha, w) && Step(sha, w, w', p) && w'.path != w.path
    requires q in w.callers && Claims(sha, w, w.callers[q].bytes)
    ensures Claims(sha, w', w.callers[q].bytes)
  {
    assert CallerOk(sha, w, p);
    OneClaim(sha, w, p, q);
  }

  // ----- who may take which step -----

  /** How far a caller's attempt is, as the protocol counts stages. */
  function StageOf(sha: Sha, c: Caller): Stage {
    match c.pc
    case Start => Trying
    case Reading => Trying
    case Reserving(written) => if written < |EncodeReservation(sha, c.bytes)| then Stage.Created else Finishing
    case Writing => Finishing
    case Renaming => Finishing
    case Returned(won) => if won then Won else Lost
    case Crashed => Lost
  }

  /** A caller past its claim finds its own value reserved or complete. */
  lemma FinishingSlot(sha: Sha, w: World, p: Pid)
    requires Inv(sha, w) && p in w.callers && StageOf(sha, w.callers[p]).Finishing?
    ensures var mine := w.callers[p].bytes; AsSlot(sha, w) == Reserved(mine) || AsSlot(sha, w) == Complete(mine)
  {
    var c := w.callers[p];
    assert CallerOk(sha, w, p);
    ClaimantIs(sha, w, p);
    Shapes(sha, c.bytes, c.bytes, 0);
    if w.path.Reservation? {
      assert |EncodeReservation(sha, c.bytes)| == |PENDING_PREFIX| + 64;
      if c.pc.Writing? || c.pc.Renaming? {
        Shapes(sha, c.bytes, c.bytes, |w.path.bytes|);
      }
    }
  }

  lemma CreatedSlot(sha: Sha, w: World, p: Pid)
    requires Inv(sha, w) && p in w.callers && StageOf(sha, w.callers[p]).Created?
    ensures AsSlot(sha, w) == Torn(p)
  {
    var c := w.callers[p];
    assert CallerOk(sha, w, p);
    Shapes(sha, c.bytes, c.bytes, 0);
  }

  /** What a reader makes of an existing file. */
  lemma ReadIsClaim(sha: Sha, w: World, p: Pid)
    requires Inv(sha, w) && p in w.callers && w.callers[p].pc.Reading?
    ensures var c, slot := w.callers[p], AsSlot(sha, w);
            ClaimMove(p, c.bytes, slot, Trying, slot, StageOf(sha, c.(pc := AfterRead(sha, c, Contents(w.path)))))
  {
    var c := w.callers[p];
    assert CallerOk(sha, w, p);
    var after := AfterRead(sha, c, Contents(w.path));
    if after == Returned(true) {
      FoundInPlace(sha, w, p);
      ClaimantIs(sha, w, p);
    } else if after == Writing {
      FoundMarker(sha, w, p);
      ClaimantIs(sha, w, p);
      Shapes(sha, c.bytes, c.bytes, 0);
    }
  }

  /** Creating the file, or linking a complete one, as the claim of an empty slot. */
  lemma StartIsClaim(sha: Sha, w: World, w': World, p: Pid)
    requires Inv(sha, w) && Inv(sha, w') && p in w.callers && w.callers[p].pc.Start? && w.path.Absent? &&
             StartStep(w, w', p)
    ensures ClaimMove(p, w.callers[p].bytes, AsSlot(sha, w), Trying, AsSlot(sha, w'), StageOf(sha, w'.callers[p]))
  {
    Shapes(sha, w.callers[p].bytes, w.callers[p].bytes, 0);
    if w.callers[p].hardLinks {
      ClaimantIs(sha, w', p);
    }
  }

  ghost predicate Stutters(sha: Sha, w: World, w': World, p: Pid)
    requires Inv(sha, w) && Inv(sha, w') && p in w.callers && p in w'.callers
  {
    AsSlot(sha, w') == AsSlot(sha, w) && StageOf(sha, w'.callers[p]) == StageOf(sha, w.callers[p])
  }

  ghost predicate Moves(sha: Sha, w: World, w': World, p: Pid)
    requires Inv(sha, w) && Inv(sha, w') && p in w.callers && p in w'.callers
  {
    ClaimMove(p, w.callers[p].bytes, AsSlot(sha, w), StageOf(sha, w.callers[p]), AsSlot(sha, w'),
      StageOf(sha, w'.callers[p]))
  }

  lemma SamePathSameSlot(sha: Sha, w: World, w': World, p: Pid)
    requires Inv(sha, w) && Inv(sha, w') && Step(sha, w, w', p) && w'.path == w.path
    ensures AsSlot(sha, w') == AsSlot(sha, w)
  {
    if !w.path.Absent? {
      var q :| q in w.callers && Claims(sha, w, w.callers[q].bytes);
      ClaimPersists(sha, w, w', p, q);
      SlotIs(sha, w, q);
      SlotIs(sha, w', q);
    }
  }

  lemma ReserveIsClaim(sha: Sha, w: World, w': World, p: Pid)
    requires Inv(sha, w) && Inv(sha, w') && Step(sha, w, w', p) && w.callers[p].pc.Reserving? &&
             ReserveStep(sha, w, w', p)
    ensures Stutters(sha, w, w', p) || Moves(sha, w, w', p)
  {
    if StageOf(sha, w.callers[p]).Created? {
      CreatedSlot(sha, w, p);
      if StageOf(sha, w'.callers[p]).Created? {
        CreatedSlot(sha, w', p);
      } else {
        ReservedSlot(sha, w', p);
      }
    } else {
      SamePathSameSlot(sha, w, w', p);
    }
  }

  /** Once its marker is complete, the creator's value is reserved. */
  lemma ReservedSlot(sha: Sha, w: World, p: Pid)
    requires Inv(sha, w) && p in w.callers && w.callers[p].pc.Reserving? && StageOf(sha, w.callers[p]).Finishing?
    requires w.path.Reservation?
    ensures AsSlot(sha, w) == Reserved(w.callers[p].bytes)
  {
    FinishingSlot(sha, w, p);
  }

  /** Every file operation of a caller is invisible to the protocol, or is the move of a slot that the caller's stage
      allows; the checkpoint protocol is built from the same moves. */
  lemma StepIsClaim(sha: Sha, w: World, w': World, p: Pid)
    requires Inv(sha, w) && Step(sha, w, w', p)
    ensures Inv(sha, w')
    ensures if w' == Become(w, p, Crashed) then AsSlot(sha, w') == AsSlot(sha, w)
            else
              || (AsSlot(sha, w') == AsSlot(sha, w) &&
                  StageOf(sha, w'.callers[p]) == StageOf(sha, w.callers[p]))
              || ClaimMove(p, w.callers[p].bytes, AsSlot(sha, w), StageOf(sha, w.callers[p]), AsSlot(sha, w'),
                   StageOf(sha, w'.callers[p]))
  {
    StepKeepsInv(sha, w, w', p);
    hide Inv, CallerOk, Claims, EncodeReservation, Frame;
    if w'.path == w.path { SamePathSameSlot(sha, w, w', p); }
    if w' != Become(w, p, Crashed) {
      match w.callers[p].pc
      case Start => if w.path.Absent? { StartIsClaim(sha, w, w', p); }
      case Reserving(_) => ReserveIsClaim(sha, w, w', p);
      case Writing => FinishingSlot(sha, w, p); WriteIsClaim(sha, w, w', p);
      case Renaming => FinishingSlot(sha, w, p); RenameIsClaim(sha, w, w', p);
      case Reading => ReadIsClaim(sha, w, p);
    }
  }

  lemma WriteIsClaim(sha: Sha, w: World, w': World, p: Pid)
    requires Inv(sha, w) && Inv(sha, w') && Step(sha, w, w', p) && w.callers[p].pc.Writing? && WriteStep(sha, w, w', p)
    ensures Stutters(sha, w, w', p) || Moves(sha, w, w', p)
  {
    SamePathSameSlot(sha, w, w', p);
    if w'.callers[p].pc == Returned(true) {
      FoundFrame(sha, w, p);
      ClaimantIs(sha, w, p);
    }
  }

  lemma FoundFrame(sha: Sha, w: World, p: Pid)
    requires Inv(sha, w) && p in w.callers && w.callers[p].pc.Writing? &&
             Contents(w.path) == Frame(sha, w.callers[p].bytes)
    ensures w.path.Placed? && Claims(sha, w, w.callers[p].bytes)
  {
    assert CallerOk(sha, w, p);
    FoundInPlace(sha, w, p);
  }

  lemma RenameIsClaim(sha: Sha, w: World, w': World, p: Pid)
    requires Inv(sha, w) && Inv(sha, w') && Step(sha, w, w', p) && w.callers[p].pc.Renaming? &&
             RenameStep(sha, w, w', p)
    ensures Moves(sha, w, w', p)
  {
    FinishingSlot(sha, w, p);
    assert CallerOk(sha, w', p);
    ClaimantIs(sha, w', p);
  }

  ghost predicate Next(sha: Sha, w: World, w': World) {
    exists p :: p in w.callers && Step(sha, w, w', p)
  }

  ghost predicate Run(sha: Sha, run: seq<World>) {
    && run != [] && Initial(run[0]) && FairCallers(sha, run[0])
    && forall i | 0 <= i < |run| - 1 :: Next(sha, run[i], run[i + 1])
  }

  lemma {:induction false} RunKeepsInv(sha: Sha, run: seq<World>, i: nat)
    requires Run(sha, run) && i < |run|
    ensures Inv(sha, run[i])
  {
    if i > 0 {
      RunKeepsInv(sha, run, i - 1);
      assert Next(sha, run[i - 1], run[i - 1 + 1]);
      var p :| p in run[i - 1].callers && Step(sha, run[i - 1], run[i], p);
      StepKeepsInv(sha, run[i - 1], run[i], p);
    }
  }

  /** Once a value can be read it never changes, whatever callers do or wherever they crash. */
  lemma {:induction false} ValueNeverChanges(sha: Sha, run: seq<World>, i: nat, j: nat)
    requires Run(sha, run) && i <= j < |run| && Value(sha, run[i]).Some?
    ensures Value(sha, run[j]) == Value(sha, run[i])
    decreases j
  {
    hide Step, Value, Inv, Initial, FairCallers;
    if i < j {
      ValueNeverChanges(sha, run, i, j - 1);
      RunKeepsInv(sha, run, j - 1);
      assert Next(sha, run[j - 1], run[j - 1 + 1]);
      var p :| p in run[j - 1].callers && Step(sha, run[j - 1], run[j], p);
      ValueStays(sha, run[j - 1], run[j], p);
    }
  }

  /** Everyone who was ever told "published" passed the one value the path ever has. */
  lemma WinnersAgree(sha: Sha, run: seq<World>, i: nat, j: nat, p: Pid)
    requires Run(sha, run) && i <= j < |run|
    requires p in run[i].callers && run[i].callers[p].pc == Returned(true)
    ensures Value(sha, run[j]) == Some(run[i].callers[p].bytes)
  {
    RunKeepsInv(sha, run, i);
    WinnersReadTheirBytes(sha, run[i], p);
    ValueNeverChanges(sha, run, i, j);
  }

  /** A caller loses only to someone else: never to its own reservation, nor to its own frame. */
  lemma LosersLostToOthers(sha: Sha, w: World, w': World, p: Pid)
    requires Inv(sha, w) && Step(sha, w, w', p) && !w.callers[p].hardLinks
    requires w'.callers[p].pc == Returned(false)
    ensures AsSlot(sha, w) != Empty && AsSlot(sha, w) != Reserved(w.callers[p].bytes)
    ensures Value(sha, w) == Some(w.callers[p].bytes) ==> w.path == Placed(w.callers[p].bytes)
  {
    var c := w.callers[p];
    assert CallerOk(sha, w, p);
    ValueIsSlot(sha, w);
    if w.path.Reservation? {
      var q :| q in w.callers && Claims(sha, w, w.callers[q].bytes);
      ClaimantIs(sha, w, q);
      var marker := EncodeReservation(sha, w.callers[q].bytes);
      Shapes(sha, w.callers[q].bytes, c.bytes, 0);
      assert marker[..|marker|] == marker;
    }
  }

  /** A caller with hard links loses only when the path holds something else than its own plain bytes. */
  lemma LinkersLoseToOthers(sha: Sha, w: World, w': World, p: Pid)
    requires Inv(sha, w) && Step(sha, w, w', p) && w.callers[p].hardLinks && w'.callers[p].pc == Returned(false)
    ensures !w.path.Absent? && w.path != Placed(w.callers[p].bytes)
  {
    assert CallerOk(sha, w, p);
  }

  // ----- every call comes to an end -----

  /** A bound on the file operations a caller still makes. */
  function OpsLeft(sha: Sha, c: Caller): int {
    var marker := |EncodeReservation(sha, c.bytes)|;
    match c.pc
    case Start => marker + 4
    case Reserving(written) => marker - written + 3
    case Reading => 3
    case Writing => 2
    case Renaming => 1
    case _ => 0
  }

  ghost predicate CanStep(sha: Sha, w: World, p: Pid) {
    exists w' :: Step(sha, w, w', p) && p in w'.callers && w'.callers[p].pc != Crashed
  }

  /** A caller that has not returned always has a next operation, each brings it closer to its answer, and it can crash
      before any of them. */
  lemma CallEnds(sha: Sha, w: World, p: Pid)
    requires Inv(sha, w) && p in w.callers && !w.callers[p].pc.Returned? && !w.callers[p].pc.Crashed?
    ensures CanStep(sha, w, p) && Step(sha, w, Become(w, p, Crashed), p)
    ensures forall w' | Step(sha, w, w', p) ::
              p in w'.callers && 0 <= OpsLeft(sha, w'.callers[p]) < OpsLeft(sha, w.callers[p])
  {
    assert CallerOk(sha, w, p);
    HasNextOp(sha, w, p);
    forall w' | Step(sha, w, w', p)
      ensures p in w'.callers && 0 <= OpsLeft(sha, w'.callers[p]) < OpsLeft(sha, w.callers[p]) {
      OpsRunOut(sha, w, w', p);
    }
  }

  lemma OpsRunOut(sha: Sha, w: World, w': World, p: Pid)
    requires Step(sha, w, w', p)
    requires w.callers[p].pc.Reserving? ==> w.callers[p].pc.written <= |EncodeReservation(sha, w.callers[p].bytes)|
    ensures p in w'.callers && 0 <= OpsLeft(sha, w'.callers[p]) < OpsLeft(sha, w.callers[p])
  {
    hide Frame, EncodeReservation;
  }

  lemma HasNextOp(sha: Sha, w: World, p: Pid)
    requires p in w.callers && !w.callers[p].pc.Returned? && !w.callers[p].pc.Crashed?
    ensures CanStep(sha, w, p)
  {
    hide Frame, EncodeReservation;
    var c := w.callers[p];
    var marker := EncodeReservation(sha, c.bytes);
    var next := w;
    match c.pc {
      case Start =>
        next := if !w.path.Absent? then Become(w, p, Reading)
                else if c.hardLinks then Become(w, p, Returned(true)).(path := Placed(c.bytes))
                else Become(w, p, Reserving(0)).(path := Reservation(p, []));
      case Reserving(n) =>
        var own := w.path.Reservation? && w.path.owner == p;
        next := if n >= |marker| then Become(w, p, Writing)
                else Become(w, p, Reserving(|marker|)).(
                       path := if own then Reservation(p, marker[..|marker|]) else w.path);
      case Writing =>
        next := Become(w, p, if Contents(w.path) == Frame(sha, c.bytes) then Returned(true) else Renaming);
      case Renaming => next := Become(w, p, Returned(true)).(path := Placed(Frame(sha, c.bytes)));
      case Reading => next := Become(w, p, AfterRead(sha, c, Contents(w.path)));
    }
    assert Step(sha, w, next, p);
  }

  /** A whole file is never touched again, and a caller that finds its frame in place renames nothing over it. */
  lemma PlacedStays(sha: Sha, w: World, w': World, p: Pid)
    requires Inv(sha, w) && Step(sha, w, w', p) && w.path.Placed?
    ensures w'.path == w.path
    ensures w.callers[p].pc.Writing? ==> w'.callers[p].pc == Returned(true) || w'.callers[p].pc == Crashed
  {
    var c := w.callers[p];
    assert CallerOk(sha, w, p);
    Shapes(sha, c.bytes, c.bytes, |EncodeReservation(sha, c.bytes)|);
    var marker := EncodeReservation(sha, c.bytes);
    assert marker[..|marker|] == marker;
    if c.pc.Writing? || c.pc.Renaming? {
      assert Claims(sha, w, c.bytes);
    }
  }

  /** A whole file holds what its writer writes: plain bytes with hard links, a frame without. */
  ghost predicate WrittenBy(sha: Sha, w: World, p: Pid) {
    && p in w.callers
    && w.path == Placed(if w.callers[p].hardLinks then w.callers[p].bytes else Frame(sha, w.callers[p].bytes))
  }

  lemma {:induction false} FilesAreWritten(sha: Sha, run: seq<World>, i: nat)
    requires Run(sha, run) && i < |run| && run[i].path.Placed?
    ensures exists p :: WrittenBy(sha, run[i], p)
    ensures exists p :: p in run[i].callers &&
              var c := run[i].callers[p]; run[i].path.bytes == if c.hardLinks then c.bytes else Frame(sha, c.bytes)
  {
    if i > 0 {
      RunKeepsInv(sha, run, i - 1);
      assert Next(sha, run[i - 1], run[i - 1 + 1]);
      var p :| p in run[i - 1].callers && Step(sha, run[i - 1], run[i], p);
      if run[i - 1].path.Placed? {
        FilesAreWritten(sha, run, i - 1);
        var q :| WrittenBy(sha, run[i - 1], q);
        PlacedStays(sha, run[i - 1], run[i], p);
        WriterStays(sha, run[i - 1], run[i], p, q);
      } else {
        PlacerWrote(sha, run[i - 1], run[i], p);
      }
    }
  }

  lemma WriterStays(sha: Sha, w: World, w': World, p: Pid, q: Pid)
    requires Step(sha, w, w', p) && w'.path == w.path && WrittenBy(sha, w, q)
    ensures WrittenBy(sha, w', q)
  {
    StepKeepsCallers(sha, w, w', p);
  }

  lemma PlacerWrote(sha: Sha, w: World, w': World, p: Pid)
    requires Inv(sha, w) && Step(sha, w, w', p) && !w.path.Placed? && w'.path.Placed?
    ensures WrittenBy(sha, w', p)
  {
    assert CallerOk(sha, w, p);
    hide Frame, EncodeReservation, Claims;
  }

  // ----- a caller with nobody else at work -----

  /** Steps of one caller, none of them a crash. */
  ghost predicate RunsAlone(sha: Sha, run: seq<World>, p: Pid) {
    && run != [] && p in run[0].callers
    && forall i | 0 <= i < |run| - 1 :: AloneStep(sha, run[i], run[i + 1], p)
  }

  ghost predicate AloneStep(sha: Sha, w: World, w': World, p: Pid) {
    Step(sha, w, w', p) && p in w'.callers && w'.callers[p].pc != Crashed
  }

  /** Where it can be on its way from a free path. */
  ghost predicate OnItsWay(sha: Sha, w: World, p: Pid) {
    && p in w.callers
    && var c := w.callers[p];
       match c.pc
       case Start => w.path.Absent?
       case Reserving(_) => !c.hardLinks && w.path.Reservation? && w.path.owner == p
       case Writing => !c.hardLinks && !w.path.Absent?
       case Renaming => !c.hardLinks && !w.path.Absent?
       case Returned(won) => won
       case _ => false
  }

  lemma StaysOnItsWay(sha: Sha, w: World, w': World, p: Pid)
    requires OnItsWay(sha, w, p) && AloneStep(sha, w, w', p)
    ensures OnItsWay(sha, w', p)
  {
    hide Frame, EncodeReservation;
  }

  /** A caller that finds the path free, and that nobody interferes with, is told that it published, with and without
      hard links; its bytes are then what everyone reads. */
  lemma {:induction false} AloneCallerWins(sha: Sha, run: seq<World>, p: Pid, i: nat)
    requires RunsAlone(sha, run, p) && i < |run|
    requires run[0].callers[p].pc == Start && run[0].path.Absent?
    ensures OnItsWay(sha, run[i], p)
    ensures p in run[i].callers && (run[i].callers[p].pc.Returned? ==> run[i].callers[p].pc.won)
    decreases i
  {
    hide Step;
    if i > 0 {
      AloneCallerWins(sha, run, p, i - 1);
      assert AloneStep(sha, run[i - 1], run[i - 1 + 1], p);
      StaysOnItsWay(sha, run[i - 1], run[i], p);
    }
  }
}
