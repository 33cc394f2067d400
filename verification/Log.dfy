/** A document log as a file of JSON lines: appends, crashes inside an append, and reading back (src/log.rs). */
module Log {
  import opened Wrappers
  import opened Bytes
  import opened Claims
  import opened CausalGraph
  import opened Convergence
  import opened Document
  import opened Library

  const NEWLINE: Byte := 10

  /** What one line parses to. */
  datatype Line = Blank | Record(claim: Claim) | Bad

  /** JSON text: `encode` is `to_json_line` for a canonical claim, `decode` is the parse of one line. */
  datatype Json = Json(encode: Claim -> seq<Byte>, decode: seq<Byte> -> Line)

  ghost predicate FaithfulJson(j: Json) {
    && (forall c :: IsNormal(c) ==> j.decode(j.encode(c)) == Record(c) && NEWLINE !in j.encode(c))
    && (forall line :: j.decode(line).Record? ==> IsNormal(j.decode(line).claim))
  }

  datatype LogError = CorruptLine(line: nat)

  datatype ReadResult = ReadResult(claims: seq<Claim>, tornTail: Option<nat>)

  /** `split(b'\n')`: always at least one part. */
  function Lines(bytes: seq<Byte>): (r: seq<seq<Byte>>)
    ensures |r| >= 1
  {
    if bytes == [] then [[]] else Prepend(bytes[0], Lines(bytes[1..]))
  }

  function Prepend(b: Byte, lines: seq<seq<Byte>>): seq<seq<Byte>>
    requires |lines| >= 1
  {
    if b == NEWLINE then [[]] + lines else [[b] + lines[0]] + lines[1..]
  }

  /** Parses terminated lines from line number `index + 1` on; stops at the first bad one. */
  function Parse(j: Json, lines: seq<seq<Byte>>, index: nat): Result<seq<Claim>, LogError> {
    if lines == [] then Success([])
    else
      var line := j.decode(lines[0]);
      if line.Bad? then Failure(CorruptLine(index + 1))
      else
        match Parse(j, lines[1..], index + 1)
        case Failure(e) => Failure(e)
        case Success(rest) => Success(if line.Record? then [line.claim] + rest else rest)
  }

  /** `Log::read` on the file's bytes. */
  function Read(j: Json, bytes: seq<Byte>): Result<ReadResult, LogError> {
    if bytes == [] then Success(ReadResult([], None))
    else
      var lines := Lines(bytes);
      var last := |lines| - 1;
      match Parse(j, lines[..last], 0)
      case Failure(e) => Failure(e)
      case Success(claims) =>
        if bytes[|bytes| - 1] == NEWLINE then Success(ReadResult(claims, None))
        else if last == 0 then Failure(CorruptLine(1))
        else Success(ReadResult(claims, Some(last + 1)))
  }

  /** The bytes an append writes: one terminated line per claim. */
  function Records(j: Json, claims: seq<Claim>): seq<Byte> {
    if claims == [] then [] else Terminate(j, claims[0]) + Records(j, claims[1..])
  }

  function Terminate(j: Json, c: Claim): seq<Byte> {
    j.encode(c) + [NEWLINE]
  }

  predicate Terminated(bytes: seq<Byte>) {
    bytes == [] || bytes[|bytes| - 1] == NEWLINE
  }

  // ----- lines of concatenated text -----

  lemma {:induction false} LinesOfFragment(text: seq<Byte>)
    requires NEWLINE !in text
    ensures Lines(text) == [text]
  {
    if text != [] {
      LinesOfFragment(text[1..]);
      assert text == [text[0]] + text[1..];
    }
  }

  lemma {:induction false} LinesAfterNewline(text: seq<Byte>, rest: seq<Byte>)
    ensures Lines(text + ([NEWLINE] + rest)) == Lines(text) + Lines(rest)
  {
    var whole := text + ([NEWLINE] + rest);
    if text == [] {
      assert whole == [NEWLINE] + rest;
    } else {
      assert whole[0] == text[0] && whole[1..] == text[1..] + ([NEWLINE] + rest);
      LinesAfterNewline(text[1..], rest);
      PrependAppend(text[0], Lines(text[1..]), Lines(rest));
    }
  }

  lemma PrependAppend(b: Byte, x: seq<seq<Byte>>, y: seq<seq<Byte>>)
    requires |x| >= 1
    ensures Prepend(b, x + y) == Prepend(b, x) + y
  {
  }

  /** A terminated text ends in an empty last part, which the rest then continues. */
  lemma LinesOfTerminated(bytes: seq<Byte>, rest: seq<Byte>)
    requires Terminated(bytes)
    ensures |Lines(bytes)| >= 1 && Lines(bytes)[|Lines(bytes)| - 1] == []
    ensures Lines(bytes + rest) == Lines(bytes)[..|Lines(bytes)| - 1] + Lines(rest)
  {
    if bytes == [] {
      assert bytes + rest == rest;
    } else {
      var text := bytes[..|bytes| - 1];
      assert bytes == text + ([NEWLINE] + []);
      LinesAfterNewline(text, []);
      LinesAfterNewline(text, rest);
      assert bytes + rest == text + ([NEWLINE] + rest);
    }
  }

  lemma {:induction false} ParseAppend(j: Json, a: seq<seq<Byte>>, b: seq<seq<Byte>>, index: nat)
    ensures Parse(j, a + b, index) ==
            match Parse(j, a, index)
            case Failure(e) => Failure(e)
            case Success(x) =>
              match Parse(j, b, index + |a|)
              case Failure(e) => Failure(e)
              case Success(y) => Success(x + y)
  {
    if a == [] {
      assert a + b == b;
      var y := Parse(j, b, index);
      if y.Success? { assert [] + y.value == y.value; }
    } else {
      assert (a + b)[1..] == a[1..] + b;
      ParseAppend(j, a[1..], b, index + 1);
      var line, x, y := j.decode(a[0]), Parse(j, a[1..], index + 1), Parse(j, b, index + |a|);
      if line.Record? && x.Success? && y.Success? {
        assert [line.claim] + (x.value + y.value) == ([line.claim] + x.value) + y.value;
      }
    }
  }

  lemma {:induction false} RecordsRead(j: Json, claims: seq<Claim>, index: nat)
    requires FaithfulJson(j) && forall c | c in claims :: IsNormal(c)
    ensures Terminated(Records(j, claims)) && |Lines(Records(j, claims))| == |claims| + 1
    ensures Parse(j, Lines(Records(j, claims))[..|claims|], index) == Success(claims)
  {
    hide FaithfulJson, IsNormal, Lines;
    LinesOfFragment([]);
    if claims != [] {
      var first, rest := j.encode(claims[0]), Records(j, claims[1..]);
      assert claims[0] in claims;
      EncodedIsLine(j, claims[0]);
      RecordsRead(j, claims[1..], index + 1);
      LinesAfterNewline(first, rest);
      LinesOfFragment(first);
      assert Records(j, claims) == first + ([NEWLINE] + rest);
      var lines := Lines(Records(j, claims))[..|claims|];
      assert lines == [first] + Lines(rest)[..|claims| - 1];
      assert lines[1..] == Lines(rest)[..|claims| - 1];
      assert claims == [claims[0]] + claims[1..];
    }
  }

  lemma EncodedIsLine(j: Json, c: Claim)
    requires FaithfulJson(j) && IsNormal(c)
    ensures NEWLINE !in j.encode(c) && j.decode(j.encode(c)) == Record(c)
  {
  }

  // ----- a crash inside an append -----

  /** How many whole records the first `cut` bytes hold. */
  function WholeRecords(j: Json, claims: seq<Claim>, cut: nat): (k: nat)
    ensures k <= |claims|
  {
    if claims == [] || cut < |Terminate(j, claims[0])| then 0
    else 1 + WholeRecords(j, claims[1..], cut - |Terminate(j, claims[0])|)
  }

  /** A cut leaves whole records and a fragment of the next, which has no newline. */
  lemma {:induction false} CutRecords(j: Json, claims: seq<Claim>, cut: nat) returns (fragment: seq<Byte>)
    requires FaithfulJson(j) && (forall c | c in claims :: IsNormal(c)) && cut <= |Records(j, claims)|
    ensures var k := WholeRecords(j, claims, cut);
            && Records(j, claims)[..cut] == Records(j, claims[..k]) + fragment
            && NEWLINE !in fragment
            && (fragment != [] ==> k < |claims| && fragment <= j.encode(claims[k]))
    decreases |claims|
  {
    hide FaithfulJson, IsNormal;
    fragment := [];
    if claims != [] {
      var first := Terminate(j, claims[0]);
      var rest := Records(j, claims[1..]);
      assert claims[0] in claims;
      EncodedIsLine(j, claims[0]);
      if cut < |first| {
        fragment := j.encode(claims[0])[..cut];
        assert Records(j, claims)[..cut] == fragment;
      } else {
        fragment := CutRecords(j, claims[1..], cut - |first|);
        var k := WholeRecords(j, claims[1..], cut - |first|);
        assert Records(j, claims)[..cut] == first + rest[..cut - |first|];
        assert claims[..k + 1][1..] == claims[1..][..k];
        assert first + (Records(j, claims[1..][..k]) + fragment) == (first + Records(j, claims[1..][..k])) + fragment;
      }
    }
  }

  /** What `read` finds after the last append stopped at byte `cut`. */
  ghost function AfterCut(j: Json, log: seq<Byte>, held: seq<Claim>, batch: seq<Claim>,
                          cut: nat): Result<ReadResult, LogError> {
    var k := WholeRecords(j, batch, cut);
    if cut == |Records(j, batch[..k])| then Success(ReadResult(held + batch[..k], None))
    else if log == [] && k == 0 then Failure(CorruptLine(1))
    else Success(ReadResult(held + batch[..k], Some(|Lines(log)| + k)))
  }

  /** Cutting an append anywhere keeps the old claims and the whole records, and reports a torn tail exactly
      when it fell inside a record or just before its newline. */
  lemma CutAppend(j: Json, log: seq<Byte>, held: seq<Claim>, batch: seq<Claim>, cut: nat)
    requires FaithfulJson(j) && (forall c | c in batch :: IsNormal(c)) && cut <= |Records(j, batch)|
    requires Read(j, log) == Success(ReadResult(held, None))
    ensures Read(j, log + Records(j, batch)[..cut]) == AfterCut(j, log, held, batch, cut)
  {
    hide Read, Lines, Parse, FaithfulJson, IsNormal;
    var k := WholeRecords(j, batch, cut);
    var fragment := CutRecords(j, batch, cut);
    UntornIsTerminated(j, log, held);
    RecordsRead(j, batch[..k], |Lines(log)| - 1);
    ReadPieces(j, log, held, Records(j, batch[..k]), batch[..k], fragment);
    assert log + Records(j, batch)[..cut] == log + (Records(j, batch[..k]) + fragment);
    assert |Records(j, batch)[..cut]| == cut;
  }

  /** A terminated log, terminated records and a fragment, read as one file. */
  lemma LinesOfPieces(log: seq<Byte>, whole: seq<Byte>, fragment: seq<Byte>)
    requires Terminated(log) && Terminated(whole) && NEWLINE !in fragment
    ensures Lines(log + (whole + fragment)) ==
            Lines(log)[..|Lines(log)| - 1] + Lines(whole)[..|Lines(whole)| - 1] + [fragment]
  {
    LinesOfTerminated(log, whole + fragment);
    LinesOfTerminated(whole, fragment);
    LinesOfFragment(fragment);
  }

  lemma LineEnds(bytes: seq<Byte>)
    ensures |Lines(bytes)| > 0
  {
  }

  lemma ParseOfPieces(j: Json, log: seq<Byte>, held: seq<Claim>, whole: seq<Byte>, claims: seq<Claim>,
                      fragment: seq<Byte>)
    requires Terminated(log) && Terminated(whole) && NEWLINE !in fragment
    requires Parse(j, Lines(log)[..|Lines(log)| - 1], 0) == Success(held)
    requires Parse(j, Lines(whole)[..|Lines(whole)| - 1], |Lines(log)| - 1) == Success(claims)
    ensures var lines := Lines(log + (whole + fragment));
            && |lines| == |Lines(log)| + |Lines(whole)| - 1
            && Parse(j, lines[..|lines| - 1], 0) == Success(held + claims)
  {
    LinesOfPieces(log, whole, fragment);
    LineEnds(log);
    LineEnds(whole);
    hide Lines, Terminated;
    var before, middle := Lines(log)[..|Lines(log)| - 1], Lines(whole)[..|Lines(whole)| - 1];
    var lines := Lines(log + (whole + fragment));
    assert lines[..|lines| - 1] == before + middle;
    ParseAppend(j, before, middle, 0);
  }

  lemma ReadPieces(j: Json, log: seq<Byte>, held: seq<Claim>, whole: seq<Byte>, claims: seq<Claim>, fragment: seq<Byte>)
    requires Terminated(whole) && NEWLINE !in fragment
    requires Read(j, log) == Success(ReadResult(held, None))
    requires |Lines(whole)| == |claims| + 1
    requires Parse(j, Lines(whole)[..|claims|], |Lines(log)| - 1) == Success(claims)
    ensures Read(j, log + (whole + fragment)) ==
            if fragment == [] then Success(ReadResult(held + claims, None))
            else if log == [] && claims == [] then Failure(CorruptLine(1))
            else Success(ReadResult(held + claims, Some(|Lines(log)| + |claims|)))
  {
    hide Lines;
    UntornIsTerminated(j, log, held);
    LastByte(log, whole, fragment);
    ParseOfPieces(j, log, held, whole, claims, fragment);
    if log + (whole + fragment) == [] {
      assert held + claims == claims;
    } else if log == [] {
      assert |Lines(log)| == 1;
    } else {
      assert log == log[..|log| - 1] + ([NEWLINE] + []);
      LinesAfterNewline(log[..|log| - 1], []);
    }
  }

  lemma LastByte(log: seq<Byte>, whole: seq<Byte>, fragment: seq<Byte>)
    requires Terminated(log) && Terminated(whole) && NEWLINE !in fragment
    ensures Terminated(log + (whole + fragment)) <==> fragment == []
  {
    var bytes := log + (whole + fragment);
    if fragment != [] {
      assert bytes[|bytes| - 1] == fragment[|fragment| - 1];
    } else if whole != [] {
      assert bytes[|bytes| - 1] == whole[|whole| - 1];
    } else {
      assert bytes == log;
    }
  }

  /** A log that reads without a torn tail can be appended to: it ends at a line boundary. */
  lemma UntornIsTerminated(j: Json, log: seq<Byte>, held: seq<Claim>)
    requires Read(j, log) == Success(ReadResult(held, None))
    ensures Terminated(log)
    ensures log != [] ==> Parse(j, Lines(log)[..|Lines(log)| - 1], 0) == Success(held)
    ensures log == [] ==> held == [] && Lines(log) == [[]]
  {
  }

  // ----- the log file -----

  /** The canonical forms `to_json_line` writes. */
  function Canonical(claims: seq<Claim>): (r: seq<Claim>)
    ensures |r| == |claims|
  {
    if claims == [] then []
    else
      var n := Normalized(claims[0]);
      [if n.Success? then n.value else claims[0]] + Canonical(claims[1..])
  }

  lemma {:induction false} CanonicalIsNormal(claims: seq<Claim>)
    requires forall c | c in claims :: Normalized(c).Success?
    ensures forall c | c in Canonical(claims) :: IsNormal(c)
  {
    if claims != [] {
      assert claims[0] in claims;
      assert forall c | c in claims[1..] :: c in claims;
      CanonicalIsNormal(claims[1..]);
      NormalizedIsNormal(claims[0]);
    }
  }

  lemma {:induction false} CanonicalPrefix(claims: seq<Claim>, k: nat)
    requires k <= |claims|
    ensures Canonical(claims)[..k] == Canonical(claims[..k])
  {
    if k > 0 {
      CanonicalPrefix(claims[1..], k - 1);
      assert claims[..k][1..] == claims[1..][..k - 1];
    }
  }

  /** Writing canonical forms loses nothing: they insert as the claims themselves do. */
  lemma {:induction false} InsertCanonical(idOf: Identity, m: CausalSet, claims: seq<Claim>)
    requires InsertAll(idOf, m, claims).Success?
    ensures InsertAll(idOf, m, Canonical(claims)) == InsertAll(idOf, m, claims)
    decreases |claims|
  {
    if claims != [] {
      NormalizedIsNormal(claims[0]);
      InsertCanonical(idOf, Insert(idOf, m, claims[0]).value, claims[1..]);
    }
  }

  lemma {:induction false} CanonicalBinds(id: Id, claims: seq<Claim>)
    requires forall c | c in claims :: c.Create? || c.doc == id
    ensures forall c | c in Canonical(claims) :: c.Create? || c.doc == id
  {
    if claims != [] {
      assert claims[0] in claims;
      assert forall c | c in claims[1..] :: c in claims;
      CanonicalBinds(id, claims[1..]);
    }
  }

  lemma LoadsCanonical(idOf: Identity, id: Id, held: seq<Claim>, batch: seq<Claim>)
    requires Loads(idOf, id, held) && Loads(idOf, id, held + batch)
    ensures Loads(idOf, id, held + Canonical(batch))
    ensures Loaded(idOf, held + Canonical(batch)) == Loaded(idOf, held + batch)
  {
    InsertAllAppend(idOf, map[], held, batch);
    InsertAllAppend(idOf, map[], held, Canonical(batch));
    InsertCanonical(idOf, Loaded(idOf, held), batch);
    assert forall c | c in batch :: c in held + batch;
    CanonicalBinds(id, batch);
  }

  lemma AcceptedIsNormal(idOf: Identity, claims: seq<Claim>)
    requires InsertAll(idOf, map[], claims).Success?
    ensures forall c | c in claims :: Normalized(c).Success?
  {
    InsertAllDelivers(idOf, map[], claims);
    forall c | c in claims ensures Normalized(c).Success? {
      assert Holds(idOf, Loaded(idOf, claims), c);
    }
  }

  /** After a crash at any byte of a library edit's append, the log still reads and its claims still load. */
  lemma CrashedEditLoads(j: Json, idOf: Identity, id: Id, log: seq<Byte>, held: seq<Claim>, s: CausalSet,
                         edit: seq<Claim>, cut: nat)
    requires FaithfulJson(j) && Read(j, log) == Success(ReadResult(held, None))
    requires Loads(idOf, id, held) && Earlier(s, Loaded(idOf, held))
    requires forall c | c in edit :: Observes(s, id, c)
    requires Loads(idOf, id, held + edit) && cut <= |Records(j, Canonical(edit))|
    ensures var r := Read(j, log + Records(j, Canonical(edit))[..cut]);
            && r.Success?
            && (exists k: nat :: k <= |edit| && r.value.claims == held + Canonical(edit)[..k])
            && Loads(idOf, id, r.value.claims)
            && (cut == 0 ==> r == Success(ReadResult(held, None)))
            && (cut == |Records(j, Canonical(edit))| ==> r == Success(ReadResult(held + Canonical(edit), None)))
  {
    AcceptedIsNormal(idOf, held + edit);
    assert forall c | c in edit :: c in held + edit;
    CanonicalIsNormal(edit);
    CutAppend(j, log, held, Canonical(edit), cut);
    PrefixAfterCutLoads(j, idOf, id, log, held, s, edit, cut);
  }

  lemma PrefixAfterCutLoads(j: Json, idOf: Identity, id: Id, log: seq<Byte>, held: seq<Claim>, s: CausalSet,
                            edit: seq<Claim>, cut: nat)
    requires log == [] ==> held == []
    requires Loads(idOf, id, held) && Earlier(s, Loaded(idOf, held))
    requires forall c | c in edit :: Observes(s, id, c)
    requires Loads(idOf, id, held + edit) && cut <= |Records(j, Canonical(edit))|
    ensures var r := AfterCut(j, log, held, Canonical(edit), cut);
            && r.Success?
            && (exists k: nat :: k <= |edit| && r.value.claims == held + Canonical(edit)[..k])
            && Loads(idOf, id, r.value.claims)
            && (cut == 0 ==> r == Success(ReadResult(held, None)))
            && (cut == |Records(j, Canonical(edit))| ==> r == Success(ReadResult(held + Canonical(edit), None)))
  {
    var k := WholeRecords(j, Canonical(edit), cut);
    EditPrefixLoads(idOf, id, s, held, edit, k);
    LoadsCanonical(idOf, id, held, edit[..k]);
    CanonicalPrefix(edit, k);
    CutExtremes(j, Canonical(edit), cut);
    assert held + Canonical(edit)[..0] == held;
    assert Canonical(edit)[..|edit|] == Canonical(edit);
  }

  lemma {:induction false} CutExtremes(j: Json, claims: seq<Claim>, cut: nat)
    requires cut <= |Records(j, claims)|
    ensures cut == 0 ==> WholeRecords(j, claims, cut) == 0
    ensures cut == |Records(j, claims)| ==> WholeRecords(j, claims, cut) == |claims|
    decreases |claims|
  {
    if claims != [] && cut >= |Terminate(j, claims[0])| {
      CutExtremes(j, claims[1..], cut - |Terminate(j, claims[0])|);
    }
  }

  datatype Outcome = Appended | Interrupted | Refused

  function Content(file: Option<seq<Byte>>): seq<Byte> {
    if file.Some? then file.value else []
  }

  /** The checks `append` makes before it writes. */
  ghost predicate Appendable(j: Json, idOf: Identity, id: Id, file: Option<seq<Byte>>, claims: seq<Claim>) {
    match file
    case None => Loads(idOf, id, claims)
    case Some(bytes) =>
      && Read(j, bytes).Success? && Read(j, bytes).value.tornTail == None
      && (forall c | c in claims :: !c.Create?)
      && Loads(idOf, id, Read(j, bytes).value.claims + claims)
  }

  /** A crash between creating a log and writing its first byte leaves a log no claim can ever be added to. */
  lemma EmptyLogIsStuck(j: Json, idOf: Identity, id: Id, claims: seq<Claim>)
    ensures Read(j, []) == Success(ReadResult([], None)) && !Loads(idOf, id, [])
    ensures !Appendable(j, idOf, id, Some([]), claims)
  {
    if claims != [] {
      assert claims[0] in claims;
      assert [] + claims == claims;
    }
  }

  // ----- a crash inside the append of a new document -----

  lemma {:induction false} WholeAtBoundary(j: Json, claims: seq<Claim>, k: nat)
    requires k <= |claims|
    ensures |Records(j, claims[..k])| <= |Records(j, claims)|
    ensures WholeRecords(j, claims, |Records(j, claims[..k])|) == k
  {
    if claims != [] && k > 0 {
      WholeAtBoundary(j, claims[1..], k - 1);
      assert claims[..k][1..] == claims[1..][..k - 1];
    }
  }

  /** The canonical claims of a new document load from the create claim on. */
  lemma CanonicalAddPrefixLoads(idOf: Identity, name: string, hash: string, nonce: string, nonces: string -> string,
                                ts: string, k: nat)
    requires Loads(idOf, idOf(Create(2, nonce, ts)), Add(idOf, name, hash, nonce, nonces, ts)) && k <= 3
    ensures var id, batch := idOf(Create(2, nonce, ts)), Canonical(Add(idOf, name, hash, nonce, nonces, ts));
            |batch| == 3 && (k >= 1 <==> Loads(idOf, id, batch[..k]))
  {
    var add, id := Add(idOf, name, hash, nonce, nonces, ts), idOf(Create(2, nonce, ts));
    var create := Create(2, nonce, ts);
    CreateIsNormal(idOf, id, add);
    assert add == [create] + add[1..];
    CanonicalPrefix(add, k);
    if k >= 1 {
      CreateLoads(idOf, create);
      AddPrefixLoads(idOf, name, hash, nonce, nonces, ts, k);
      hide Loads, Loaded, IsNormal;
      assert add[..k] == [create] + add[1..k];
      LoadsCanonical(idOf, id, [create], add[1..k]);
      CanonicalOfCreate(create, add[1..k]);
    }
  }

  lemma CanonicalOfCreate(create: Claim, rest: seq<Claim>)
    requires IsNormal(create)
    ensures Canonical([create] + rest) == [create] + Canonical(rest)
  {
    assert ([create] + rest)[1..] == rest;
  }

  /** What a crash inside the append of a new document leaves: a document exactly when the create record is whole, and a
      log that takes further claims exactly when the cut is at the end of a record. */
  lemma CrashedAddLoads(j: Json, idOf: Identity, name: string, hash: string, nonce: string, nonces: string -> string,
                        ts: string, cut: nat)
    requires FaithfulJson(j)
    requires Loads(idOf, idOf(Create(2, nonce, ts)), Add(idOf, name, hash, nonce, nonces, ts))
    requires cut <= |Records(j, Canonical(Add(idOf, name, hash, nonce, nonces, ts)))|
    ensures var id, batch := idOf(Create(2, nonce, ts)), Canonical(Add(idOf, name, hash, nonce, nonces, ts));
            var file := Records(j, batch)[..cut];
            && |batch| == 3
            && (Read(j, file).Success? && Loads(idOf, id, Read(j, file).value.claims) <==>
                 cut >= |Terminate(j, batch[0])|)
            && (TakesClaims(j, idOf, id, file) <==> exists k :: 1 <= k <= 3 && cut == |Records(j, batch[..k])|)
  {
    var add, id := Add(idOf, name, hash, nonce, nonces, ts), idOf(Create(2, nonce, ts));
    var batch := Canonical(add);
    AcceptedIsNormal(idOf, add);
    CanonicalIsNormal(add);
    CanonicalAddPrefixLoads(idOf, name, hash, nonce, nonces, ts, 3);
    assert [] + Records(j, batch)[..cut] == Records(j, batch)[..cut];
    CutAppend(j, [], [], batch, cut);
    var k := WholeRecords(j, batch, cut);
    CanonicalAddPrefixLoads(idOf, name, hash, nonce, nonces, ts, k);
    assert [] + batch[..k] == batch[..k];
    CutNewLog(j, idOf, id, batch, cut);
  }

  /** Some claims can still be appended. */
  ghost predicate TakesClaims(j: Json, idOf: Identity, id: Id, file: seq<Byte>) {
    exists claims :: Appendable(j, idOf, id, Some(file), claims)
  }

  lemma CutNewLog(j: Json, idOf: Identity, id: Id, batch: seq<Claim>, cut: nat)
    requires cut <= |Records(j, batch)| && |batch| == 3
    requires Read(j, Records(j, batch)[..cut]) == AfterCut(j, [], [], batch, cut)
    requires var k := WholeRecords(j, batch, cut); k >= 1 <==> Loads(idOf, id, batch[..k])
    ensures var file := Records(j, batch)[..cut];
            && (Read(j, file).Success? && Loads(idOf, id, Read(j, file).value.claims) <==>
                 cut >= |Terminate(j, batch[0])|)
            && (TakesClaims(j, idOf, id, file) <==> exists k :: 1 <= k <= 3 && cut == |Records(j, batch[..k])|)
  {
    var k, file := WholeRecords(j, batch, cut), Records(j, batch)[..cut];
    assert [] + batch[..k] == batch[..k];
    assert k >= 1 <==> cut >= |Terminate(j, batch[0])|;
    if cut == |Records(j, batch[..k])| && k >= 1 {
      assert batch[..k] + [] == batch[..k];
      assert Appendable(j, idOf, id, Some(file), []);
    }
    forall i | 1 <= i <= 3 && cut == |Records(j, batch[..i])| ensures i == k {
      WholeAtBoundary(j, batch, i);
    }
    hide Read, Records, WholeRecords;
    if claims :| Appendable(j, idOf, id, Some(file), claims) {
      NoCreateNoLog(idOf, id, claims);
    }
  }

  /** A log cannot begin with anything but a create claim. */
  lemma NoCreateNoLog(idOf: Identity, id: Id, claims: seq<Claim>)
    requires forall c | c in claims :: !c.Create?
    ensures !Loads(idOf, id, [] + claims)
  {
    assert [] + claims == claims;
    assert claims != [] ==> claims[0] in claims;
  }

  /** Parsed claims followed by what the rest parses to. */
  function Continue(claims: seq<Claim>, rest: Result<seq<Claim>, LogError>): Result<seq<Claim>, LogError> {
    match rest
    case Failure(e) => Failure(e)
    case Success(more) => Success(claims + more)
  }

  lemma ContinueEmpty(rest: Result<seq<Claim>, LogError>)
    ensures Continue([], rest) == rest
  {
    if rest.Success? { assert [] + rest.value == rest.value; }
  }

  lemma ParseStep(j: Json, lines: seq<seq<Byte>>, index: nat, claims: seq<Claim>)
    requires lines != []
    ensures var line := j.decode(lines[0]);
            Continue(claims, Parse(j, lines, index)) ==
            if line.Bad? then Failure(CorruptLine(index + 1))
            else Continue(if line.Record? then claims + [line.claim] else claims, Parse(j, lines[1..], index + 1))
  {
    var line, rest := j.decode(lines[0]), Parse(j, lines[1..], index + 1);
    if line.Record? && rest.Success? {
      assert claims + ([line.claim] + rest.value) == (claims + [line.claim]) + rest.value;
    }
  }

  class LogFile {
    const id: Id
    var file: Option<seq<Byte>>

    constructor (id: Id)
      ensures this.id == id && file == None
    {
      this.id := id;
      file := None;
    }

    /** `read`: one pass over the lines. */
    method ReadLog(j: Json) returns (r: Result<ReadResult, LogError>)
      ensures r == Read(j, Content(file))
    {
      if file.None? || file.value == [] {
        return Success(ReadResult([], None));
      }
      var bytes := file.value;
      var unterminated := bytes[|bytes| - 1] != NEWLINE;
      var lines := Lines(bytes);
      var last := |lines| - 1;
      var terminated := lines[..last];
      var claims: seq<Claim> := [];
      var index := 0;
      ContinueEmpty(Parse(j, terminated, 0));
      assert terminated[0..] == terminated;
      while index < last
        invariant 0 <= index <= last
        invariant Parse(j, terminated, 0) == Continue(claims, Parse(j, terminated[index..], index))
      {
        assert terminated[index..][0] == lines[index] && terminated[index..][1..] == terminated[index + 1..];
        ParseStep(j, terminated[index..], index, claims);
        var parsed := j.decode(lines[index]);
        if parsed.Bad? {
          return Failure(CorruptLine(index + 1));
        }
        if parsed.Record? {
          claims := claims + [parsed.claim];
        }
        index := index + 1;
      }
      assert claims + [] == claims;
      if unterminated {
        if last == 0 {
          return Failure(CorruptLine(1));
        }
        return Success(ReadResult(claims, Some(last + 1)));
      }
      return Success(ReadResult(claims, None));
    }

    /** `append`, with a crash after `reach` bytes have become durable. */
    method Append(j: Json, idOf: Identity, claims: seq<Claim>, reach: nat) returns (outcome: Outcome)
      modifies this
      ensures outcome == Refused <==> !Appendable(j, idOf, id, old(file), claims)
      ensures outcome == Refused ==> file == old(file)
      ensures outcome != Refused ==>
                var bytes := Records(j, Canonical(claims));
                && (outcome == Appended <==> reach >= |bytes|)
                && file == Some(Content(old(file)) + if reach >= |bytes| then bytes else bytes[..reach])
    {
      var combined := claims;
      if file.Some? {
        var existing := ReadLog(j);
        if existing.Failure? || existing.value.tornTail.Some? || exists c | c in claims :: c.Create? {
          return Refused;
        }
        combined := existing.value.claims + claims;
      } else if claims == [] || !claims[0].Create? {
        return Refused;
      }
      var folded := FoldDocument(idOf, id, combined);
      if folded.Failure? {
        return Refused;
      }
      var bytes := EncodeAll(j, claims);
      if reach < |bytes| {
        file := Some(Content(file) + bytes[..reach]);
        return Interrupted;
      }
      file := Some(Content(file) + bytes);
      return Appended;
    }

    static method EncodeAll(j: Json, claims: seq<Claim>) returns (bytes: seq<Byte>)
      ensures bytes == Records(j, Canonical(claims))
    {
      bytes := [];
      var i := 0;
      while i < |claims|
        invariant 0 <= i <= |claims|
        invariant Records(j, Canonical(claims)) == bytes + Records(j, Canonical(claims[i..]))
      {
        assert claims[i..][0] == claims[i] && claims[i..][1..] == claims[i + 1..];
        var n := Normalized(claims[i]);
        var line := Terminate(j, if n.Success? then n.value else claims[i]);
        assert bytes + (line + Records(j, Canonical(claims[i + 1..]))) ==
               (bytes + line) + Records(j, Canonical(claims[i + 1..]));
        bytes := bytes + line;
        i := i + 1;
      }
    }
  }

  // ----- what reading means, for any file -----

  ghost predicate Whole(lines: seq<seq<Byte>>) {
    forall line | line in lines :: NEWLINE !in line
  }

  /** The lines, each with its newline. */
  ghost function Ended(lines: seq<seq<Byte>>): seq<Byte> {
    if lines == [] then [] else lines[0] + [NEWLINE] + Ended(lines[1..])
  }

  /** The claims of the lines that hold one, in order. */
  ghost function ClaimsOf(j: Json, lines: seq<seq<Byte>>): seq<Claim> {
    if lines == [] then []
    else
      match j.decode(lines[0])
      case Record(claim) => [claim] + ClaimsOf(j, lines[1..])
      case _ => ClaimsOf(j, lines[1..])
  }

  /** `n` is the first line that does not parse. */
  ghost predicate FirstBad(j: Json, lines: seq<seq<Byte>>, n: nat) {
    n < |lines| && j.decode(lines[n]).Bad? && forall i | 0 <= i < n :: !j.decode(lines[i]).Bad?
  }

  lemma {:induction false} LinesOfEnded(lines: seq<seq<Byte>>, tail: seq<Byte>)
    requires Whole(lines) && NEWLINE !in tail
    ensures Lines(Ended(lines) + tail) == lines + [tail]
    ensures Terminated(Ended(lines) + tail) <==> tail == []
  {
    if lines == [] {
      LinesOfFragment(tail);
      assert Ended(lines) + tail == tail;
      assert tail != [] ==> tail[|tail| - 1] in tail;
    } else {
      hide *;
      EndedStep(lines, tail);
      LinesOfEnded(lines[1..], tail);
      FirstLine(lines[0], Ended(lines[1..]) + tail);
      assert lines + [tail] == [lines[0]] + (lines[1..] + [tail]);
    }
  }

  lemma EndedStep(lines: seq<seq<Byte>>, tail: seq<Byte>)
    requires Whole(lines) && lines != []
    ensures Whole(lines[1..]) && NEWLINE !in lines[0]
    ensures Ended(lines) + tail == lines[0] + ([NEWLINE] + (Ended(lines[1..]) + tail))
    ensures Ended(lines[1..]) + tail == [] ==> tail == []
  {
    assert lines[0] in lines && forall line | line in lines[1..] :: line in lines;
    Regroup(lines[0], [NEWLINE], Ended(lines[1..]), tail);
  }

  lemma Regroup(a: seq<Byte>, b: seq<Byte>, c: seq<Byte>, d: seq<Byte>)
    ensures a + b + c + d == a + (b + (c + d))
    ensures c + d == [] ==> d == []
  {
  }

  /** One more whole line in front. */
  lemma FirstLine(line: seq<Byte>, rest: seq<Byte>)
    requires NEWLINE !in line
    ensures Lines(line + ([NEWLINE] + rest)) == [line] + Lines(rest)
    ensures Terminated(line + ([NEWLINE] + rest)) <==> rest == [] || Terminated(rest)
  {
    hide Lines;
    LinesAfterNewline(line, rest);
    LinesOfFragment(line);
  }

  lemma {:induction false} ParseMeans(j: Json, lines: seq<seq<Byte>>, index: nat)
    ensures forall n: nat | FirstBad(j, lines, n) :: Parse(j, lines, index) == Failure(CorruptLine(index + n + 1))
    ensures (forall line | line in lines :: !j.decode(line).Bad?) ==>
              Parse(j, lines, index) == Success(ClaimsOf(j, lines))
  {
    if lines != [] {
      ParseMeans(j, lines[1..], index + 1);
      assert lines == [lines[0]] + lines[1..];
      forall n: nat | FirstBad(j, lines, n) ensures Parse(j, lines, index) == Failure(CorruptLine(index + n + 1)) {
        if n > 0 {
          assert FirstBad(j, lines[1..], n - 1) by {
            forall i | 0 <= i < n - 1 ensures !j.decode(lines[1..][i]).Bad? {
              assert lines[1..][i] == lines[i + 1];
            }
          }
        }
      }
    }
  }

  /** Reading a file of whole lines and a tail fails at the first line that does not parse, whatever follows it. Without
      one it gives the claims of the lines, and reports a tail as torn, but for a file that has no line before it. */
  lemma ReadMeans(j: Json, lines: seq<seq<Byte>>, tail: seq<Byte>)
    requires Whole(lines) && NEWLINE !in tail
    ensures var read := Read(j, Ended(lines) + tail);
            && (forall n: nat | FirstBad(j, lines, n) :: read == Failure(CorruptLine(n + 1)))
            && ((forall line | line in lines :: !j.decode(line).Bad?) ==>
                  read == if tail == [] then Success(ReadResult(ClaimsOf(j, lines), None))
                          else if lines == [] then Failure(CorruptLine(1))
                          else Success(ReadResult(ClaimsOf(j, lines), Some(|lines| + 1))))
  {
    LinesOfEnded(lines, tail);
    ParseMeans(j, lines, 0);
    hide Lines, Parse, ClaimsOf;
    assert (lines + [tail])[..|lines|] == lines;
    if lines == [] && tail == [] {
      assert Ended(lines) + tail == [];
      NoLines(j);
    }
  }

  lemma NoLines(j: Json)
    ensures ClaimsOf(j, []) == []
  {
  }

  /** Every file is whole lines and a tail. */
  lemma {:induction false} FileIsLines(bytes: seq<Byte>) returns (lines: seq<seq<Byte>>, tail: seq<Byte>)
    ensures Whole(lines) && NEWLINE !in tail && bytes == Ended(lines) + tail
  {
    if bytes == [] {
      lines, tail := [], [];
    } else {
      lines, tail := FileIsLines(bytes[1..]);
      var first := bytes[0];
      assert bytes == [first] + bytes[1..];
      if first == NEWLINE {
        lines := [[]] + lines;
        assert lines[1..] + [] == lines[1..];
        assert bytes == [] + [NEWLINE] + Ended(lines[1..]) + tail;
      } else if lines == [] {
        tail := [first] + tail;
      } else {
        var joined := [[first] + lines[0]] + lines[1..];
        assert lines[0] in lines && joined[1..] == lines[1..];
        assert Ended(joined) == [first] + Ended(lines);
        assert forall line | line in joined :: line == joined[0] || line in lines;
        lines := joined;
      }
    }
  }

  /** A damaged line is reported as such, however many whole records stand before and after it. */
  lemma DamagedLineIsReported(j: Json, claims: seq<Claim>, line: seq<Byte>, rest: seq<Byte>)
    requires FaithfulJson(j) && (forall c | c in claims :: IsNormal(c)) && NEWLINE !in line && j.decode(line).Bad?
    ensures Read(j, Records(j, claims) + line + [NEWLINE] + rest) == Failure(CorruptLine(|claims| + 1))
  {
    hide *;
    var before := EncodedLines(j, claims);
    var after, tail := FileIsLines(rest);
    DamagedFile(j, before, line, after, tail);
    ReadMeans(j, before + [line] + after, tail);
  }

  lemma DamagedFile(j: Json, before: seq<seq<Byte>>, line: seq<Byte>, after: seq<seq<Byte>>, tail: seq<Byte>)
    requires Whole(before) && Whole(after) && NEWLINE !in line && j.decode(line).Bad?
    requires forall line | line in before :: !j.decode(line).Bad?
    ensures var lines := before + [line] + after;
            && Whole(lines) && FirstBad(j, lines, |before|)
            && Ended(lines) + tail == Ended(before) + line + [NEWLINE] + (Ended(after) + tail)
  {
    EndedAppend(before, [line] + after);
    assert before + ([line] + after) == before + [line] + after && ([line] + after)[1..] == after;
    assert Ended([line] + after) == line + [NEWLINE] + Ended(after);
  }

  lemma {:induction false} EncodedLines(j: Json, claims: seq<Claim>) returns (lines: seq<seq<Byte>>)
    requires FaithfulJson(j) && forall c | c in claims :: IsNormal(c)
    ensures Whole(lines) && |lines| == |claims| && Ended(lines) == Records(j, claims)
    ensures forall line | line in lines :: !j.decode(line).Bad?
  {
    hide FaithfulJson, IsNormal;
    lines := [];
    if claims != [] {
      assert claims[0] in claims;
      EncodedIsLine(j, claims[0]);
      var rest := EncodedLines(j, claims[1..]);
      lines := [j.encode(claims[0])] + rest;
      assert lines[1..] == rest;
    }
  }

  lemma {:induction false} EndedAppend(a: seq<seq<Byte>>, b: seq<seq<Byte>>)
    ensures Ended(a + b) == Ended(a) + Ended(b)
  {
    if a == [] {
      assert a + b == b;
    } else {
      assert (a + b)[1..] == a[1..] + b;
      EndedAppend(a[1..], b);
    }
  }

  /** A torn tail is reported exactly for a file that reads and does not end in a newline, and at its last line. */
  lemma TornTailMeans(j: Json, bytes: seq<Byte>)
    requires Read(j, bytes).Success?
    ensures Read(j, bytes).value.tornTail.Some? <==> bytes != [] && bytes[|bytes| - 1] != NEWLINE
    ensures Read(j, bytes).value.tornTail.Some? ==> Read(j, bytes).value.tornTail.value == |Lines(bytes)| > 1
  {
  }
}
