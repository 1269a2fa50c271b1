/**
 The tamper-evident audit chain of `src/audit_chain.rs`. SHA-256, HMAC and the
 texts of times and events are parameters; where a digest is claimed to pin its
 input, the alternative is a pair of different inputs with one digest.
 */
module AuditChain {
  import opened Options
  import opened Encoding
  import opened Merkle

  type U64 = n: int | 0 <= n < 0x1_0000_0000_0000_0000

  datatype AuditEvent = AuditEvent(
    eventId: string, timestamp: int, eventType: string, severity: string, actor: string,
    target: string, outcome: string, action: string, details: string)

  datatype AuditRecord = AuditRecord(
    sequence: U64, timestamp: int, event: AuditEvent, prevHash: Bytes, recordHash: Bytes, signature: Option<Bytes>)

  const OPEN_BRACE: Byte := 123

  /** The functions the chain is built on. */
  datatype Env = Env(
    sha: Hash, timeText: int -> Bytes, eventJson: AuditEvent -> Bytes, hmac: (Bytes, Bytes) -> Bytes)
  {
    /**
     Digests have 32 bytes; times and events are printed injectively and
     without a zero byte; a time holds no brace and an event, printed as a JSON
     object, begins with one.
     */
    ghost predicate Sound() {
      && Digests(sha)
      && (forall t: int :: OPEN_BRACE !in timeText(t) && 0 !in timeText(t))
      && (forall t: int, u: int | timeText(t) == timeText(u) :: t == u)
      && (forall e: AuditEvent :: eventJson(e) != [] && eventJson(e)[0] == OPEN_BRACE && 0 !in eventJson(e))
      && (forall e: AuditEvent, f: AuditEvent | eventJson(e) == eventJson(f) :: e == f)
    }
  }

  // ---------------------------------------------------------------------------
  // Record hashes
  // ---------------------------------------------------------------------------

  /** The bytes hashed for a record. */
  function HashInput(env: Env, prevHash: Bytes, sequence: U64, timestamp: int, event: AuditEvent): Bytes {
    prevHash + (BigEndian(sequence, 8) + (env.timeText(timestamp) + env.eventJson(event)))
  }

  function InputOf(env: Env, r: AuditRecord): Bytes {
    HashInput(env, r.prevHash, r.sequence, r.timestamp, r.event)
  }

  function RecordHash(env: Env, prevHash: Bytes, sequence: U64, timestamp: int, event: AuditEvent): Bytes {
    HexEncode(env.sha(HashInput(env, prevHash, sequence, timestamp, event)))
  }

  /** The concatenation is unambiguous: equal inputs have equal fields. */
  lemma FramingIsUnambiguous(env: Env, a: AuditRecord, b: AuditRecord)
    requires env.Sound() && |a.prevHash| == |b.prevHash| && InputOf(env, a) == InputOf(env, b)
    ensures a.prevHash == b.prevHash && a.sequence == b.sequence && a.timestamp == b.timestamp && a.event == b.event
  {
    var ta, tb := env.timeText(a.timestamp), env.timeText(b.timestamp);
    var ja, jb := env.eventJson(a.event), env.eventJson(b.event);
    var sa, sb := BigEndian(a.sequence, 8), BigEndian(b.sequence, 8);
    ConcatSplit(a.prevHash, sa + (ta + ja), b.prevHash, sb + (tb + jb));
    ConcatSplit(sa, ta + ja, sb, tb + jb);
    DelimitedSplit(ta, ja, tb, jb, OPEN_BRACE);
    WordBound();
    BigEndianInjective(a.sequence, b.sequence, 8);
  }

  lemma WordBound()
    ensures Pow256(8) == 0x1_0000_0000_0000_0000
  {
  }

  /** After a digest as previous hash, a zero byte can only stand in the sequence number. */
  lemma OnlyTheWordHasZeros(env: Env, r: AuditRecord, i: nat)
    requires env.Sound() && IsDigestText(r.prevHash) && i < |InputOf(env, r)| && !(64 <= i < 72)
    ensures InputOf(env, r)[i] != 0
  {
    DigestTextDecodes(r.prevHash);
    HexHoldsNoZero(Decoded(r.prevHash));
    var word, text := BigEndian(r.sequence, 8), env.timeText(r.timestamp) + env.eventJson(r.event);
    assert InputOf(env, r) == r.prevHash + (word + text);
    if i < 64 {
      assert InputOf(env, r)[i] in r.prevHash;
    } else {
      assert InputOf(env, r)[i] == text[i - 72];
      assert text[i - 72] in env.timeText(r.timestamp) || text[i - 72] in env.eventJson(r.event);
    }
  }

  /** A first record, whatever its genesis, is never hashed like a later one. */
  lemma FirstInputIsApart(env: Env, a: AuditRecord, b: AuditRecord)
    requires env.Sound() && a.sequence == 0 && b.sequence > 0 && IsDigestText(b.prevHash)
    ensures InputOf(env, a) != InputOf(env, b)
  {
    if InputOf(env, a) == InputOf(env, b) {
      var p := |a.prevHash|;
      ZeroWord(8);
      assert InputOf(env, a)[p] == BigEndian(0, 8)[0] && InputOf(env, a)[p + 7] == BigEndian(0, 8)[7];
      if !(64 <= p < 72) { OnlyTheWordHasZeros(env, b, p); }
      if !(64 <= p + 7 < 72) { OnlyTheWordHasZeros(env, b, p + 7); }
      DigestTextDecodes(b.prevHash);
      FramingIsUnambiguous(env, a, b);
    }
  }

  // ---------------------------------------------------------------------------
  // Verification
  // ---------------------------------------------------------------------------

  datatype TamperType =
    | BrokenHashLink | PayloadMutation | SequenceMismatch | NonMonotonicTimestamp | GenesisMismatch | InvalidSignature

  /** The hash the record at `i` must link back to. */
  function PrevOf(records: seq<AuditRecord>, genesis: Bytes, i: nat): Bytes
    requires i <= |records|
  {
    if i == 0 then genesis else records[i - 1].recordHash
  }

  /** The first check that the record at `i` fails, in the order they are made. */
  function Fault(env: Env, records: seq<AuditRecord>, genesis: Bytes, i: nat): Option<TamperType>
    requires i < |records|
  {
    var r := records[i];
    if r.sequence != i then Some(SequenceMismatch)
    else if r.prevHash != PrevOf(records, genesis, i) then Some(if i == 0 then GenesisMismatch else BrokenHashLink)
    else if i > 0 && r.timestamp < records[i - 1].timestamp then Some(NonMonotonicTimestamp)
    else if RecordHash(env, r.prevHash, r.sequence, r.timestamp, r.event) != r.recordHash then Some(PayloadMutation)
    else None
  }

  /** Which fault is named, by the first thing that is wrong with the record. */
  lemma FaultNames(env: Env, records: seq<AuditRecord>, genesis: Bytes, i: nat)
    requires i < |records|
    ensures var r, f := records[i], Fault(env, records, genesis, i);
            && (f == Some(SequenceMismatch) <==> r.sequence != i)
            && (f == Some(GenesisMismatch) <==> r.sequence == i && i == 0 && r.prevHash != genesis)
            && (f == Some(BrokenHashLink) <==> r.sequence == i && i > 0 && r.prevHash != records[i - 1].recordHash)
            && (f == Some(NonMonotonicTimestamp) ==> i > 0 && r.timestamp < records[i - 1].timestamp)
            && (f == Some(PayloadMutation) ==> r.recordHash != HexEncode(env.sha(InputOf(env, r))))
            && f != Some(InvalidSignature)
  {
  }

  ghost predicate Verifies(env: Env, records: seq<AuditRecord>, genesis: Bytes) {
    forall i | 0 <= i < |records| :: Fault(env, records, genesis, i) == None
  }

  /** The record at `k` is the first with a fault. */
  ghost predicate FirstFault(env: Env, records: seq<AuditRecord>, genesis: Bytes, k: nat) {
    && k < |records| && Fault(env, records, genesis, k).Some?
    && forall i | 0 <= i < k :: Fault(env, records, genesis, i) == None
  }

  /** The bytes of "seq:". */
  const SEQ: Bytes := [115, 101, 113, COLON]

  /** What the check that the record at `i` fails would have wanted to find, and what it found. */
  function Evidence(env: Env, records: seq<AuditRecord>, genesis: Bytes, i: nat): (Bytes, Bytes)
    requires i < |records|
  {
    var r := records[i];
    if r.sequence != i then (SEQ + Decimal(i), SEQ + Decimal(r.sequence))
    else if r.prevHash != PrevOf(records, genesis, i) then (PrevOf(records, genesis, i), r.prevHash)
    else if i > 0 && r.timestamp < records[i - 1].timestamp then
      (env.timeText(records[i - 1].timestamp), env.timeText(r.timestamp))
    else (RecordHash(env, r.prevHash, r.sequence, r.timestamp, r.event), r.recordHash)
  }

  /** A record has a fault exactly when what was wanted and what was found differ. */
  lemma EvidenceShowsFault(env: Env, records: seq<AuditRecord>, genesis: Bytes, i: nat)
    requires env.Sound() && i < |records|
    ensures Fault(env, records, genesis, i).Some? <==>
              Evidence(env, records, genesis, i).0 != Evidence(env, records, genesis, i).1
  {
    var r := records[i];
    if SEQ + Decimal(i) == SEQ + Decimal(r.sequence) {
      ConcatSplit(SEQ, Decimal(i), SEQ, Decimal(r.sequence));
      DecimalInjective(i, r.sequence);
    }
  }

  ghost function ErrorAt(env: Env, records: seq<AuditRecord>, genesis: Bytes, k: nat): TamperError
    requires FirstFault(env, records, genesis, k)
  {
    var e := Evidence(env, records, genesis, k);
    TamperError(records[k].sequence, Fault(env, records, genesis, k).value, e.0, e.1)
  }

  /** The error names the record's number, and for each fault what should have been there and what was. */
  ghost predicate NamesFault(env: Env, records: seq<AuditRecord>, genesis: Bytes, k: nat, e: TamperError)
    requires k < |records|
  {
    var r := records[k];
    && e.sequence == r.sequence
    && match e.errorType
       case SequenceMismatch => e.expectedHash == SEQ + Decimal(k) && e.actualHash == SEQ + Decimal(r.sequence)
       case GenesisMismatch => k == 0 && e.expectedHash == genesis && e.actualHash == r.prevHash
       case BrokenHashLink => k > 0 && e.expectedHash == records[k - 1].recordHash && e.actualHash == r.prevHash
       case NonMonotonicTimestamp =>
         k > 0 && e.expectedHash == env.timeText(records[k - 1].timestamp) && e.actualHash == env.timeText(r.timestamp)
       case PayloadMutation =>
         e.expectedHash == HexEncode(env.sha(InputOf(env, r))) && e.actualHash == r.recordHash
       case InvalidSignature => false
  }

  lemma ErrorNamesFault(env: Env, records: seq<AuditRecord>, genesis: Bytes, k: nat)
    requires FirstFault(env, records, genesis, k)
    ensures NamesFault(env, records, genesis, k, ErrorAt(env, records, genesis, k))
  {
  }

  datatype Summary =
    Summary(totalRecords: nat, genesisHash: Bytes, headHash: Bytes, startSequence: int, endSequence: int)
  datatype TamperError = TamperError(sequence: int, errorType: TamperType, expectedHash: Bytes, actualHash: Bytes)
  datatype Verification = Intact(summary: Summary) | Tampered(error: TamperError)

  /** `verify_audit_chain`: succeeds on exactly the intact lists, and reports the first fault otherwise. */
  method VerifyAuditChain(env: Env, records: seq<AuditRecord>, genesis: Bytes) returns (r: Verification)
    ensures r.Intact? <==> Verifies(env, records, genesis)
    ensures r.Intact? && records != [] ==>
              r.summary == Summary(|records|, genesis, HeadHash(records, genesis), 0, |records| - 1)
    ensures r.Intact? && records == [] ==> r.summary == Summary(0, genesis, genesis, 0, 0)
    ensures r.Tampered? ==>
              exists k: nat :: FirstFault(env, records, genesis, k) && r.error == ErrorAt(env, records, genesis, k)
                               && NamesFault(env, records, genesis, k, r.error)
  {
    if |records| == 0 { return Intact(Summary(0, genesis, genesis, 0, 0)); }
    var prevHash := genesis;
    var prevTimestamp := records[0].timestamp - 1_000_000_000;
    for idx := 0 to |records|
      invariant forall i | 0 <= i < idx :: Fault(env, records, genesis, i) == None
      invariant prevHash == PrevOf(records, genesis, idx)
      invariant if idx == 0 then prevTimestamp < records[0].timestamp else prevTimestamp == records[idx - 1].timestamp
    {
      var record := records[idx];
      assert Fault(env, records, genesis, idx).Some? ==> FirstFault(env, records, genesis, idx);
      if Fault(env, records, genesis, idx).Some? { ErrorNamesFault(env, records, genesis, idx); }
      if record.sequence != idx {
        return Tampered(
            TamperError(record.sequence, SequenceMismatch, SEQ + Decimal(idx), SEQ + Decimal(record.sequence)));
      }
      if record.prevHash != prevHash {
        var errorType := if idx == 0 then GenesisMismatch else BrokenHashLink;
        return Tampered(TamperError(record.sequence, errorType, prevHash, record.prevHash));
      }
      if record.timestamp < prevTimestamp {
        return Tampered(
            TamperError(
              record.sequence, NonMonotonicTimestamp, env.timeText(prevTimestamp), env.timeText(record.timestamp)));
      }
      var computed := RecordHash(env, record.prevHash, record.sequence, record.timestamp, record.event);
      if computed != record.recordHash {
        return Tampered(TamperError(record.sequence, PayloadMutation, computed, record.recordHash));
      }
      prevHash := record.recordHash;
      prevTimestamp := record.timestamp;
    }
    assert Fault(env, records, genesis, 0) == Fault(env, records, genesis, |records| - 1) == None;
    var last := records[|records| - 1];
    r := Intact(Summary(|records|, genesis, last.recordHash, records[0].sequence, last.sequence));
  }

  function HeadHash(records: seq<AuditRecord>, genesis: Bytes): Bytes {
    PrevOf(records, genesis, |records|)
  }

  /** Every prefix of an intact list is intact. */
  lemma PrefixVerifies(env: Env, records: seq<AuditRecord>, genesis: Bytes, n: nat)
    requires Verifies(env, records, genesis) && n <= |records|
    ensures Verifies(env, records[..n], genesis)
  {
    forall i | 0 <= i < n ensures Fault(env, records[..n], genesis, i) == None {
      assert Fault(env, records, genesis, i) == None;
    }
  }

  // ---------------------------------------------------------------------------
  // Binding
  // ---------------------------------------------------------------------------

  /** Equal in every field except the signature, which the hash does not cover. */
  ghost predicate SameContent(a: AuditRecord, b: AuditRecord) {
    a.(signature := None) == b.(signature := None)
  }

  ghost predicate SameChain(a: seq<AuditRecord>, b: seq<AuditRecord>) {
    |a| == |b| && forall i | 0 <= i < |a| :: SameContent(a[i], b[i])
  }

  /** Record `i` of `a` and record `j` of `b` are different hash inputs with one digest. */
  ghost predicate RecordsCollide(env: Env, a: seq<AuditRecord>, b: seq<AuditRecord>, i: nat, j: nat) {
    i < |a| && j < |b| && Collision(env.sha, InputOf(env, a[i]), InputOf(env, b[j]))
  }

  lemma IntactRecord(env: Env, records: seq<AuditRecord>, genesis: Bytes, i: nat)
    requires env.Sound() && Verifies(env, records, genesis) && i < |records|
    ensures records[i].sequence == i
    ensures records[i].prevHash == PrevOf(records, genesis, i)
    ensures records[i].recordHash == HexEncode(env.sha(InputOf(env, records[i])))
    ensures i > 0 ==> IsDigestText(records[i].prevHash)
  {
    assert Fault(env, records, genesis, i) == None;
    if i > 0 { assert Fault(env, records, genesis, i - 1) == None; }
  }

  /** Two intact records with one hash have one content, or collide. */
  lemma RecordBinds(env: Env, a: seq<AuditRecord>, b: seq<AuditRecord>, genesis: Bytes, i: nat, j: nat)
    requires env.Sound() && Verifies(env, a, genesis) && Verifies(env, b, genesis)
    requires i < |a| && j < |b| && a[i].recordHash == b[j].recordHash
    ensures (i == j && SameContent(a[i], b[j])) || RecordsCollide(env, a, b, i, j)
  {
    IntactRecord(env, a, genesis, i);
    IntactRecord(env, b, genesis, j);
    HexInjective(env.sha(InputOf(env, a[i])), env.sha(InputOf(env, b[j])));
    if i == 0 && j == 0 {
      if InputOf(env, a[i]) == InputOf(env, b[j]) { FramingIsUnambiguous(env, a[i], b[j]); }
    } else if i == 0 {
      FirstInputIsApart(env, a[i], b[j]);
    } else if j == 0 {
      FirstInputIsApart(env, b[j], a[i]);
    } else {
      DigestTextDecodes(a[i].prevHash);
      DigestTextDecodes(b[j].prevHash);
      if InputOf(env, a[i]) == InputOf(env, b[j]) { FramingIsUnambiguous(env, a[i], b[j]); }
    }
  }

  lemma {:induction false} PrefixBinds(env: Env, a: seq<AuditRecord>, b: seq<AuditRecord>, genesis: Bytes, n: nat)
    returns (k: nat)
    requires env.Sound() && Verifies(env, a, genesis) && Verifies(env, b, genesis)
    requires 0 < n <= |a| && n <= |b| && a[n - 1].recordHash == b[n - 1].recordHash
    ensures (forall i | 0 <= i < n :: SameContent(a[i], b[i])) || RecordsCollide(env, a, b, k, k)
  {
    k := n - 1;
    RecordBinds(env, a, b, genesis, k, k);
    if !RecordsCollide(env, a, b, k, k) && n > 1 {
      IntactRecord(env, a, genesis, k);
      IntactRecord(env, b, genesis, k);
      k := PrefixBinds(env, a, b, genesis, n - 1);
    }
  }

  /**
   Two non-empty intact lists over one genesis with the same head are the same
   chain, or two of their records are different inputs with one digest. So an
   edit, a deletion or a reordering that keeps the head is caught.
   */
  lemma HeadPinsChain(env: Env, a: seq<AuditRecord>, b: seq<AuditRecord>, genesis: Bytes) returns (i: nat, j: nat)
    requires env.Sound() && Verifies(env, a, genesis) && Verifies(env, b, genesis)
    requires a != [] && b != [] && HeadHash(a, genesis) == HeadHash(b, genesis)
    ensures SameChain(a, b) || RecordsCollide(env, a, b, i, j)
  {
    i, j := |a| - 1, |b| - 1;
    RecordBinds(env, a, b, genesis, i, j);
    if !RecordsCollide(env, a, b, i, j) {
      i := PrefixBinds(env, a, b, genesis, |a|);
      j := i;
    }
  }

  /** Signatures are outside the chain: replacing them goes unnoticed by verification. */
  lemma SignaturesAreNotCovered(env: Env, a: seq<AuditRecord>, b: seq<AuditRecord>, genesis: Bytes)
    requires Verifies(env, a, genesis) && SameChain(a, b)
    ensures Verifies(env, b, genesis)
  {
    forall i | 0 <= i < |b| ensures Fault(env, b, genesis, i) == None {
      assert Fault(env, a, genesis, i) == None && SameContent(a[i], b[i]);
      if i > 0 { assert SameContent(a[i - 1], b[i - 1]); }
    }
  }

  // ---------------------------------------------------------------------------
  // Appending
  // ---------------------------------------------------------------------------

  /** The record `append` adds when the clock reads `now`. */
  function NewRecord(
    env: Env, records: seq<AuditRecord>, genesis: Bytes, secret: Option<Bytes>, event: AuditEvent, now: int): AuditRecord
    requires |records| < 0x1_0000_0000_0000_0000
  {
    var prevHash := HeadHash(records, genesis);
    var hash := RecordHash(env, prevHash, |records|, now, event);
    AuditRecord(|records|, now, event, prevHash, hash,
                match secret case Some(key) => Some(env.hmac(hash, key)) case None => None)
  }

  /** A chain is intact after appending if and only if it was intact and the clock has not gone back. */
  lemma AppendVerifies(
    env: Env, records: seq<AuditRecord>, genesis: Bytes, secret: Option<Bytes>, event: AuditEvent, now: int)
    requires |records| < 0x1_0000_0000_0000_0000
    ensures Verifies(env, records + [NewRecord(env, records, genesis, secret, event, now)], genesis)
       <==> Verifies(env, records, genesis) && (records != [] ==> records[|records| - 1].timestamp <= now)
  {
    var all := records + [NewRecord(env, records, genesis, secret, event, now)];
    assert forall i | 0 <= i < |records| :: Fault(env, all, genesis, i) == Fault(env, records, genesis, i);
    assert PrevOf(all, genesis, |records|) == HeadHash(records, genesis);
    assert Fault(env, all, genesis, |records|) == None <==> (records != [] ==> records[|records| - 1].timestamp <= now);
  }

  // ---------------------------------------------------------------------------
  // Signatures
  // ---------------------------------------------------------------------------

  /** What the signature of a record must be: the key's code of the record's own hash, or nothing without a key. */
  ghost predicate SignedBy(env: Env, r: AuditRecord, secret: Option<Bytes>) {
    match secret
    case Some(key) => r.signature == Some(env.hmac(r.recordHash, key))
    case None => r.signature == None
  }

  ghost predicate AllSigned(env: Env, records: seq<AuditRecord>, secret: Option<Bytes>) {
    forall i | 0 <= i < |records| :: SignedBy(env, records[i], secret)
  }

  datatype Entry = Entry(event: AuditEvent, now: int)

  /** The records of a chain to which the entries were appended one after the other. */
  function Built(env: Env, genesis: Bytes, secret: Option<Bytes>, entries: seq<Entry>): (r: seq<AuditRecord>)
    requires |entries| < 0x1_0000_0000_0000_0000
    ensures |r| == |entries|
  {
    if entries == [] then []
    else
      var before, last := Built(env, genesis, secret, entries[..|entries| - 1]), entries[|entries| - 1];
      before + [NewRecord(env, before, genesis, secret, last.event, last.now)]
  }

  /** A new record holds what was appended, in its place, linked to the head and hashed and signed over itself. */
  lemma NewRecordIsGenuine(
    env: Env, records: seq<AuditRecord>, genesis: Bytes, secret: Option<Bytes>, event: AuditEvent, now: int)
    requires |records| < 0x1_0000_0000_0000_0000
    ensures var r := NewRecord(env, records, genesis, secret, event, now);
            && r.event == event && r.timestamp == now && r.sequence == |records|
            && r.prevHash == (if records == [] then genesis else records[|records| - 1].recordHash)
            && r.recordHash == HexEncode(env.sha(InputOf(env, r))) && SignedBy(env, r, secret)
  {
  }

  /** In every chain built by appending, each record holds its entry and its signature checks against its own hash. */
  lemma {:induction false} BuiltIsSigned(env: Env, genesis: Bytes, secret: Option<Bytes>, entries: seq<Entry>)
    requires |entries| < 0x1_0000_0000_0000_0000
    ensures var records := Built(env, genesis, secret, entries);
            && AllSigned(env, records, secret)
            && forall i | 0 <= i < |entries| ::
                 records[i].event == entries[i].event && records[i].timestamp == entries[i].now
                 && records[i].recordHash == HexEncode(env.sha(InputOf(env, records[i])))
  {
    if entries != [] {
      var n := |entries| - 1;
      var before := Built(env, genesis, secret, entries[..n]);
      BuiltIsSigned(env, genesis, secret, entries[..n]);
      NewRecordIsGenuine(env, before, genesis, secret, entries[n].event, entries[n].now);
    }
  }

  /** A pair of different texts with one code under one key. */
  ghost predicate HmacCollision(env: Env, key: Bytes, x: Bytes, y: Bytes) {
    x != y && env.hmac(x, key) == env.hmac(y, key)
  }

  /**
   Two records, of any chains of any clusters built by appending under one key, that bear one
   signature have one content and one hash, or their hashes collide under the key,
   or what was hashed for them collides.
   */
  lemma SignatureBinds(
    env: Env, genesis: Bytes, genesis': Bytes, key: Bytes, entries: seq<Entry>, entries': seq<Entry>, i: nat, j: nat)
    requires env.Sound() && IsDigestText(genesis) && IsDigestText(genesis')
    requires i < |entries| < 0x1_0000_0000_0000_0000 && j < |entries'| < 0x1_0000_0000_0000_0000
    requires Built(env, genesis, Some(key), entries)[i].signature == Built(env, genesis', Some(key), entries')[j].signature
    ensures var a, b := Built(env, genesis, Some(key), entries)[i], Built(env, genesis', Some(key), entries')[j];
            a == b || HmacCollision(env, key, a.recordHash, b.recordHash)
            || Collision(env.sha, InputOf(env, a), InputOf(env, b))
  {
    var x, y := Built(env, genesis, Some(key), entries), Built(env, genesis', Some(key), entries');
    BuiltIsSigned(env, genesis, Some(key), entries);
    BuiltIsSigned(env, genesis', Some(key), entries');
    if x[i].recordHash == y[j].recordHash {
      HexInjective(env.sha(InputOf(env, x[i])), env.sha(InputOf(env, y[j])));
      BuiltLinks(env, genesis, Some(key), entries, i);
      BuiltLinks(env, genesis', Some(key), entries', j);
      if InputOf(env, x[i]) == InputOf(env, y[j]) { FramingIsUnambiguous(env, x[i], y[j]); }
    }
  }

  lemma LastLinks(env: Env, genesis: Bytes, secret: Option<Bytes>, before: seq<AuditRecord>, e: Entry)
    requires env.Sound() && IsDigestText(genesis) && |before| < 0x1_0000_0000_0000_0000
    requires before != [] ==> |before[|before| - 1].recordHash| == 64
    ensures |NewRecord(env, before, genesis, secret, e.event, e.now).prevHash| == 64
  {
    NewRecordIsGenuine(env, before, genesis, secret, e.event, e.now);
    DigestTextDecodes(genesis);
  }

  lemma {:induction false} BuiltLinks(env: Env, genesis: Bytes, secret: Option<Bytes>, entries: seq<Entry>, i: nat)
    requires env.Sound() && IsDigestText(genesis) && i < |entries| < 0x1_0000_0000_0000_0000
    ensures |Built(env, genesis, secret, entries)[i].prevHash| == 64
  {
    var n := |entries| - 1;
    var before := Built(env, genesis, secret, entries[..n]);
    if i < n {
      BuiltLinks(env, genesis, secret, entries[..n], i);
    } else {
      BuiltIsSigned(env, genesis, secret, entries[..n]);
      LastLinks(env, genesis, secret, before, entries[n]);
    }
  }

  // ---------------------------------------------------------------------------
  // Checkpoints
  // ---------------------------------------------------------------------------

  function Leaves(records: seq<AuditRecord>): (r: seq<Bytes>)
    ensures |r| == |records|
    ensures forall i | 0 <= i < |records| :: r[i] == records[i].recordHash
  {
    seq(|records|, i requires 0 <= i < |records| => records[i].recordHash)
  }

  /** The text a checkpoint signs: start, end, Merkle root and head. */
  function SigningMaterial(env: Env, records: seq<AuditRecord>, genesis: Bytes): Bytes
    requires records != []
  {
    Decimal(0) + ([COLON] + (Decimal(|records| - 1) + ([COLON] + (RootText(env.sha, Leaves(records))
      + ([COLON] + HeadHash(records, genesis))))))
  }

  lemma RootTextLength(h: Hash, leaves: seq<Bytes>)
    requires Digests(h) && leaves != [] && forall s | s in leaves :: IsDigestText(s)
    ensures |RootText(h, leaves)| == 64
  {
    if |leaves| == 1 {
      assert leaves[0] in leaves;
      DigestTextDecodes(leaves[0]);
    } else {
      RootLength(h, Level(h, DecodedAll(leaves)));
    }
  }

  lemma {:induction false} RootLength(h: Hash, l: seq<Bytes>)
    requires Digests(h) && l != [] && (Nodes(l) || |l| > 1)
    ensures |Root(h, l)| == 32
    decreases |l|
  {
    if |l| == 1 {
      assert l[0] in l;
    } else {
      LevelNodes(h, l);
      RootLength(h, Level(h, l));
    }
  }

  /** Equal signing material has equal end, root and head. */
  lemma MaterialFields(env: Env, a: seq<AuditRecord>, b: seq<AuditRecord>, g: Bytes, g': Bytes)
    requires a != [] && b != [] && SigningMaterial(env, a, g) == SigningMaterial(env, b, g')
    requires |RootText(env.sha, Leaves(a))| == |RootText(env.sha, Leaves(b))|
    ensures |a| == |b|
    ensures RootText(env.sha, Leaves(a)) == RootText(env.sha, Leaves(b))
    ensures HeadHash(a, g) == HeadHash(b, g')
  {
    var ra, rb := RootText(env.sha, Leaves(a)), RootText(env.sha, Leaves(b));
    var ta, tb := [COLON] + HeadHash(a, g), [COLON] + HeadHash(b, g');
    var na, nb := Decimal(|a| - 1), Decimal(|b| - 1);
    var ua, ub := [COLON] + (ra + ta), [COLON] + (rb + tb);
    ConcatSplit(Decimal(0), [COLON] + (na + ua), Decimal(0), [COLON] + (nb + ub));
    ConcatSplit([COLON], na + ua, [COLON], nb + ub);
    DelimitedSplit(na, ua, nb, ub, COLON);
    DecimalInjective(|a| - 1, |b| - 1);
    ConcatSplit([COLON], ra + ta, [COLON], rb + tb);
    ConcatSplit(ra, ta, rb, tb);
    ConcatSplit([COLON], HeadHash(a, g), [COLON], HeadHash(b, g'));
  }

  lemma {:induction false} IntactLeaves(env: Env, records: seq<AuditRecord>, genesis: Bytes)
    requires env.Sound() && Verifies(env, records, genesis)
    ensures forall s | s in Leaves(records) :: IsDigestText(s)
  {
    forall s | s in Leaves(records) ensures IsDigestText(s) {
      var i :| 0 <= i < |records| && Leaves(records)[i] == s;
      IntactRecord(env, records, genesis, i);
    }
  }

  /**
   A checkpoint pins the number of records and, up to an exhibited collision in
   the Merkle tree, every record hash, whether or not the lists verify.
   */
  lemma CheckpointPinsHashes(env: Env, a: seq<AuditRecord>, b: seq<AuditRecord>, g: Bytes, g': Bytes)
    returns (x: Bytes, y: Bytes)
    requires env.Sound() && a != [] && b != []
    requires forall s | s in Leaves(a) :: IsDigestText(s)
    requires forall s | s in Leaves(b) :: IsDigestText(s)
    requires SigningMaterial(env, a, g) == SigningMaterial(env, b, g')
    ensures |a| == |b|
    ensures Leaves(a) == Leaves(b)
         || (x in Hashed(env.sha, DecodedAll(Leaves(a))) && y in Hashed(env.sha, DecodedAll(Leaves(b)))
             && Collision(env.sha, x, y))
  {
    RootTextLength(env.sha, Leaves(a));
    RootTextLength(env.sha, Leaves(b));
    MaterialFields(env, a, b, g, g');
    x, y := RootTextBinds(env.sha, Leaves(a), Leaves(b));
  }

  /** For intact lists, a checkpoint pins the whole chain up to a collision of two records. */
  lemma CheckpointPinsChain(env: Env, a: seq<AuditRecord>, b: seq<AuditRecord>, genesis: Bytes)
    returns (i: nat, j: nat)
    requires env.Sound() && a != [] && b != []
    requires Verifies(env, a, genesis) && Verifies(env, b, genesis)
    requires SigningMaterial(env, a, genesis) == SigningMaterial(env, b, genesis)
    ensures SameChain(a, b) || RecordsCollide(env, a, b, i, j)
  {
    IntactLeaves(env, a, genesis);
    IntactLeaves(env, b, genesis);
    RootTextLength(env.sha, Leaves(a));
    RootTextLength(env.sha, Leaves(b));
    MaterialFields(env, a, b, genesis, genesis);
    i, j := HeadPinsChain(env, a, b, genesis);
  }

  // ---------------------------------------------------------------------------
  // The chain object
  // ---------------------------------------------------------------------------

  datatype SignedCheckpoint = SignedCheckpoint(
    startSequence: int, endSequence: int, count: int, merkleRoot: Bytes, headHash: Bytes, signature: Bytes)

  /** The bytes of "unsigned". */
  const UNSIGNED: Bytes := [117, 110, 115, 105, 103, 110, 101, 100]

  class Chain {
    const env: Env
    const genesisHash: Bytes
    const signingSecret: Option<Bytes>
    var records: seq<AuditRecord>

    /** The records verify, as they do while the clock never goes back. */
    ghost predicate Valid()
      reads this
    {
      Verifies(env, records, genesisHash)
    }

    /** The genesis hash is the digest of the domain prefix and the cluster name. */
    constructor (env: Env, domainPrefix: Bytes, clusterId: Bytes, secret: Option<Bytes>)
      ensures Valid() && records == []
      ensures this.env == env && signingSecret == secret
      ensures genesisHash == HexEncode(env.sha(domainPrefix + clusterId))
    {
      this.env := env;
      genesisHash := HexEncode(env.sha(domainPrefix + clusterId));
      signingSecret := secret;
      records := [];
    }

    /** `append`; `now` is what the clock reads. */
    method Append(event: AuditEvent, now: int) returns (record: AuditRecord)
      requires |records| < 0x1_0000_0000_0000_0000
      modifies this
      ensures record == NewRecord(env, old(records), genesisHash, signingSecret, event, now)
      ensures records == old(records) + [record]
      ensures record.event == event && record.timestamp == now && record.sequence == |old(records)|
      ensures record.prevHash == if old(records) == [] then genesisHash else old(records)[|old(records)| - 1].recordHash
      ensures record.recordHash == HexEncode(env.sha(InputOf(env, record)))
      ensures record.signature == match signingSecret
                                  case Some(key) => Some(env.hmac(record.recordHash, key))
                                  case None => None
      ensures Valid() <==> old(Valid()) && (old(records) != [] ==> old(records)[|old(records)| - 1].timestamp <= now)
    {
      AppendVerifies(env, records, genesisHash, signingSecret, event, now);
      var sequence: U64 := |records|;
      var prevHash := if |records| == 0 then genesisHash else records[|records| - 1].recordHash;
      var recordHash := RecordHash(env, prevHash, sequence, now, event);
      var signature := if signingSecret.Some? then Some(env.hmac(recordHash, signingSecret.value)) else None;
      record := AuditRecord(sequence, now, event, prevHash, recordHash, signature);
      records := records + [record];
    }

    /** `create_checkpoint`: what is signed is the material the theorems above are about. */
    method CreateCheckpoint() returns (r: Option<SignedCheckpoint>)
      ensures r.None? <==> records == []
      ensures r.Some? ==>
                && r.value.startSequence == 0 && r.value.endSequence == |records| - 1 && r.value.count == |records|
                && r.value.merkleRoot == RootText(env.sha, Leaves(records))
                && r.value.headHash == HeadHash(records, genesisHash)
                && r.value.signature == match signingSecret
                                        case Some(key) => env.hmac(SigningMaterial(env, records, genesisHash), key)
                                        case None => UNSIGNED
    {
      if |records| == 0 { return None; }
      var end := |records| - 1;
      var head := records[end].recordHash;
      var root := ComputeMerkleRoot(env.sha, Leaves(records));
      var material := Decimal(0) + ([COLON] + (Decimal(end) + ([COLON] + (root + ([COLON] + head)))));
      var signature := if signingSecret.Some? then env.hmac(material, signingSecret.value) else UNSIGNED;
      r := Some(SignedCheckpoint(0, end, |records|, root, head, signature));
    }
  }
}
