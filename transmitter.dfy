/** The rebroadcaster: once per cycle it purges expired attempt records and
    offers each selected transaction, in priority order, to every endpoint
    that does not already report it. An endpoint with any live record for
    the transaction is skipped; at most 50 transactions per endpoint and
    transaction type are accepted in one round; a rejection is recorded with
    its classified error. The round would skip the rest once a transaction
    found every endpoint at its cap, but as the pipeline is wired some
    endpoint always reports the transaction, so that never happens. The
    node's answers are parameters. */
module Transmitter {
  import opened Types
  import opened Strings
  import opened Utils
  import opened Watch
  import opened Merge
  import opened Filters
  import opened Selection
  import opened Scoring

  // ---------------------------------------------------------------------
  // Error classification

  const NonceTooLow: string := "nonce too low"
  /** Declared beside the other two but never used to classify. */
  const GasLimitExceeded: string := "exceeds block gas limit"
  const InsufficientFunds: string := "insufficient funds for gas * price + value"

  /** The error text recorded for a rejection: the first line of the node's
      message, cut right after the first known phrase it contains (the
      insufficient-funds phrase is looked for first), or kept whole. */
  function ClassifyError(details: string): (r: string)
    ensures r <= FirstLine(details)
    ensures Includes(FirstLine(details), InsufficientFunds) ==>
              && |r| >= |InsufficientFunds|
              && OccursAt(r, InsufficientFunds, |r| - |InsufficientFunds|)
              && forall j :: 0 <= j < |r| - |InsufficientFunds| ==> !OccursAt(FirstLine(details), InsufficientFunds, j)
    ensures !Includes(FirstLine(details), InsufficientFunds) && Includes(FirstLine(details), NonceTooLow) ==>
              && |r| >= |NonceTooLow|
              && OccursAt(r, NonceTooLow, |r| - |NonceTooLow|)
              && forall j :: 0 <= j < |r| - |NonceTooLow| ==> !OccursAt(FirstLine(details), NonceTooLow, j)
    ensures !Includes(FirstLine(details), InsufficientFunds) && !Includes(FirstLine(details), NonceTooLow) ==>
              r == FirstLine(details)
  {
    var firstLine := FirstLine(details);
    if Includes(firstLine, InsufficientFunds) then
      var index := IndexOf(firstLine, InsufficientFunds).value;
      var r := firstLine[..index + 42];
      assert r[index..index + 42] == firstLine[index..index + 42];
      r
    else if Includes(firstLine, NonceTooLow) then
      var index := IndexOf(firstLine, NonceTooLow).value;
      var r := firstLine[..index + 13];
      assert r[index..index + 13] == firstLine[index..index + 13];
      r
    else firstLine
  }

  // ---------------------------------------------------------------------
  // Attempt records and the round

  /** `WidecastStatus`: the block of the attempt and the classified error,
      `None` for an accepted transaction. */
  datatype Status = Status(lastBlock: nat, error: Option<string>)

  /** `recentBroadcastAttempts`: per endpoint, per hash. */
  type Attempts = map<EndpointId, map<Hash, Status>>

  /** The `${id}-${type}` key of the round's per-endpoint counters. */
  type RoundKey = (EndpointId, string)

  type Round = map<RoundKey, map<Hash, Status>>

  const RoundCap: nat := 50

  /** What `sendRawTransaction` does: accept, or reject with or without a
      `details` message (without one, nothing is recorded). */
  datatype SendResult = Accepted | Rejected(details: Option<string>)

  /** What one endpoint's callback returns: `null` or a count. */
  datatype Sent = Null | Count(n: nat)

  datatype Dispatch = Dispatch(attempts: Attempts, round: Round, breakout: bool)

  /** What the round knows of a transaction. */
  function KeyOfRound(endpoint: EndpointId, tx: Tx): RoundKey {
    (endpoint, TypeName(tx.txType))
  }

  predicate HasRecord(attempts: Attempts, e: EndpointId, h: Hash) {
    e in attempts && h in attempts[e]
  }

  /** One endpoint's callback for the transaction `hash` with merged entry
      `entry`: skip an origin, skip a live record, return `null` at the cap,
      skip what cannot be serialised, then record the node's answer. */
  function SendTo(d: Dispatch, blockNumber: nat, hash: Hash, entry: Entry, endpoint: EndpointId,
                  encode: Unsigned -> seq<bv8>, outcome: SendResult): (r: (Dispatch, Sent))
    ensures r.0.breakout == d.breakout
  {
    if endpoint in entry.origins then (d, Count(0))
    else
      var endpointRebroadcasts := if endpoint in d.attempts then d.attempts[endpoint] else map[];
      var attempts := d.attempts[endpoint := endpointRebroadcasts];
      if hash in endpointRebroadcasts then (d.(attempts := attempts), Count(0))
      else
        var k := KeyOfRound(endpoint, entry.tx);
        var count := if k in d.round then d.round[k] else map[];
        if |count| >= RoundCap then (d.(attempts := attempts), Null)
        else
          var round := d.round[k := count];
          if SerializeRpcTransaction(entry.tx, encode).None? then (Dispatch(attempts, round, d.breakout), Count(0))
          else
            match outcome
            case Accepted =>
              var status := Status(blockNumber, None);
              (Dispatch(attempts[endpoint := endpointRebroadcasts[hash := status]], round[k := count[hash := status]], d.breakout),
               Count(1))
            case Rejected(Some(details)) =>
              var status := Status(blockNumber, Some(ClassifyError(details)));
              (Dispatch(attempts[endpoint := endpointRebroadcasts[hash := status]], round, d.breakout), Count(0))
            case Rejected(None) => (Dispatch(attempts, round, d.breakout), Count(0))
  }

  /** What a callback returns: 0 at an origin; `null` exactly when the
      endpoint has no record of the transaction and its counter for the
      type is full; 1 exactly when it has no record, the counter has room,
      the transaction serialises and the node accepts it; 0 otherwise. */
  lemma SendToAnswers(d: Dispatch, blockNumber: nat, hash: Hash, entry: Entry, endpoint: EndpointId,
                      encode: Unsigned -> seq<bv8>, outcome: SendResult)
    ensures var r := SendTo(d, blockNumber, hash, entry, endpoint, encode, outcome);
            var full := KeyOfRound(endpoint, entry.tx) in d.round && |d.round[KeyOfRound(endpoint, entry.tx)]| >= RoundCap;
            && (endpoint in entry.origins ==> r == (d, Count(0)))
            && (r.1.Null? <==> endpoint !in entry.origins && !HasRecord(d.attempts, endpoint, hash) && full)
            && (r.1 == Count(1) <==>
                  endpoint !in entry.origins && !HasRecord(d.attempts, endpoint, hash) && !full
                  && SerializeRpcTransaction(entry.tx, encode).Some? && outcome.Accepted?)
            && (r.1.Null? || r.1 == Count(0) || r.1 == Count(1))
  {
  }

  /** The records a callback leaves: the ones it found, plus one for this
      endpoint and hash exactly when the node answered (an acceptance, or a
      rejection with details). */
  lemma SendToRecords(d: Dispatch, blockNumber: nat, hash: Hash, entry: Entry, endpoint: EndpointId,
                      encode: Unsigned -> seq<bv8>, outcome: SendResult, e: EndpointId, h: Hash)
    ensures var r := SendTo(d, blockNumber, hash, entry, endpoint, encode, outcome);
            HasRecord(r.0.attempts, e, h) <==>
              (|| HasRecord(d.attempts, e, h)
               || (e == endpoint && h == hash && r.1 == Count(1))
               || (e == endpoint && h == hash && endpoint !in entry.origins && !HasRecord(d.attempts, endpoint, hash)
                   && r.1 == Count(0) && SerializeRpcTransaction(entry.tx, encode).Some? && outcome.Rejected? && outcome.details.Some?))
  {
  }

  /** The `Promise.all` over the pools, taken one endpoint after another. */
  function FanOut(d: Dispatch, blockNumber: nat, hash: Hash, entry: Entry, pools: Pools,
                  encode: Unsigned -> seq<bv8>, outcome: (EndpointId, Hash) -> SendResult): (r: (Dispatch, seq<Sent>))
    ensures |r.1| == |pools|
    ensures r.0.breakout == d.breakout
  {
    if |pools| == 0 then (d, [])
    else
      var front := FanOut(d, blockNumber, hash, entry, pools[..|pools| - 1], encode, outcome);
      var endpoint := pools[|pools| - 1].0;
      var last := SendTo(front.0, blockNumber, hash, entry, endpoint, encode, outcome(endpoint, hash));
      (last.0, front.1 + [last.1])
  }

  predicate AllNull(sent: seq<Sent>) {
    forall i :: 0 <= i < |sent| ==> sent[i].Null?
  }

  /** The limiter's callback for one selected transaction. */
  function Process(d: Dispatch, blockNumber: nat, running: bool, hash: Hash, byHash: map<Hash, Entry>, pools: Pools,
                   encode: Unsigned -> seq<bv8>, outcome: (EndpointId, Hash) -> SendResult): (r: Dispatch)
    ensures !running || d.breakout || hash !in byHash ==> r == d
    ensures r.breakout <==>
              d.breakout || (running && hash in byHash && AllNull(FanOut(d, blockNumber, hash, byHash[hash], pools, encode, outcome).1))
  {
    if !running || d.breakout then d
    else if hash !in byHash then d
    else
      var sent := FanOut(d, blockNumber, hash, byHash[hash], pools, encode, outcome);
      var nonNulls := AllNull(sent.1);
      sent.0.(breakout := nonNulls)
  }

  function Hashes(selected: seq<Candidate>): (r: seq<Hash>)
    ensures |r| == |selected|
    ensures forall i :: 0 <= i < |selected| ==> r[i] == selected[i].hash
  {
    seq(|selected|, i requires 0 <= i < |selected| => selected[i].hash)
  }

  /** The round over the selected transactions, in priority order. */
  function RunRound(d: Dispatch, blockNumber: nat, running: bool, order: seq<Hash>, byHash: map<Hash, Entry>, pools: Pools,
                    encode: Unsigned -> seq<bv8>, outcome: (EndpointId, Hash) -> SendResult): Dispatch
  {
    if |order| == 0 then d
    else Process(RunRound(d, blockNumber, running, order[..|order| - 1], byHash, pools, encode, outcome),
                 blockNumber, running, order[|order| - 1], byHash, pools, encode, outcome)
  }

  // ---------------------------------------------------------------------
  // What a round keeps

  /** At most 50 entries per endpoint and type. */
  ghost predicate WithinCap(round: Round) {
    forall k :: k in round ==> |round[k]| <= RoundCap
  }

  /** Every entry of the round is an acceptance in this block, mirrored in
      the attempt records. */
  ghost predicate Mirrored(d: Dispatch, blockNumber: nat) {
    forall k, h :: k in d.round && h in d.round[k] ==>
      d.round[k][h] == Status(blockNumber, None) && HasRecord(d.attempts, k.0, h) && d.attempts[k.0][h] == d.round[k][h]
  }

  ghost predicate Inv(d: Dispatch, blockNumber: nat) {
    WithinCap(d.round) && Mirrored(d, blockNumber)
  }

  /** From `d0` to `d`: no record is changed or dropped, and every new
      record is of this block, for a merged transaction, at an endpoint that
      did not report it. */
  ghost predicate Keeps(d0: Dispatch, d: Dispatch, blockNumber: nat, byHash: map<Hash, Entry>) {
    && (forall e, h :: HasRecord(d0.attempts, e, h) ==> HasRecord(d.attempts, e, h) && d.attempts[e][h] == d0.attempts[e][h])
    && (forall e, h :: HasRecord(d.attempts, e, h) && !HasRecord(d0.attempts, e, h) ==>
          d.attempts[e][h].lastBlock == blockNumber && h in byHash && e !in byHash[h].origins)
  }

  lemma KeepsTransitive(d0: Dispatch, d1: Dispatch, d2: Dispatch, blockNumber: nat, byHash: map<Hash, Entry>)
    requires Keeps(d0, d1, blockNumber, byHash) && Keeps(d1, d2, blockNumber, byHash)
    ensures Keeps(d0, d2, blockNumber, byHash)
  {
    forall e, h | HasRecord(d2.attempts, e, h) && !HasRecord(d0.attempts, e, h)
      ensures d2.attempts[e][h].lastBlock == blockNumber && h in byHash && e !in byHash[h].origins
    {
      if HasRecord(d1.attempts, e, h) {
        assert d2.attempts[e][h] == d1.attempts[e][h];
      }
    }
  }

  /** Reading an endpoint's records, or an empty map, back into the table
      changes no record. */
  lemma TouchKeeps(d: Dispatch, endpoint: EndpointId, blockNumber: nat, byHash: map<Hash, Entry>)
    requires Inv(d, blockNumber)
    ensures var t := d.(attempts := d.attempts[endpoint := if endpoint in d.attempts then d.attempts[endpoint] else map[]]);
            Inv(t, blockNumber) && Keeps(d, t, blockNumber, byHash)
            && forall e, h :: HasRecord(t.attempts, e, h) <==> HasRecord(d.attempts, e, h)
  {
  }

  /** Writing a record where there was none. */
  lemma WriteKeeps(d: Dispatch, endpoint: EndpointId, hash: Hash, status: Status, blockNumber: nat, byHash: map<Hash, Entry>)
    requires Inv(d, blockNumber)
    requires endpoint in d.attempts && !HasRecord(d.attempts, endpoint, hash)
    requires status.lastBlock == blockNumber && hash in byHash && endpoint !in byHash[hash].origins
    ensures var t := d.(attempts := d.attempts[endpoint := d.attempts[endpoint][hash := status]]);
            Mirrored(t, blockNumber) && Keeps(d, t, blockNumber, byHash)
  {
    var t := d.(attempts := d.attempts[endpoint := d.attempts[endpoint][hash := status]]);
    forall k, h | k in t.round && h in t.round[k]
      ensures t.round[k][h] == Status(blockNumber, None) && HasRecord(t.attempts, k.0, h) && t.attempts[k.0][h] == t.round[k][h]
    {
      assert HasRecord(d.attempts, k.0, h);
    }
  }

  /** Counting an acceptance in the round, below the cap. */
  lemma CountKeeps(d: Dispatch, k: RoundKey, hash: Hash, blockNumber: nat)
    requires WithinCap(d.round)
    requires k in d.round && hash !in d.round[k] && |d.round[k]| < RoundCap
    requires HasRecord(d.attempts, k.0, hash) && d.attempts[k.0][hash] == Status(blockNumber, None)
    requires Mirrored(d, blockNumber)
    ensures var t := d.(round := d.round[k := d.round[k][hash := Status(blockNumber, None)]]);
            Inv(t, blockNumber)
  {
    assert |d.round[k][hash := Status(blockNumber, None)]| == |d.round[k]| + 1;
  }

  /** Opening a counter for a key, empty when it has none. */
  lemma OpenCounter(d: Dispatch, k: RoundKey, blockNumber: nat)
    requires Inv(d, blockNumber)
    ensures Inv(d.(round := d.round[k := if k in d.round then d.round[k] else map[]]), blockNumber)
  {
  }

  /** The state a callback leaves when the node answered. */
  lemma SendToAnswered(d: Dispatch, blockNumber: nat, hash: Hash, entry: Entry, endpoint: EndpointId,
                       encode: Unsigned -> seq<bv8>, outcome: SendResult)
    requires endpoint !in entry.origins && !HasRecord(d.attempts, endpoint, hash)
    requires var k := KeyOfRound(endpoint, entry.tx); !(k in d.round && |d.round[k]| >= RoundCap)
    requires SerializeRpcTransaction(entry.tx, encode).Some? && !(outcome.Rejected? && outcome.details.None?)
    ensures var k := KeyOfRound(endpoint, entry.tx);
            var count := if k in d.round then d.round[k] else map[];
            var records := if endpoint in d.attempts then d.attempts[endpoint] else map[];
            var status := if outcome.Accepted? then Status(blockNumber, None)
                          else Status(blockNumber, Some(ClassifyError(outcome.details.value)));
            var written := d.attempts[endpoint := records][endpoint := records[hash := status]];
            SendTo(d, blockNumber, hash, entry, endpoint, encode, outcome).0 ==
              if outcome.Accepted? then Dispatch(written, d.round[k := count][k := count[hash := status]], d.breakout)
              else Dispatch(written, d.round[k := count], d.breakout)
  {
  }

  /** What a callback that reached the node stores: an acceptance is
      written as a success of this block to the attempt records and the
      round counter for the type; a rejection with details is written, with
      its classified error, to the attempt records only; the counters are
      then as before, apart from the counter opened for the type. */
  lemma SendToWrites(d: Dispatch, blockNumber: nat, hash: Hash, entry: Entry, endpoint: EndpointId,
                     encode: Unsigned -> seq<bv8>, outcome: SendResult)
    requires endpoint !in entry.origins && !HasRecord(d.attempts, endpoint, hash)
    requires var k := KeyOfRound(endpoint, entry.tx); !(k in d.round && |d.round[k]| >= RoundCap)
    requires SerializeRpcTransaction(entry.tx, encode).Some?
    ensures var r := SendTo(d, blockNumber, hash, entry, endpoint, encode, outcome).0;
            var k := KeyOfRound(endpoint, entry.tx);
            && (outcome.Accepted? ==>
                  && HasRecord(r.attempts, endpoint, hash) && r.attempts[endpoint][hash] == Status(blockNumber, None)
                  && k in r.round && hash in r.round[k] && r.round[k][hash] == Status(blockNumber, None))
            && (outcome.Rejected? && outcome.details.Some? ==>
                  && HasRecord(r.attempts, endpoint, hash)
                  && r.attempts[endpoint][hash] == Status(blockNumber, Some(ClassifyError(outcome.details.value)))
                  && r.round.Keys == d.round.Keys + {k}
                  && (forall k' :: k' in d.round ==> r.round[k'] == d.round[k'])
                  && (k !in d.round ==> r.round[k] == map[]))
  {
    if !(outcome.Rejected? && outcome.details.None?) {
      SendToAnswered(d, blockNumber, hash, entry, endpoint, encode, outcome);
    }
  }

  lemma AcceptedKeeps(d: Dispatch, blockNumber: nat, hash: Hash, byHash: map<Hash, Entry>, endpoint: EndpointId,
                      encode: Unsigned -> seq<bv8>, outcome: SendResult)
    requires Inv(d, blockNumber)
    requires hash in byHash
    requires endpoint !in byHash[hash].origins && !HasRecord(d.attempts, endpoint, hash)
    requires var k := KeyOfRound(endpoint, byHash[hash].tx); !(k in d.round && |d.round[k]| >= RoundCap)
    requires SerializeRpcTransaction(byHash[hash].tx, encode).Some? && !(outcome.Rejected? && outcome.details.None?)
    ensures var r := SendTo(d, blockNumber, hash, byHash[hash], endpoint, encode, outcome).0;
            Inv(r, blockNumber) && Keeps(d, r, blockNumber, byHash)
    requires outcome.Accepted?
  {
    var entry := byHash[hash];
    SendToAnswered(d, blockNumber, hash, entry, endpoint, encode, outcome);
    var records := if endpoint in d.attempts then d.attempts[endpoint] else map[];
    var t := d.(attempts := d.attempts[endpoint := records]);
    TouchKeeps(d, endpoint, blockNumber, byHash);
    var k := KeyOfRound(endpoint, entry.tx);
    var count := if k in d.round then d.round[k] else map[];
    var t1 := t.(round := d.round[k := count]);
    OpenCounter(t, k, blockNumber);
    var status := Status(blockNumber, None);
    WriteKeeps(t1, endpoint, hash, status, blockNumber, byHash);
    var t2 := t1.(attempts := t1.attempts[endpoint := records[hash := status]]);
    KeepsTransitive(d, t, t2, blockNumber, byHash);
    assert hash in count ==> HasRecord(t1.attempts, endpoint, hash);
    CountKeeps(t2, k, hash, blockNumber);
  }

  lemma RejectedKeeps(d: Dispatch, blockNumber: nat, hash: Hash, byHash: map<Hash, Entry>, endpoint: EndpointId,
                      encode: Unsigned -> seq<bv8>, outcome: SendResult)
    requires Inv(d, blockNumber)
    requires hash in byHash
    requires endpoint !in byHash[hash].origins && !HasRecord(d.attempts, endpoint, hash)
    requires var k := KeyOfRound(endpoint, byHash[hash].tx); !(k in d.round && |d.round[k]| >= RoundCap)
    requires SerializeRpcTransaction(byHash[hash].tx, encode).Some? && !(outcome.Rejected? && outcome.details.None?)
    ensures var r := SendTo(d, blockNumber, hash, byHash[hash], endpoint, encode, outcome).0;
            Inv(r, blockNumber) && Keeps(d, r, blockNumber, byHash)
    requires outcome.Rejected?
  {
    var entry := byHash[hash];
    SendToAnswered(d, blockNumber, hash, entry, endpoint, encode, outcome);
    var records := if endpoint in d.attempts then d.attempts[endpoint] else map[];
    var t := d.(attempts := d.attempts[endpoint := records]);
    TouchKeeps(d, endpoint, blockNumber, byHash);
    var k := KeyOfRound(endpoint, entry.tx);
    var count := if k in d.round then d.round[k] else map[];
    var t1 := t.(round := d.round[k := count]);
    OpenCounter(t, k, blockNumber);
    var status := Status(blockNumber, Some(ClassifyError(outcome.details.value)));
    WriteKeeps(t1, endpoint, hash, status, blockNumber, byHash);
    var t2 := t1.(attempts := t1.attempts[endpoint := records[hash := status]]);
    KeepsTransitive(d, t, t2, blockNumber, byHash);
  }

  lemma SendToKeeps(d: Dispatch, blockNumber: nat, hash: Hash, byHash: map<Hash, Entry>, endpoint: EndpointId,
                    encode: Unsigned -> seq<bv8>, outcome: SendResult)
    requires Inv(d, blockNumber)
    requires hash in byHash
    ensures var r := SendTo(d, blockNumber, hash, byHash[hash], endpoint, encode, outcome).0;
            Inv(r, blockNumber) && Keeps(d, r, blockNumber, byHash)
  {
    var entry := byHash[hash];
    var r := SendTo(d, blockNumber, hash, entry, endpoint, encode, outcome).0;
    if endpoint !in entry.origins {
      var endpointRebroadcasts := if endpoint in d.attempts then d.attempts[endpoint] else map[];
      var t := d.(attempts := d.attempts[endpoint := endpointRebroadcasts]);
      TouchKeeps(d, endpoint, blockNumber, byHash);
      var k := KeyOfRound(endpoint, entry.tx);
      var count := if k in d.round then d.round[k] else map[];
      if hash in endpointRebroadcasts || |count| >= RoundCap {
        assert r == t;
      } else if SerializeRpcTransaction(entry.tx, encode).None? || (outcome.Rejected? && outcome.details.None?) {
        OpenCounter(t, k, blockNumber);
        assert r == t.(round := d.round[k := count]);
      } else {
        if outcome.Accepted? {
          AcceptedKeeps(d, blockNumber, hash, byHash, endpoint, encode, outcome);
        } else {
          RejectedKeeps(d, blockNumber, hash, byHash, endpoint, encode, outcome);
        }
      }
    }
  }

  lemma {:induction false} FanOutKeeps(d: Dispatch, blockNumber: nat, hash: Hash, byHash: map<Hash, Entry>, pools: Pools,
                                       encode: Unsigned -> seq<bv8>, outcome: (EndpointId, Hash) -> SendResult)
    requires Inv(d, blockNumber)
    requires hash in byHash
    ensures var r := FanOut(d, blockNumber, hash, byHash[hash], pools, encode, outcome).0;
            Inv(r, blockNumber) && Keeps(d, r, blockNumber, byHash)
  {
    if |pools| > 0 {
      var front := FanOut(d, blockNumber, hash, byHash[hash], pools[..|pools| - 1], encode, outcome).0;
      FanOutKeeps(d, blockNumber, hash, byHash, pools[..|pools| - 1], encode, outcome);
      var endpoint := pools[|pools| - 1].0;
      SendToKeeps(front, blockNumber, hash, byHash, endpoint, encode, outcome(endpoint, hash));
      var r := SendTo(front, blockNumber, hash, byHash[hash], endpoint, encode, outcome(endpoint, hash)).0;
      KeepsTransitive(d, front, r, blockNumber, byHash);
    }
  }

  lemma {:induction false} RunRoundKeeps(d: Dispatch, blockNumber: nat, running: bool, order: seq<Hash>, byHash: map<Hash, Entry>,
                                         pools: Pools, encode: Unsigned -> seq<bv8>, outcome: (EndpointId, Hash) -> SendResult)
    requires Inv(d, blockNumber)
    ensures var r := RunRound(d, blockNumber, running, order, byHash, pools, encode, outcome);
            Inv(r, blockNumber) && Keeps(d, r, blockNumber, byHash)
  {
    if |order| > 0 {
      var front := RunRound(d, blockNumber, running, order[..|order| - 1], byHash, pools, encode, outcome);
      RunRoundKeeps(d, blockNumber, running, order[..|order| - 1], byHash, pools, encode, outcome);
      var hash := order[|order| - 1];
      if running && !front.breakout && hash in byHash {
        FanOutKeeps(front, blockNumber, hash, byHash, pools, encode, outcome);
        var r := FanOut(front, blockNumber, hash, byHash[hash], pools, encode, outcome).0;
        KeepsTransitive(d, front, r, blockNumber, byHash);
      }
    }
  }

  // ---------------------------------------------------------------------
  // Every acceptance is counted

  /** Round entries are never removed. */
  ghost predicate Grows(d0: Dispatch, d: Dispatch) {
    forall k, h :: k in d0.round && h in d0.round[k] ==> k in d.round && h in d.round[k]
  }

  /** Every success recorded since `d0` is in the round counter of its
      endpoint and type. */
  ghost predicate Counted(d0: Dispatch, d: Dispatch, byHash: map<Hash, Entry>) {
    forall e, h :: HasRecord(d.attempts, e, h) && !HasRecord(d0.attempts, e, h) && d.attempts[e][h].error.None? ==>
      h in byHash && KeyOfRound(e, byHash[h].tx) in d.round && h in d.round[KeyOfRound(e, byHash[h].tx)]
  }

  lemma SendToCounted(d: Dispatch, blockNumber: nat, hash: Hash, byHash: map<Hash, Entry>, endpoint: EndpointId,
                      encode: Unsigned -> seq<bv8>, outcome: SendResult)
    requires hash in byHash
    ensures var r := SendTo(d, blockNumber, hash, byHash[hash], endpoint, encode, outcome).0;
            Grows(d, r) && Counted(d, r, byHash)
  {
    var entry := byHash[hash];
    var r := SendTo(d, blockNumber, hash, entry, endpoint, encode, outcome).0;
    if endpoint !in entry.origins {
      var records := if endpoint in d.attempts then d.attempts[endpoint] else map[];
      var k := KeyOfRound(endpoint, entry.tx);
      var count := if k in d.round then d.round[k] else map[];
      if hash in records || |count| >= RoundCap {
        assert r == d.(attempts := d.attempts[endpoint := records]);
      } else if SerializeRpcTransaction(entry.tx, encode).None? || (outcome.Rejected? && outcome.details.None?) {
        assert r == Dispatch(d.attempts[endpoint := records], d.round[k := count], d.breakout);
      } else if outcome.Accepted? {
        AcceptedCounted(d, blockNumber, hash, byHash, endpoint, encode, outcome);
      } else {
        RejectedCounted(d, blockNumber, hash, byHash, endpoint, encode, outcome);
      }
    }
  }

  lemma AcceptedCounted(d: Dispatch, blockNumber: nat, hash: Hash, byHash: map<Hash, Entry>, endpoint: EndpointId,
                        encode: Unsigned -> seq<bv8>, outcome: SendResult)
    requires hash in byHash && outcome.Accepted?
    requires endpoint !in byHash[hash].origins && !HasRecord(d.attempts, endpoint, hash)
    requires var k := KeyOfRound(endpoint, byHash[hash].tx); !(k in d.round && |d.round[k]| >= RoundCap)
    requires SerializeRpcTransaction(byHash[hash].tx, encode).Some?
    ensures var r := SendTo(d, blockNumber, hash, byHash[hash], endpoint, encode, outcome).0;
            Grows(d, r) && Counted(d, r, byHash)
  {
    SendToAnswered(d, blockNumber, hash, byHash[hash], endpoint, encode, outcome);
  }

  lemma RejectedCounted(d: Dispatch, blockNumber: nat, hash: Hash, byHash: map<Hash, Entry>, endpoint: EndpointId,
                        encode: Unsigned -> seq<bv8>, outcome: SendResult)
    requires hash in byHash && outcome.Rejected? && outcome.details.Some?
    requires endpoint !in byHash[hash].origins && !HasRecord(d.attempts, endpoint, hash)
    requires var k := KeyOfRound(endpoint, byHash[hash].tx); !(k in d.round && |d.round[k]| >= RoundCap)
    requires SerializeRpcTransaction(byHash[hash].tx, encode).Some?
    ensures var r := SendTo(d, blockNumber, hash, byHash[hash], endpoint, encode, outcome).0;
            Grows(d, r) && Counted(d, r, byHash)
  {
    SendToAnswered(d, blockNumber, hash, byHash[hash], endpoint, encode, outcome);
  }

  lemma CountedTransitive(d0: Dispatch, d1: Dispatch, d2: Dispatch, blockNumber: nat, byHash: map<Hash, Entry>)
    requires Grows(d0, d1) && Counted(d0, d1, byHash)
    requires Grows(d1, d2) && Counted(d1, d2, byHash) && Keeps(d1, d2, blockNumber, byHash)
    ensures Grows(d0, d2) && Counted(d0, d2, byHash)
  {
    forall e, h | HasRecord(d2.attempts, e, h) && !HasRecord(d0.attempts, e, h) && d2.attempts[e][h].error.None?
      ensures h in byHash && KeyOfRound(e, byHash[h].tx) in d2.round && h in d2.round[KeyOfRound(e, byHash[h].tx)]
    {
      if HasRecord(d1.attempts, e, h) {
        assert d2.attempts[e][h] == d1.attempts[e][h];
      }
    }
  }

  lemma {:induction false} FanOutCounted(d: Dispatch, blockNumber: nat, hash: Hash, byHash: map<Hash, Entry>, pools: Pools,
                                         encode: Unsigned -> seq<bv8>, outcome: (EndpointId, Hash) -> SendResult)
    requires Inv(d, blockNumber)
    requires hash in byHash
    ensures var r := FanOut(d, blockNumber, hash, byHash[hash], pools, encode, outcome).0;
            Grows(d, r) && Counted(d, r, byHash)
  {
    if |pools| > 0 {
      var front := FanOut(d, blockNumber, hash, byHash[hash], pools[..|pools| - 1], encode, outcome).0;
      FanOutCounted(d, blockNumber, hash, byHash, pools[..|pools| - 1], encode, outcome);
      FanOutKeeps(d, blockNumber, hash, byHash, pools[..|pools| - 1], encode, outcome);
      var endpoint := pools[|pools| - 1].0;
      SendToCounted(front, blockNumber, hash, byHash, endpoint, encode, outcome(endpoint, hash));
      SendToKeeps(front, blockNumber, hash, byHash, endpoint, encode, outcome(endpoint, hash));
      var r := SendTo(front, blockNumber, hash, byHash[hash], endpoint, encode, outcome(endpoint, hash)).0;
      CountedTransitive(d, front, r, blockNumber, byHash);
    }
  }

  lemma {:induction false} RunRoundCounted(d: Dispatch, blockNumber: nat, running: bool, order: seq<Hash>, byHash: map<Hash, Entry>,
                                           pools: Pools, encode: Unsigned -> seq<bv8>, outcome: (EndpointId, Hash) -> SendResult)
    requires Inv(d, blockNumber)
    ensures var r := RunRound(d, blockNumber, running, order, byHash, pools, encode, outcome);
            Grows(d, r) && Counted(d, r, byHash)
  {
    if |order| > 0 {
      var front := RunRound(d, blockNumber, running, order[..|order| - 1], byHash, pools, encode, outcome);
      RunRoundCounted(d, blockNumber, running, order[..|order| - 1], byHash, pools, encode, outcome);
      RunRoundKeeps(d, blockNumber, running, order[..|order| - 1], byHash, pools, encode, outcome);
      var hash := order[|order| - 1];
      if running && !front.breakout && hash in byHash {
        FanOutCounted(front, blockNumber, hash, byHash, pools, encode, outcome);
        FanOutKeeps(front, blockNumber, hash, byHash, pools, encode, outcome);
        var r := FanOut(front, blockNumber, hash, byHash[hash], pools, encode, outcome).0;
        CountedTransitive(d, front, r, blockNumber, byHash);
      }
    }
  }

  /** The successes a round recorded at endpoint `e` for merged
      transactions of type name `t`. */
  ghost function NewSuccesses(before: Attempts, after: Attempts, e: EndpointId, t: string, byHash: map<Hash, Entry>): set<Hash> {
    set h | e in after && h in after[e] && !HasRecord(before, e, h) && after[e][h].error.None?
                && h in byHash && TypeName(byHash[h].tx.txType) == t
  }

  /** A round from an empty counter table: every counted acceptance is
      recorded as a success of this block, and every new success is counted
      under its endpoint and type, so no endpoint and type get more than 50
      acceptances; no earlier record changes, and every new record is of
      this block, at an endpoint that did not report the transaction. */
  lemma RoundGuarantees(attempts: Attempts, blockNumber: nat, running: bool, order: seq<Hash>, byHash: map<Hash, Entry>,
                        pools: Pools, encode: Unsigned -> seq<bv8>, outcome: (EndpointId, Hash) -> SendResult)
    ensures var d0 := Dispatch(attempts, map[], false);
            var r := RunRound(d0, blockNumber, running, order, byHash, pools, encode, outcome);
            && (forall k :: k in r.round ==> |r.round[k]| <= RoundCap)
            && (forall k, h :: k in r.round && h in r.round[k] ==>
                  HasRecord(r.attempts, k.0, h) && r.attempts[k.0][h] == Status(blockNumber, None))
            && (forall e, h :: HasRecord(attempts, e, h) ==> HasRecord(r.attempts, e, h) && r.attempts[e][h] == attempts[e][h])
            && (forall e, h :: HasRecord(r.attempts, e, h) && !HasRecord(attempts, e, h) ==>
                  r.attempts[e][h].lastBlock == blockNumber && h in byHash && e !in byHash[h].origins)
            && (forall e, h :: HasRecord(r.attempts, e, h) && !HasRecord(attempts, e, h) && r.attempts[e][h].error.None? ==>
                  h in byHash && KeyOfRound(e, byHash[h].tx) in r.round && h in r.round[KeyOfRound(e, byHash[h].tx)])
            && (forall e, t :: |NewSuccesses(attempts, r.attempts, e, t, byHash)| <= RoundCap)
  {
    var d0 := Dispatch(attempts, map[], false);
    RunRoundKeeps(d0, blockNumber, running, order, byHash, pools, encode, outcome);
    RunRoundCounted(d0, blockNumber, running, order, byHash, pools, encode, outcome);
    var r := RunRound(d0, blockNumber, running, order, byHash, pools, encode, outcome);
    forall e, t ensures |NewSuccesses(attempts, r.attempts, e, t, byHash)| <= RoundCap {
      var k: RoundKey := (e, t);
      var news := NewSuccesses(attempts, r.attempts, e, t, byHash);
      if news != {} {
        var h :| h in news;
        assert KeyOfRound(e, byHash[h].tx) == k;
        assert news <= r.round[k].Keys;
        SubsetCardinality(news, r.round[k].Keys);
      }
    }
  }

  lemma SubsetCardinality<T>(a: set<T>, b: set<T>)
    requires a <= b
    ensures |a| <= |b|
  {
    if a != {} {
      var x :| x in a;
      SubsetCardinality(a - {x}, b - {x});
    }
  }

  /** A round splits at any point. */
  lemma {:induction false} RunRoundAppend(d: Dispatch, blockNumber: nat, running: bool, first: seq<Hash>, second: seq<Hash>,
                                          byHash: map<Hash, Entry>, pools: Pools, encode: Unsigned -> seq<bv8>,
                                          outcome: (EndpointId, Hash) -> SendResult)
    ensures RunRound(d, blockNumber, running, first + second, byHash, pools, encode, outcome) ==
            RunRound(RunRound(d, blockNumber, running, first, byHash, pools, encode, outcome),
                     blockNumber, running, second, byHash, pools, encode, outcome)
    decreases |second|
  {
    if |second| == 0 {
      assert first + second == first;
    } else {
      var second' := second[..|second| - 1];
      RunRoundAppend(d, blockNumber, running, first, second', byHash, pools, encode, outcome);
      assert (first + second)[..|first + second| - 1] == first + second';
    }
  }

  /** Once `breakout` is set, nothing else happens in the round. */
  lemma {:induction false} BreakoutStops(d: Dispatch, blockNumber: nat, running: bool, order: seq<Hash>, byHash: map<Hash, Entry>,
                                         pools: Pools, encode: Unsigned -> seq<bv8>, outcome: (EndpointId, Hash) -> SendResult)
    requires d.breakout
    ensures RunRound(d, blockNumber, running, order, byHash, pools, encode, outcome) == d
  {
    if |order| > 0 {
      BreakoutStops(d, blockNumber, running, order[..|order| - 1], byHash, pools, encode, outcome);
    }
  }

  /** So the transactions after the one that set `breakout` are skipped. */
  lemma SkippedAfterBreakout(d: Dispatch, blockNumber: nat, running: bool, first: seq<Hash>, second: seq<Hash>,
                             byHash: map<Hash, Entry>, pools: Pools, encode: Unsigned -> seq<bv8>,
                             outcome: (EndpointId, Hash) -> SendResult)
    requires RunRound(d, blockNumber, running, first, byHash, pools, encode, outcome).breakout
    ensures RunRound(d, blockNumber, running, first + second, byHash, pools, encode, outcome) ==
            RunRound(d, blockNumber, running, first, byHash, pools, encode, outcome)
  {
    RunRoundAppend(d, blockNumber, running, first, second, byHash, pools, encode, outcome);
    BreakoutStops(RunRound(d, blockNumber, running, first, byHash, pools, encode, outcome),
                  blockNumber, running, second, byHash, pools, encode, outcome);
  }

  // ---------------------------------------------------------------------
  // The break never happens as wired

  /** An endpoint that reports the transaction answers 0 in the fan-out. */
  lemma {:induction false} FanOutOriginAnswers(d: Dispatch, blockNumber: nat, hash: Hash, entry: Entry, pools: Pools,
                                               encode: Unsigned -> seq<bv8>, outcome: (EndpointId, Hash) -> SendResult, p: nat)
    requires p < |pools| && pools[p].0 in entry.origins
    ensures FanOut(d, blockNumber, hash, entry, pools, encode, outcome).1[p] == Count(0)
  {
    var front := pools[..|pools| - 1];
    if p < |front| {
      assert front[p] == pools[p];
      FanOutOriginAnswers(d, blockNumber, hash, entry, front, encode, outcome, p);
    }
  }

  /** Every hash merged from `pools` was reported by one of them. */
  lemma MergedHasPoolOrigin(pools: Pools, h: Hash) returns (p: nat)
    requires h in ByHashOf(AllAppends(pools))
    ensures p < |pools| && pools[p].0 in ByHashOf(AllAppends(pools))[h].origins
  {
    var s := AllAppends(pools);
    ByHashOrigins(s, h);
    var e :| e in ByHashOf(s)[h].origins;
    var i :| 0 <= i < |s| && s[i].tx.hash == h && s[i].endpoint == e;
    AppendsAreFirstOfBucket(pools, i);
    p :| 0 <= p < |pools| && pools[p].0 == e && FirstOfSomeBucket(SubPool(pools[p].1.contents, s[i].key), s[i].tx);
  }

  /** When the merged view is built from the same pools the round fans out
      to, as in every cycle, some endpoint reports each offered transaction
      and answers 0, so `breakout` is never set. */
  lemma NoBreakoutOnOwnPools(d: Dispatch, blockNumber: nat, running: bool, hash: Hash, pools: Pools,
                             encode: Unsigned -> seq<bv8>, outcome: (EndpointId, Hash) -> SendResult)
    requires !d.breakout
    ensures !Process(d, blockNumber, running, hash, ByHashOf(AllAppends(pools)), pools, encode, outcome).breakout
  {
    var byHash := ByHashOf(AllAppends(pools));
    if running && hash in byHash {
      var p := MergedHasPoolOrigin(pools, hash);
      FanOutOriginAnswers(d, blockNumber, hash, byHash[hash], pools, encode, outcome, p);
    }
  }

  /** So a whole round over this cycle's merged view never breaks out. */
  lemma {:induction false} RoundNeverBreaksOut(d: Dispatch, blockNumber: nat, running: bool, order: seq<Hash>, pools: Pools,
                                               encode: Unsigned -> seq<bv8>, outcome: (EndpointId, Hash) -> SendResult)
    requires !d.breakout
    ensures !RunRound(d, blockNumber, running, order, ByHashOf(AllAppends(pools)), pools, encode, outcome).breakout
  {
    if |order| > 0 {
      RoundNeverBreaksOut(d, blockNumber, running, order[..|order| - 1], pools, encode, outcome);
      var front := RunRound(d, blockNumber, running, order[..|order| - 1], ByHashOf(AllAppends(pools)), pools, encode, outcome);
      NoBreakoutOnOwnPools(front, blockNumber, running, order[|order| - 1], pools, encode, outcome);
    }
  }

  // ---------------------------------------------------------------------
  // Purge

  predicate Expired(s: Status, blockNumber: nat, interval: nat) {
    s.lastBlock + interval <= blockNumber
  }

  /** One endpoint's records without the expired ones. */
  function Unexpired(records: map<Hash, Status>, blockNumber: nat, interval: nat): map<Hash, Status> {
    map h | h in records && !Expired(records[h], blockNumber, interval) :: records[h]
  }

  /** The records of the pools' endpoints without the expired ones; the
      records of other endpoints are left alone. */
  function Purged(attempts: Attempts, endpoints: set<EndpointId>, blockNumber: nat, interval: nat): Attempts {
    map e | e in attempts :: if e in endpoints then Unexpired(attempts[e], blockNumber, interval) else attempts[e]
  }

  lemma PurgedStep(attempts: Attempts, endpoints: set<EndpointId>, e: EndpointId, blockNumber: nat, interval: nat)
    requires e !in endpoints
    ensures e in attempts ==>
              Purged(attempts, endpoints + {e}, blockNumber, interval) ==
              Purged(attempts, endpoints, blockNumber, interval)[e := Unexpired(attempts[e], blockNumber, interval)]
    ensures e !in attempts ==>
              Purged(attempts, endpoints + {e}, blockNumber, interval) == Purged(attempts, endpoints, blockNumber, interval)
  {
  }

  /** After the purge no pool endpoint has an expired record, and every
      record that survives is unchanged; other endpoints keep theirs. */
  lemma PurgedShape(attempts: Attempts, endpoints: set<EndpointId>, blockNumber: nat, interval: nat)
    ensures var p := Purged(attempts, endpoints, blockNumber, interval);
            && p.Keys == attempts.Keys
            && (forall e, h :: e in endpoints && HasRecord(p, e, h) ==> !Expired(p[e][h], blockNumber, interval))
            && (forall e, h :: HasRecord(attempts, e, h) ==>
                  (HasRecord(p, e, h) <==> e !in endpoints || !Expired(attempts[e][h], blockNumber, interval)))
            && (forall e, h :: HasRecord(p, e, h) ==> HasRecord(attempts, e, h) && p[e][h] == attempts[e][h])
  {
  }

  // ---------------------------------------------------------------------
  // The whole pass

  /** The transactions of the round, in the order they are offered. */
  function Offered(entries: seq<(Hash, int)>, byHash: map<Hash, Entry>, balances: Balances, block: Block, minimum: nat): seq<Hash>
    requires forall i :: 0 <= i < |entries| ==> entries[i].0 in byHash
    requires SelectDefined(Candidates(entries, byHash), balances, block, minimum)
  {
    Hashes(Select(Candidates(entries, byHash), balances, block, minimum))
  }

  /** Offered in the round are scored hashes, each at most once, and only
      ones that are eligible for the first pool's block. */
  lemma OfferedScored(entries: seq<(Hash, int)>, byHash: map<Hash, Entry>, scores: map<Hash, int>,
                      balances: Balances, block: Block, minimum: nat)
    requires forall i :: 0 <= i < |entries| ==> entries[i].0 in byHash
    requires EntriesOf(entries, scores)
    requires SelectDefined(Candidates(entries, byHash), balances, block, minimum)
    ensures var order := Offered(entries, byHash, balances, block, minimum);
            && (forall i, j :: 0 <= i < j < |order| ==> order[i] != order[j])
            && (forall h :: h in order ==> h in scores && h in byHash)
  {
    var cands := Candidates(entries, byHash);
    var selected := Select(cands, balances, block, minimum);
    var order := Offered(entries, byHash, balances, block, minimum);
    CandidatesOfScores(entries, byHash, scores);
    SelectSound(cands, balances, block, minimum);
    forall i, j | 0 <= i < j < |order| ensures order[i] != order[j] {
      assert SenderKey(selected[i]) != SenderKey(selected[j]);
      assert selected[i] in cands && selected[j] in cands;
      var a :| 0 <= a < |cands| && cands[a] == selected[i];
      var b :| 0 <= b < |cands| && cands[b] == selected[j];
      assert a != b;
      if a < b {
        assert cands[a].hash != cands[b].hash;
      } else {
        assert cands[b].hash != cands[a].hash;
      }
    }
    forall h | h in order ensures h in scores && h in byHash {
      var i :| 0 <= i < |order| && order[i] == h;
      assert selected[i] in cands;
    }
  }

  /** The attempt records after an enabled pass: purge against the first
      pool's block, then the round over the offered transactions. */
  function AfterWidecast(attempts: Attempts, pools: Pools, byHash: map<Hash, Entry>, entries: seq<(Hash, int)>,
                         balances: Balances, cfg: Config, running: bool,
                         encode: Unsigned -> seq<bv8>, outcome: (EndpointId, Hash) -> SendResult): Attempts
    requires |pools| > 0
    requires forall i :: 0 <= i < |entries| ==> entries[i].0 in byHash
    requires SelectDefined(Candidates(entries, byHash), balances, pools[0].1.block, MinimumBalance(cfg))
  {
    var block := pools[0].1.block;
    var purged := Purged(attempts, EndpointSet(pools), block.number, cfg.rebroadcastBlockInterval);
    var order := Offered(entries, byHash, balances, block, MinimumBalance(cfg));
    RunRound(Dispatch(purged, map[], false), block.number, running, order, byHash, pools, encode, outcome).attempts
  }

  /** What an enabled pass guarantees: a record that has not expired, or
      belongs to an endpoint outside the pools, is kept unchanged; every new
      record is of the current block, for a merged transaction, at an
      endpoint that did not report it; an expired record of a pool endpoint
      is gone or replaced by one of this block. */
  lemma WidecastGuarantees(attempts: Attempts, pools: Pools, byHash: map<Hash, Entry>, entries: seq<(Hash, int)>,
                           balances: Balances, cfg: Config, running: bool,
                           encode: Unsigned -> seq<bv8>, outcome: (EndpointId, Hash) -> SendResult)
    requires |pools| > 0
    requires forall i :: 0 <= i < |entries| ==> entries[i].0 in byHash
    requires SelectDefined(Candidates(entries, byHash), balances, pools[0].1.block, MinimumBalance(cfg))
    ensures var block := pools[0].1.block;
            var interval := cfg.rebroadcastBlockInterval;
            var r := AfterWidecast(attempts, pools, byHash, entries, balances, cfg, running, encode, outcome);
            && (forall e, h :: HasRecord(attempts, e, h) && (e !in EndpointSet(pools) || !Expired(attempts[e][h], block.number, interval)) ==>
                  HasRecord(r, e, h) && r[e][h] == attempts[e][h])
            && (forall e, h :: HasRecord(r, e, h) && !HasRecord(attempts, e, h) ==>
                  r[e][h].lastBlock == block.number && h in byHash && e !in byHash[h].origins)
            && (forall e, h :: e in EndpointSet(pools) && HasRecord(attempts, e, h) && Expired(attempts[e][h], block.number, interval) ==>
                  !HasRecord(r, e, h) || r[e][h].lastBlock == block.number)
  {
    var block := pools[0].1.block;
    var interval := cfg.rebroadcastBlockInterval;
    var purged := Purged(attempts, EndpointSet(pools), block.number, interval);
    var order := Offered(entries, byHash, balances, block, MinimumBalance(cfg));
    PurgedShape(attempts, EndpointSet(pools), block.number, interval);
    RoundGuarantees(purged, block.number, running, order, byHash, pools, encode, outcome);
    var r := AfterWidecast(attempts, pools, byHash, entries, balances, cfg, running, encode, outcome);
    forall e, h | HasRecord(r, e, h) && !HasRecord(attempts, e, h)
      ensures r[e][h].lastBlock == block.number && h in byHash && e !in byHash[h].origins
    {
      assert !HasRecord(purged, e, h);
    }
    forall e, h | e in EndpointSet(pools) && HasRecord(attempts, e, h) && Expired(attempts[e][h], block.number, interval)
      ensures !HasRecord(r, e, h) || r[e][h].lastBlock == block.number
    {
      assert !HasRecord(purged, e, h);
    }
  }

  // ---------------------------------------------------------------------
  // The module-level state

  class Transmitter {
    var attempts: Attempts

    constructor ()
      ensures attempts == map[]
    {
      attempts := map[];
    }

    /** Delete every expired record of the pools' endpoints. */
    method Purge(pools: Pools, blockNumber: nat, interval: nat)
      requires DistinctEndpoints(pools)
      modifies this
      ensures attempts == Purged(old(attempts), EndpointSet(pools), blockNumber, interval)
    {
      var i := 0;
      while i < |pools|
        invariant 0 <= i <= |pools|
        invariant attempts == Purged(old(attempts), EndpointSet(pools[..i]), blockNumber, interval)
      {
        var endpoint := pools[i].0;
        assert EndpointSet(pools[..i + 1]) == EndpointSet(pools[..i]) + {endpoint} by {
          assert forall k :: 0 <= k < i ==> pools[..i + 1][k] == pools[..i][k];
          assert pools[..i + 1][i] == pools[i];
        }
        assert endpoint !in EndpointSet(pools[..i]);
        PurgedStep(old(attempts), EndpointSet(pools[..i]), endpoint, blockNumber, interval);
        if endpoint in attempts {
          var existing := attempts[endpoint];
          var kept := existing;
          var todo := existing.Keys;
          while todo != {}
            invariant todo <= existing.Keys
            invariant kept == map h | h in existing && (h in todo || !Expired(existing[h], blockNumber, interval)) :: existing[h]
            invariant todo == {} ==> kept == Unexpired(existing, blockNumber, interval)
            decreases todo
          {
            var hash :| hash in todo;
            var status := existing[hash];
            if status.lastBlock + interval <= blockNumber {
              kept := map h | h in kept && h != hash :: kept[h];
            }
            todo := todo - {hash};
          }
          attempts := attempts[endpoint := kept];
        }
        i := i + 1;
      }
      assert pools[..i] == pools;
    }

    /** One endpoint's callback: returns the new round table and what the
        callback returns; the attempt records are updated in place. */
    method SendToEndpoint(round: Round, blockNumber: nat, hash: Hash, entry: Entry, endpoint: EndpointId,
                          encode: Unsigned -> seq<bv8>, outcome: SendResult)
      returns (round': Round, sent: Sent)
      modifies this
      ensures (Dispatch(attempts, round', false), sent) ==
              SendTo(Dispatch(old(attempts), round, false), blockNumber, hash, entry, endpoint, encode, outcome)
    {
      round' := round;
      if endpoint in entry.origins {
        return round', Count(0);
      }
      var endpointRebroadcasts := if endpoint in attempts then attempts[endpoint] else map[];
      attempts := attempts[endpoint := endpointRebroadcasts];
      if hash in endpointRebroadcasts {
        return round', Count(0);
      }
      var k := KeyOfRound(endpoint, entry.tx);
      var count := if k in round then round[k] else map[];
      if |count| >= 50 {
        return round', Null;
      }
      round' := round'[k := count];
      var serialized := SerializeRpcTransaction(entry.tx, encode);
      if serialized.None? {
        return round', Count(0);
      }
      match outcome {
        case Accepted =>
          round' := round'[k := count[hash := Status(blockNumber, None)]];
          attempts := attempts[endpoint := endpointRebroadcasts[hash := Status(blockNumber, None)]];
          sent := Count(1);
        case Rejected(details) =>
          if details.Some? {
            var firstLine := ClassifyError(details.value);
            var existing := if endpoint in attempts then attempts[endpoint] else map[];
            attempts := attempts[endpoint := existing[hash := Status(blockNumber, Some(firstLine))]];
          }
          sent := Count(0);
      }
    }

    /** The `Promise.all` for one transaction: every endpoint in turn. */
    method FanOutTo(round: Round, blockNumber: nat, hash: Hash, entry: Entry, pools: Pools,
                    encode: Unsigned -> seq<bv8>, outcome: (EndpointId, Hash) -> SendResult)
      returns (round': Round, sent: seq<Sent>)
      modifies this
      ensures (Dispatch(attempts, round', false), sent) ==
              FanOut(Dispatch(old(attempts), round, false), blockNumber, hash, entry, pools, encode, outcome)
    {
      round' := round;
      sent := [];
      var j := 0;
      while j < |pools|
        invariant 0 <= j <= |pools|
        invariant (Dispatch(attempts, round', false), sent) ==
                  FanOut(Dispatch(old(attempts), round, false), blockNumber, hash, entry, pools[..j], encode, outcome)
      {
        assert pools[..j + 1][..j] == pools[..j];
        var endpoint := pools[j].0;
        var s;
        round', s := SendToEndpoint(round', blockNumber, hash, entry, endpoint, encode, outcome(endpoint, hash));
        sent := sent + [s];
        j := j + 1;
      }
      assert pools[..j] == pools;
    }

    /** The limiter's pass over the offered transactions, with the round
        table and the `breakout` flag local to it. */
    method DispatchRound(order: seq<Hash>, byHash: map<Hash, Entry>, pools: Pools, blockNumber: nat, running: bool,
                         encode: Unsigned -> seq<bv8>, outcome: (EndpointId, Hash) -> SendResult)
      modifies this
      ensures attempts == RunRound(Dispatch(old(attempts), map[], false), blockNumber, running, order, byHash, pools, encode, outcome).attempts
    {
      ghost var start := Dispatch(attempts, map[], false);
      var round: Round := map[];
      var breakout := false;
      var i := 0;
      while i < |order|
        invariant 0 <= i <= |order|
        invariant Dispatch(attempts, round, breakout) ==
                  RunRound(start, blockNumber, running, order[..i], byHash, pools, encode, outcome)
      {
        assert order[..i + 1][..i] == order[..i];
        var tx := order[i];
        if running && !breakout && tx in byHash {
          var sent;
          round, sent := FanOutTo(round, blockNumber, tx, byHash[tx], pools, encode, outcome);
          if AllNull(sent) {
            breakout := true;
          }
        }
        i := i + 1;
      }
      assert order[..i] == order;
    }

    /** `widecastTransactions` over the score map `highEnd`, whose entries
        `entries` lists in insertion order. Disabled, it returns empty
        results and touches nothing; enabled, it purges and runs the round,
        and returns the records themselves. The `widecasted` set is never
        filled. */
    method Widecast(pools: Pools, byHash: map<Hash, Entry>, ghost highEnd: map<Hash, int>, entries: seq<(Hash, int)>,
                    balances: Balances, cfg: Config, running: bool,
                    encode: Unsigned -> seq<bv8>, outcome: (EndpointId, Hash) -> SendResult)
      returns (widecasted: set<Hash>, recentBroadcastAttempts: Attempts)
      requires DistinctEndpoints(pools)
      requires highEnd.Keys <= byHash.Keys && EntriesOf(entries, highEnd)
      requires forall i :: 0 <= i < |entries| ==> entries[i].0 in byHash
      requires cfg.widecast ==> |pools| > 0 && SelectDefined(Candidates(entries, byHash), balances, pools[0].1.block, MinimumBalance(cfg))
      modifies this
      ensures widecasted == {}
      ensures !cfg.widecast ==> recentBroadcastAttempts == map[] && attempts == old(attempts)
      ensures cfg.widecast ==>
                && attempts == AfterWidecast(old(attempts), pools, byHash, entries, balances, cfg, running, encode, outcome)
                && recentBroadcastAttempts == attempts
    {
      widecasted := {};
      if !cfg.widecast {
        return widecasted, map[];
      }
      var block := pools[0].1.block;
      var selected := Select(Candidates(entries, byHash), balances, block, MinimumBalance(cfg));
      var order := Hashes(selected);
      Purge(pools, block.number, cfg.rebroadcastBlockInterval);
      DispatchRound(order, byHash, pools, block.number, running, encode, outcome);
      recentBroadcastAttempts := attempts;
    }
  }
}
