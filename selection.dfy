/** The rebroadcast selection: the scored transactions ordered by the
    lower-cased `from:nonce` text, one per lower-cased sender (the first in
    that order), those whose sender has a cached balance that is large
    enough, whose next nonce they carry and which can pay for them, and
    finally the highest scores first. */
module Selection {
  import opened Types
  import opened Strings
  import opened Utils
  import opened Merge
  import opened Filters

  /** An entry `[hash, score]` of the score map, with the merged
      transaction it names and the two keys the selection computes from it. */
  datatype Candidate = Candidate(hash: Hash, score: int, tx: Tx, sortKey: string, senderKey: string)

  /** The first key: `${from}:${nonce}` lower-cased, the nonce as its RPC
      hex text. */
  function TxSortKey(tx: Tx): string {
    Lower(tx.from + ":" + Quantity(tx.nonce))
  }

  /** The deduplication key: the lower-cased sender. */
  function TxSenderKey(tx: Tx): string {
    Lower(tx.from)
  }

  function MakeCandidate(hash: Hash, score: int, tx: Tx): Candidate {
    Candidate(hash, score, tx, TxSortKey(tx), TxSenderKey(tx))
  }

  /** `entries` lists the entries of the score map `scores`, each once:
      what `[...highEndTransactions.entries()]` yields, in insertion order. */
  predicate EntriesOf(entries: seq<(Hash, int)>, scores: map<Hash, int>) {
    && (forall i, j :: 0 <= i < j < |entries| ==> entries[i].0 != entries[j].0)
    && (forall i :: 0 <= i < |entries| ==> entries[i].0 in scores && scores[entries[i].0] == entries[i].1)
    && (forall h :: h in scores ==> exists i :: 0 <= i < |entries| && entries[i].0 == h)
  }

  /** The entries of the score map, in its insertion order, paired with
      their transactions; every scored hash was merged. Each candidate
      carries the two keys of its own transaction. */
  function Candidates(entries: seq<(Hash, int)>, byHash: map<Hash, Entry>): (r: seq<Candidate>)
    requires forall i :: 0 <= i < |entries| ==> entries[i].0 in byHash
    ensures WellKeyed(r)
    ensures forall c :: c in r ==> c.hash in byHash && c.tx == byHash[c.hash].tx
  {
    seq(|entries|, i requires 0 <= i < |entries| => MakeCandidate(entries[i].0, entries[i].1, byHash[entries[i].0].tx))
  }

  /** When `entries` are those of the score map, the candidates are one per
      scored hash, each with that hash's score. */
  lemma CandidatesOfScores(entries: seq<(Hash, int)>, byHash: map<Hash, Entry>, scores: map<Hash, int>)
    requires forall i :: 0 <= i < |entries| ==> entries[i].0 in byHash
    requires EntriesOf(entries, scores)
    ensures var r := Candidates(entries, byHash);
            && (forall i, j :: 0 <= i < j < |r| ==> r[i].hash != r[j].hash)
            && (forall c :: c in r ==> c.hash in scores && c.score == scores[c.hash])
            && (forall h :: h in scores ==> exists c :: c in r && c.hash == h)
  {
    var r := Candidates(entries, byHash);
    forall h | h in scores ensures exists c :: c in r && c.hash == h {
      var i :| 0 <= i < |entries| && entries[i].0 == h;
      assert r[i] in r && r[i].hash == h;
    }
  }

  function SortKey(c: Candidate): string {
    c.sortKey
  }

  function SenderKey(c: Candidate): string {
    c.senderKey
  }

  /** Candidates whose keys are the ones computed from their transactions. */
  predicate WellKeyed(cands: seq<Candidate>) {
    forall i :: 0 <= i < |cands| ==> cands[i] == MakeCandidate(cands[i].hash, cands[i].score, cands[i].tx)
  }

  lemma LexLessAsymmetric(a: string, b: string)
    requires LexLess(a, b)
    ensures !LexLess(b, a)
  {
    if LexLess(b, a) {
      LexLessTransitive(a, b, a);
      LexLessIrreflexive(a);
    }
  }

  // ---------------------------------------------------------------------
  // Stable sort by the text key

  predicate SortedByKey(s: seq<Candidate>) {
    forall i, j :: 0 <= i < j < |s| ==> !LexLess(SortKey(s[j]), SortKey(s[i]))
  }

  /** Place `c` after every element whose key is not greater than its own. */
  function InsertByKey(sorted: seq<Candidate>, c: Candidate): seq<Candidate>
    decreases |sorted|
  {
    if |sorted| == 0 then [c]
    else if LexLess(SortKey(c), SortKey(sorted[|sorted| - 1])) then
      InsertByKey(sorted[..|sorted| - 1], c) + [sorted[|sorted| - 1]]
    else sorted + [c]
  }

  /** `sortBy`: a stable sort on the key. */
  function SortByKey(s: seq<Candidate>): seq<Candidate> {
    if |s| == 0 then [] else InsertByKey(SortByKey(s[..|s| - 1]), s[|s| - 1])
  }

  lemma {:induction false} InsertByKeyMembers(sorted: seq<Candidate>, c: Candidate)
    ensures multiset(InsertByKey(sorted, c)) == multiset(sorted) + multiset{c}
    ensures forall x :: x in InsertByKey(sorted, c) <==> x in sorted || x == c
    decreases |sorted|
  {
    if |sorted| > 0 {
      var front := sorted[..|sorted| - 1];
      var last := sorted[|sorted| - 1];
      assert sorted == front + [last];
      if LexLess(SortKey(c), SortKey(last)) {
        InsertByKeyMembers(front, c);
      }
    }
  }

  lemma {:induction false} InsertByKeySorted(sorted: seq<Candidate>, c: Candidate)
    requires SortedByKey(sorted)
    ensures SortedByKey(InsertByKey(sorted, c))
    decreases |sorted|
  {
    if |sorted| > 0 {
      var front := sorted[..|sorted| - 1];
      var last := sorted[|sorted| - 1];
      var whole := InsertByKey(sorted, c);
      if LexLess(SortKey(c), SortKey(last)) {
        assert SortedByKey(front);
        InsertByKeySorted(front, c);
        InsertByKeyMembers(front, c);
        var r := InsertByKey(front, c);
        assert whole == r + [last];
        LexLessAsymmetric(SortKey(c), SortKey(last));
        forall i, j | 0 <= i < j < |whole| ensures !LexLess(SortKey(whole[j]), SortKey(whole[i])) {
          assert whole[i] == r[i];
          if j < |r| {
            assert whole[j] == r[j];
          } else {
            assert r[i] in r;
            if r[i] != c {
              var k :| 0 <= k < |front| && front[k] == r[i];
              assert sorted[k] == r[i];
            }
          }
        }
      } else {
        assert whole == sorted + [c];
        forall i, j | 0 <= i < j < |whole| ensures !LexLess(SortKey(whole[j]), SortKey(whole[i])) {
          assert whole[i] == sorted[i];
          if j < |sorted| {
            assert whole[j] == sorted[j];
          } else if i < |sorted| - 1 {
            LexLeqTransitive(SortKey(sorted[i]), SortKey(last), SortKey(c));
          }
        }
      }
    }
  }

  /** `sortBy` orders by the key and only reorders. */
  lemma {:induction false} SortByKeySorted(s: seq<Candidate>)
    ensures SortedByKey(SortByKey(s))
    ensures multiset(SortByKey(s)) == multiset(s)
  {
    if |s| > 0 {
      SortByKeySorted(s[..|s| - 1]);
      InsertByKeySorted(SortByKey(s[..|s| - 1]), s[|s| - 1]);
      InsertByKeyMembers(SortByKey(s[..|s| - 1]), s[|s| - 1]);
      assert s == s[..|s| - 1] + [s[|s| - 1]];
    }
  }

  // ---------------------------------------------------------------------
  // One per sender

  predicate DistinctSenders(s: seq<Candidate>) {
    forall i, j :: 0 <= i < j < |s| ==> SenderKey(s[i]) != SenderKey(s[j])
  }

  /** No earlier element has the same sender. */
  predicate FirstOfSender(s: seq<Candidate>, k: nat)
    requires k < |s|
  {
    forall j :: 0 <= j < k ==> SenderKey(s[j]) != SenderKey(s[k])
  }

  /** `uniqBy`: keep the first element of each sender not yet `seen`. */
  function UniqBySender(s: seq<Candidate>, seen: set<string>): seq<Candidate> {
    if |s| == 0 then []
    else if SenderKey(s[0]) in seen then UniqBySender(s[1..], seen)
    else [s[0]] + UniqBySender(s[1..], seen + {SenderKey(s[0])})
  }

  /** `uniqBy` keeps only first elements of senders it has not seen. */
  lemma {:induction false} UniqBySenderFirsts(s: seq<Candidate>, seen: set<string>)
    ensures forall x :: x in UniqBySender(s, seen) ==>
              SenderKey(x) !in seen && exists k :: 0 <= k < |s| && s[k] == x && FirstOfSender(s, k)
  {
    if |s| > 0 {
      var rest := s[1..];
      var seen' := if SenderKey(s[0]) in seen then seen else seen + {SenderKey(s[0])};
      UniqBySenderFirsts(rest, seen');
      var tail := UniqBySender(rest, seen');
      assert UniqBySender(s, seen) == (if SenderKey(s[0]) in seen then tail else [s[0]] + tail);
      forall x | x in tail ensures exists k :: 0 <= k < |s| && s[k] == x && FirstOfSender(s, k) {
        var k' :| 0 <= k' < |rest| && rest[k'] == x && FirstOfSender(rest, k');
        assert s[k' + 1] == x;
        forall j | 0 <= j < k' + 1 ensures SenderKey(s[j]) != SenderKey(s[k' + 1]) {
          if j > 0 {
            assert s[j] == rest[j - 1];
          }
        }
      }
      assert FirstOfSender(s, 0);
    }
  }

  /** `uniqBy` keeps the first element of every sender it has not seen. */
  lemma {:induction false} UniqBySenderKeeps(s: seq<Candidate>, seen: set<string>)
    ensures forall k :: 0 <= k < |s| && SenderKey(s[k]) !in seen && FirstOfSender(s, k) ==> s[k] in UniqBySender(s, seen)
  {
    if |s| > 0 {
      var rest := s[1..];
      var seen' := if SenderKey(s[0]) in seen then seen else seen + {SenderKey(s[0])};
      UniqBySenderKeeps(rest, seen');
      var tail := UniqBySender(rest, seen');
      assert UniqBySender(s, seen) == (if SenderKey(s[0]) in seen then tail else [s[0]] + tail);
      forall k | 0 < k < |s| && SenderKey(s[k]) !in seen && FirstOfSender(s, k) ensures s[k] in tail {
        assert s[k] == rest[k - 1];
        assert SenderKey(s[0]) != SenderKey(s[k]);
        forall j | 0 <= j < k - 1 ensures SenderKey(rest[j]) != SenderKey(rest[k - 1]) {
          assert rest[j] == s[j + 1];
        }
        assert FirstOfSender(rest, k - 1);
      }
    }
  }

  /** The survivors of `uniqBy` have distinct senders. */
  lemma {:induction false} UniqBySenderDistinct(s: seq<Candidate>, seen: set<string>)
    ensures DistinctSenders(UniqBySender(s, seen))
  {
    if |s| > 0 {
      var rest := s[1..];
      var seen' := if SenderKey(s[0]) in seen then seen else seen + {SenderKey(s[0])};
      UniqBySenderDistinct(rest, seen');
      UniqBySenderFirsts(rest, seen');
      var tail := UniqBySender(rest, seen');
      if SenderKey(s[0]) !in seen {
        var r := [s[0]] + tail;
        forall i, j | 0 <= i < j < |r| ensures SenderKey(r[i]) != SenderKey(r[j]) {
          assert r[j] == tail[j - 1];
          if i > 0 {
            assert r[i] == tail[i - 1];
          } else {
            assert r[j] in tail;
          }
        }
      }
    }
  }

  // ---------------------------------------------------------------------
  // Eligibility

  /** The balance test is only reached once the cached balance and the
      nonce have passed, and then reads what `AffordabilityDefined` names. */
  predicate EligibleDefined(c: Candidate, balances: Balances, block: Block, minimum: nat) {
    c.tx.from in balances && balances[c.tx.from].amount >= minimum && balances[c.tx.from].latestNonce == c.tx.nonce ==>
      AffordabilityDefined(c.tx, block)
  }

  /** The `filter` step: the sender has cached balance data (looked up by the
      sender exactly as spelled), it reaches the minimum, the account's next
      nonce is this transaction's, and the balance covers it. */
  predicate Eligible(c: Candidate, balances: Balances, block: Block, minimum: nat)
    requires EligibleDefined(c, balances, block, minimum)
  {
    && c.tx.from in balances
    && balances[c.tx.from].amount >= minimum
    && balances[c.tx.from].latestNonce == c.tx.nonce
    && EnoughBalanceToCover(c.tx, block, balances[c.tx.from].amount)
  }

  function FilterEligible(s: seq<Candidate>, balances: Balances, block: Block, minimum: nat): seq<Candidate>
    requires forall i :: 0 <= i < |s| ==> EligibleDefined(s[i], balances, block, minimum)
  {
    if |s| == 0 then []
    else (if Eligible(s[0], balances, block, minimum) then [s[0]] else [])
         + FilterEligible(s[1..], balances, block, minimum)
  }

  /** `filter` keeps exactly the eligible elements, and distinct senders stay
      distinct. */
  lemma {:induction false} FilterEligibleShape(s: seq<Candidate>, balances: Balances, block: Block, minimum: nat)
    requires forall i :: 0 <= i < |s| ==> EligibleDefined(s[i], balances, block, minimum)
    ensures forall x :: x in FilterEligible(s, balances, block, minimum) <==>
              x in s && EligibleDefined(x, balances, block, minimum) && Eligible(x, balances, block, minimum)
    ensures DistinctSenders(s) ==> DistinctSenders(FilterEligible(s, balances, block, minimum))
  {
    if |s| > 0 {
      var rest := s[1..];
      assert forall i :: 0 <= i < |rest| ==> rest[i] == s[i + 1];
      FilterEligibleShape(rest, balances, block, minimum);
      assert s == [s[0]] + rest;
      var r := FilterEligible(s, balances, block, minimum);
      var tail := FilterEligible(rest, balances, block, minimum);
      if DistinctSenders(s) {
        assert DistinctSenders(rest) by {
          forall i, j | 0 <= i < j < |rest| ensures SenderKey(rest[i]) != SenderKey(rest[j]) {
            assert rest[i] == s[i + 1] && rest[j] == s[j + 1];
          }
        }
        if Eligible(s[0], balances, block, minimum) {
          forall i, j | 0 <= i < j < |r| ensures SenderKey(r[i]) != SenderKey(r[j]) {
            assert r[j] == tail[j - 1];
            if i > 0 {
              assert r[i] == tail[i - 1];
            } else {
              assert r[j] in rest;
              var k :| 0 <= k < |rest| && rest[k] == r[j];
              assert s[k + 1] == r[j];
            }
          }
        }
      }
    }
  }

  // ---------------------------------------------------------------------
  // Highest score first

  predicate ByScoreDescending(s: seq<Candidate>) {
    forall i, j :: 0 <= i < j < |s| ==> s[i].score >= s[j].score
  }

  /** Place `c` after every element whose score is at least its own. */
  function InsertByScore(sorted: seq<Candidate>, c: Candidate): seq<Candidate>
    decreases |sorted|
  {
    if |sorted| == 0 then [c]
    else if c.score > sorted[|sorted| - 1].score then
      InsertByScore(sorted[..|sorted| - 1], c) + [sorted[|sorted| - 1]]
    else sorted + [c]
  }

  /** The final `sort` on the score, highest first. */
  function SortByScore(s: seq<Candidate>): seq<Candidate> {
    if |s| == 0 then [] else InsertByScore(SortByScore(s[..|s| - 1]), s[|s| - 1])
  }

  lemma {:induction false} InsertByScoreMembers(sorted: seq<Candidate>, c: Candidate)
    ensures multiset(InsertByScore(sorted, c)) == multiset(sorted) + multiset{c}
    ensures forall x :: x in InsertByScore(sorted, c) <==> x in sorted || x == c
    decreases |sorted|
  {
    if |sorted| > 0 {
      var front := sorted[..|sorted| - 1];
      var last := sorted[|sorted| - 1];
      assert sorted == front + [last];
      if c.score > last.score {
        InsertByScoreMembers(front, c);
      }
    }
  }

  lemma {:induction false} InsertByScoreSorted(sorted: seq<Candidate>, c: Candidate)
    requires ByScoreDescending(sorted)
    ensures ByScoreDescending(InsertByScore(sorted, c))
    decreases |sorted|
  {
    if |sorted| > 0 {
      var front := sorted[..|sorted| - 1];
      var last := sorted[|sorted| - 1];
      var whole := InsertByScore(sorted, c);
      if c.score > last.score {
        assert ByScoreDescending(front);
        InsertByScoreSorted(front, c);
        InsertByScoreMembers(front, c);
        var r := InsertByScore(front, c);
        assert whole == r + [last];
        forall i, j | 0 <= i < j < |whole| ensures whole[i].score >= whole[j].score {
          assert whole[i] == r[i];
          if j < |r| {
            assert whole[j] == r[j];
          } else {
            assert r[i] in r;
            if r[i] != c {
              var k :| 0 <= k < |front| && front[k] == r[i];
              assert sorted[k] == r[i];
            }
          }
        }
      } else {
        assert whole == sorted + [c];
        forall i, j | 0 <= i < j < |whole| ensures whole[i].score >= whole[j].score {
          assert whole[i] == sorted[i];
          if j < |sorted| {
            assert whole[j] == sorted[j];
          }
        }
      }
    }
  }

  lemma {:induction false} InsertByScoreDistinct(sorted: seq<Candidate>, c: Candidate)
    requires DistinctSenders(sorted)
    requires forall x :: x in sorted ==> SenderKey(x) != SenderKey(c)
    ensures DistinctSenders(InsertByScore(sorted, c))
    decreases |sorted|
  {
    if |sorted| > 0 {
      var front := sorted[..|sorted| - 1];
      var last := sorted[|sorted| - 1];
      var whole := InsertByScore(sorted, c);
      if c.score > last.score {
        assert DistinctSenders(front);
        assert forall x :: x in front ==> x in sorted;
        InsertByScoreDistinct(front, c);
        InsertByScoreMembers(front, c);
        var r := InsertByScore(front, c);
        assert whole == r + [last];
        forall i, j | 0 <= i < j < |whole| ensures SenderKey(whole[i]) != SenderKey(whole[j]) {
          assert whole[i] == r[i];
          if j < |r| {
            assert whole[j] == r[j];
          } else {
            assert r[i] in r;
            if r[i] != c {
              var k :| 0 <= k < |front| && front[k] == r[i];
              assert sorted[k] == r[i];
            }
          }
        }
      } else {
        assert whole == sorted + [c];
        forall i, j | 0 <= i < j < |whole| ensures SenderKey(whole[i]) != SenderKey(whole[j]) {
          assert whole[i] == sorted[i];
          if j < |sorted| {
            assert whole[j] == sorted[j];
          }
        }
      }
    }
  }

  /** The score sort orders by non-increasing score and only reorders. */
  lemma {:induction false} SortByScoreSorted(s: seq<Candidate>)
    ensures ByScoreDescending(SortByScore(s))
    ensures multiset(SortByScore(s)) == multiset(s)
  {
    if |s| > 0 {
      var front := s[..|s| - 1];
      SortByScoreSorted(front);
      InsertByScoreSorted(SortByScore(front), s[|s| - 1]);
      InsertByScoreMembers(SortByScore(front), s[|s| - 1]);
      assert s == front + [s[|s| - 1]];
    }
  }

  /** The score sort keeps distinct senders distinct. */
  lemma {:induction false} SortByScoreDistinct(s: seq<Candidate>)
    requires DistinctSenders(s)
    ensures DistinctSenders(SortByScore(s))
  {
    if |s| > 0 {
      var front := s[..|s| - 1];
      var last := s[|s| - 1];
      assert DistinctSenders(front);
      SortByScoreDistinct(front);
      SortByScoreSorted(front);
      var sortedFront := SortByScore(front);
      forall x | x in sortedFront ensures SenderKey(x) != SenderKey(last) {
        assert x in multiset(sortedFront);
        assert x in multiset(front);
        var k :| 0 <= k < |front| && front[k] == x;
        assert s[k] == x;
      }
      InsertByScoreDistinct(sortedFront, last);
    }
  }

  // ---------------------------------------------------------------------
  // The whole selection

  lemma {:induction false} FirstIndex(s: seq<Candidate>, x: Candidate) returns (k: nat)
    requires x in s
    ensures k < |s| && s[k] == x
    ensures forall j :: 0 <= j < k ==> s[j] != x
  {
    if s[0] == x {
      k := 0;
    } else {
      var k' := FirstIndex(s[1..], x);
      k := k' + 1;
      forall j | 0 <= j < k ensures s[j] != x {
        if j > 0 {
          assert s[j] == s[1..][j - 1];
        }
      }
    }
  }

  /** Sorted by key, then one per sender. */
  function Unique(cands: seq<Candidate>): seq<Candidate> {
    UniqBySender(SortByKey(cands), {})
  }

  /** The `filter` only sees what `uniqBy` kept, so only those candidates
      have to be safe to filter. */
  predicate SelectDefined(cands: seq<Candidate>, balances: Balances, block: Block, minimum: nat) {
    forall i :: 0 <= i < |Unique(cands)| ==> EligibleDefined(Unique(cands)[i], balances, block, minimum)
  }

  lemma UniqueMembers(cands: seq<Candidate>)
    ensures forall x :: x in Unique(cands) ==> x in cands
  {
    var byKey := SortByKey(cands);
    SortByKeySorted(cands);
    UniqBySenderFirsts(byKey, {});
    forall x | x in Unique(cands) ensures x in cands {
      var k :| 0 <= k < |byKey| && byKey[k] == x && FirstOfSender(byKey, k);
      assert x in multiset(byKey);
    }
  }

  /** `transactionsSortedByPriority`. */
  function Select(cands: seq<Candidate>, balances: Balances, block: Block, minimum: nat): seq<Candidate>
    requires SelectDefined(cands, balances, block, minimum)
  {
    SortByScore(FilterEligible(Unique(cands), balances, block, minimum))
  }

  /** The survivors are candidates, each eligible, with distinct senders, in
      non-increasing score order. */
  lemma SelectSound(cands: seq<Candidate>, balances: Balances, block: Block, minimum: nat)
    requires SelectDefined(cands, balances, block, minimum)
    ensures var r := Select(cands, balances, block, minimum);
            && DistinctSenders(r)
            && ByScoreDescending(r)
            && forall x :: x in r ==> x in cands && EligibleDefined(x, balances, block, minimum) && Eligible(x, balances, block, minimum)
  {
    UniqueMembers(cands);
    var unique := Unique(cands);
    UniqBySenderDistinct(SortByKey(cands), {});
    var filtered := FilterEligible(unique, balances, block, minimum);
    FilterEligibleShape(unique, balances, block, minimum);
    SortByScoreSorted(filtered);
    SortByScoreDistinct(filtered);
    var r := Select(cands, balances, block, minimum);
    forall x | x in r ensures x in cands && EligibleDefined(x, balances, block, minimum) && Eligible(x, balances, block, minimum) {
      assert x in multiset(r);
    }
  }

  /** Each survivor's key is the least among its sender's candidates: the
      sender's other candidates all sort at or after it. So a sender whose
      least-keyed candidate fails the filter has no survivor at all. */
  lemma SelectLeastKey(cands: seq<Candidate>, balances: Balances, block: Block, minimum: nat, x: Candidate, c: Candidate)
    requires SelectDefined(cands, balances, block, minimum)
    requires x in Select(cands, balances, block, minimum)
    requires c in cands && SenderKey(c) == SenderKey(x)
    ensures !LexLess(SortKey(c), SortKey(x))
  {
    var byKey := SortByKey(cands);
    SortByKeySorted(cands);
    var unique := Unique(cands);
    UniqBySenderFirsts(byKey, {});
    var filtered := FilterEligible(unique, balances, block, minimum);
    FilterEligibleShape(unique, balances, block, minimum);
    SortByScoreSorted(filtered);
    assert x in multiset(Select(cands, balances, block, minimum));
    assert x in unique;
    var k :| 0 <= k < |byKey| && byKey[k] == x && FirstOfSender(byKey, k);
    assert c in multiset(byKey);
    var m :| 0 <= m < |byKey| && byKey[m] == c;
    assert !(m < k);
    if m > k {
      assert !LexLess(SortKey(byKey[m]), SortKey(byKey[k]));
    } else {
      LexLessIrreflexive(SortKey(c));
    }
  }

  /** An eligible candidate whose key is strictly less than those of all its
      sender's other candidates is selected. */
  lemma SelectComplete(cands: seq<Candidate>, balances: Balances, block: Block, minimum: nat, c: Candidate)
    requires SelectDefined(cands, balances, block, minimum)
    requires c in cands && EligibleDefined(c, balances, block, minimum) && Eligible(c, balances, block, minimum)
    requires forall d :: d in cands && d != c && SenderKey(d) == SenderKey(c) ==> LexLess(SortKey(c), SortKey(d))
    ensures c in Select(cands, balances, block, minimum)
  {
    var byKey := SortByKey(cands);
    SortByKeySorted(cands);
    UniqBySenderKeeps(byKey, {});
    assert c in multiset(byKey);
    var k := FirstIndex(byKey, c);
    forall j | 0 <= j < k ensures SenderKey(byKey[j]) != SenderKey(byKey[k]) {
      assert !LexLess(SortKey(byKey[k]), SortKey(byKey[j]));
      assert byKey[j] in multiset(byKey);
      assert byKey[j] != c;
    }
    var unique := Unique(cands);
    assert c in unique;
    var filtered := FilterEligible(unique, balances, block, minimum);
    FilterEligibleShape(unique, balances, block, minimum);
    SortByScoreSorted(filtered);
    assert c in multiset(filtered);
  }

  /** The nonce is compared as text: of one sender's transactions, the one
      with nonce 16 (`0x10`) sorts before the one with nonce 2 (`0x2`). */
  lemma NonceTextOrder(tx16: Tx, tx2: Tx)
    requires tx16.from == tx2.from && tx16.nonce == 16 && tx2.nonce == 2
    ensures LexLess(TxSortKey(tx16), TxSortKey(tx2))
  {
    assert Quantity(16) == "0x" + "10";
    assert Quantity(2) == "0x" + "2";
    var p := tx16.from + ":" + "0x";
    assert tx16.from + ":" + Quantity(16) == p + "10";
    assert tx2.from + ":" + Quantity(2) == p + "2";
    LowerConcat(p, "10");
    LowerConcat(p, "2");
    assert Lower("10") == "10" && Lower("2") == "2";
    assert LexLess("10", "2");
    LexLessPrefix(Lower(p), "10", "2");
  }

  /** So when a sender has both, the nonce 2 transaction is never selected,
      even when 2 is the account's next nonce and it is affordable. */
  lemma NonceTwoShadowed(cands: seq<Candidate>, balances: Balances, block: Block, minimum: nat, c16: Candidate, c2: Candidate)
    requires SelectDefined(cands, balances, block, minimum)
    requires WellKeyed(cands)
    requires c16 in cands && c2 in cands
    requires c16.tx.from == c2.tx.from && c16.tx.nonce == 16 && c2.tx.nonce == 2
    ensures c2 !in Select(cands, balances, block, minimum)
  {
    var i :| 0 <= i < |cands| && cands[i] == c16;
    var j :| 0 <= j < |cands| && cands[j] == c2;
    NonceTextOrder(c16.tx, c2.tx);
    assert SenderKey(c16) == SenderKey(c2);
    if c2 in Select(cands, balances, block, minimum) {
      SelectLeastKey(cands, balances, block, minimum, c2, c16);
    }
  }
}
