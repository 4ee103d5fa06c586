/**
 verifyFiles: one signature check per (file, signature) pair, aggregated by a
 `pending` counter. Each check is a call of `ssh-keygen -Y verify` that the
 model treats as an oracle. The checks finish in some order (a permutation of
 the pair indices); each completion is processed in turn, and the callback
 invocations it causes are recorded as a sequence of signals.
 */
module Verification {
  import opened FileSystem
  import opened Uploads

  /** The signature namespace passed with -n. */
  const Namespace: string := "file"

  /** The arguments of one `ssh-keygen -Y verify -f signers -n namespace -s signature -I identity` call; the message is read from `message`. */
  datatype VerifyCall = VerifyCall(signers: Path, namespace: string, signature: Path, identity: string, message: Path)

  /** The external verifier: true when the subprocess exits successfully. */
  type Verifier = VerifyCall -> bool

  /** One invocation of verifyFiles' callback: callback(null) or callback(err) from pair `child`. */
  datatype Signal = Verified | Failed(child: nat)

  function CallFor(signers: Path, identifier: string, file: Upload, signature: Upload): VerifyCall
  {
    VerifyCall(signers, Namespace, signature.path, identifier, file.path)
  }

  /** The verifier's verdict on each pair, by pair index. */
  function Outcomes(verifier: Verifier, signers: Path, identifier: string, files: seq<Upload>, signatures: seq<Upload>): (r: seq<bool>)
    requires |files| == |signatures|
    ensures |r| == |files|
    ensures forall i :: 0 <= i < |files| ==> r[i] == verifier(CallFor(signers, identifier, files[i], signatures[i]))
  {
    seq(|files|, i requires 0 <= i < |files| => verifier(CallFor(signers, identifier, files[i], signatures[i])))
  }

  /** Each of the n checks completes exactly once. */
  ghost predicate IsPermutation(order: seq<nat>, n: nat)
  {
    && |order| == n
    && (forall k :: 0 <= k < n ==> order[k] < n)
    && (forall i :: 0 <= i < n ==> i in order)
    && (forall j, k :: 0 <= j < k < n ==> order[j] != order[k])
  }

  ghost predicate InRange(order: seq<nat>, n: nat)
  {
    forall k :: 0 <= k < |order| ==> order[k] < n
  }

  /**
   The callback invocations caused by the completions `order`, starting from
   counter value `pending`: a failing check calls back with its error at once;
   a passing one decrements the counter, and calls back with success when the
   counter reaches 0.
   */
  function Signals(outcomes: seq<bool>, order: seq<nat>, pending: int): seq<Signal>
    requires InRange(order, |outcomes|)
    decreases |order|
  {
    if order == [] then []
    else
      var child := order[0];
      if !outcomes[child] then [Failed(child)] + Signals(outcomes, order[1..], pending)
      else if pending - 1 == 0 then [Verified] + Signals(outcomes, order[1..], pending - 1)
      else Signals(outcomes, order[1..], pending - 1)
  }

  /** verifyFiles(files, signatures, identifier, callback) */
  method VerifyFiles(signers: Path, files: seq<Upload>, signatures: seq<Upload>, identifier: string,
                     verifier: Verifier, order: seq<nat>) returns (signals: seq<Signal>)
    requires |files| == |signatures|
    requires IsPermutation(order, |files|)
    ensures signals == Signals(Outcomes(verifier, signers, identifier, files, signatures), order, |files|)
    ensures Verified in signals <==> |files| > 0 && forall i :: 0 <= i < |files| ==>
              verifier(CallFor(signers, identifier, files[i], signatures[i]))
  {
    ghost var outcomes := Outcomes(verifier, signers, identifier, files, signatures);
    var pending := |files|;
    signals := [];
    var k := 0;
    while k < |order|
      invariant 0 <= k <= |order|
      invariant signals + Signals(outcomes, order[k..], pending) == Signals(outcomes, order, |files|)
    {
      var child := order[k];
      var ok := verifier(CallFor(signers, identifier, files[child], signatures[child]));
      assert order[k..][1..] == order[k + 1..];
      if !ok {
        signals := signals + [Failed(child)];
      } else {
        pending := pending - 1;
        if pending == 0 {
          signals := signals + [Verified];
        }
      }
      k := k + 1;
    }
    assert order[k..] == [];
    SuccessIffAllVerified(outcomes, order);
  }

  /** How many of the completions in `order` passed. */
  function Passes(outcomes: seq<bool>, order: seq<nat>): (r: nat)
    requires InRange(order, |outcomes|)
    ensures r <= |order|
    decreases |order|
  {
    if order == [] then 0
    else (if outcomes[order[0]] then 1 else 0) + Passes(outcomes, order[1..])
  }

  /** Every completion passed exactly when the pass count is the number of completions. */
  lemma {:induction false} PassesAll(outcomes: seq<bool>, order: seq<nat>)
    requires InRange(order, |outcomes|)
    ensures Passes(outcomes, order) == |order| <==> forall k :: 0 <= k < |order| ==> outcomes[order[k]]
    decreases |order|
  {
    if order != [] {
      PassesAll(outcomes, order[1..]);
      assert forall k :: 1 <= k < |order| ==> order[k] == order[1..][k - 1];
    }
  }

  /** Success is signalled iff the counter starts positive and at least that many checks pass. */
  lemma {:induction false} VerifiedIffEnoughPasses(outcomes: seq<bool>, order: seq<nat>, pending: int)
    requires InRange(order, |outcomes|)
    ensures Verified in Signals(outcomes, order, pending) <==> 1 <= pending <= Passes(outcomes, order)
    decreases |order|
  {
    if order != [] {
      var p := if outcomes[order[0]] then pending - 1 else pending;
      VerifiedIffEnoughPasses(outcomes, order[1..], p);
    }
  }

  /** A failing check calls back with its error; a passing one never does. */
  lemma {:induction false} FailedIffFailing(outcomes: seq<bool>, order: seq<nat>, pending: int, i: nat)
    requires InRange(order, |outcomes|)
    ensures Failed(i) in Signals(outcomes, order, pending) <==> i in order && !outcomes[i]
    decreases |order|
  {
    if order != [] {
      var p := if outcomes[order[0]] then pending - 1 else pending;
      FailedIffFailing(outcomes, order[1..], p, i);
      assert i in order <==> i == order[0] || i in order[1..];
    }
  }

  /** Success is signalled at most once: the counter passes through 0 only once. */
  lemma {:induction false} VerifiedAtMostOnce(outcomes: seq<bool>, order: seq<nat>, pending: int)
    requires InRange(order, |outcomes|)
    ensures var s := Signals(outcomes, order, pending);
      forall j, k :: 0 <= j < k < |s| && s[j] == Verified ==> s[k] != Verified
    decreases |order|
  {
    if order != [] {
      var p := if outcomes[order[0]] then pending - 1 else pending;
      var rest := Signals(outcomes, order[1..], p);
      VerifiedAtMostOnce(outcomes, order[1..], p);
      var s := Signals(outcomes, order, pending);
      if outcomes[order[0]] && pending - 1 == 0 {
        VerifiedIffEnoughPasses(outcomes, order[1..], p);
        assert s == [Verified] + rest;
        forall j, k | 0 <= j < k < |s| && s[j] == Verified ensures s[k] != Verified {
          assert s[k] == rest[k - 1];
        }
      } else if !outcomes[order[0]] {
        assert s == [Failed(order[0])] + rest;
        forall j, k | 0 <= j < k < |s| && s[j] == Verified ensures s[k] != Verified {
          assert s[j] == rest[j - 1] && s[k] == rest[k - 1];
        }
      } else {
        assert s == rest;
      }
    }
  }

  /** With one completion per pair, success is signalled iff the batch is non-empty and every pair verifies. */
  lemma SuccessIffAllVerified(outcomes: seq<bool>, order: seq<nat>)
    requires IsPermutation(order, |outcomes|)
    ensures Verified in Signals(outcomes, order, |outcomes|) <==>
              |outcomes| > 0 && forall i :: 0 <= i < |outcomes| ==> outcomes[i]
  {
    VerifiedIffEnoughPasses(outcomes, order, |outcomes|);
    PassesAll(outcomes, order);
    if forall k :: 0 <= k < |order| ==> outcomes[order[k]] {
      forall i | 0 <= i < |outcomes| ensures outcomes[i] {
        assert i in order;
        var k :| 0 <= k < |order| && order[k] == i;
      }
    }
  }

  /** When every completion passes and the counter starts at their number, the one signal is success, at the last completion. */
  lemma {:induction false} AllPassSignalsOnce(outcomes: seq<bool>, order: seq<nat>, pending: int)
    requires InRange(order, |outcomes|)
    requires forall k :: 0 <= k < |order| ==> outcomes[order[k]]
    requires pending == |order| > 0
    ensures Signals(outcomes, order, pending) == [Verified]
    decreases |order|
  {
    if |order| > 1 {
      AllPassSignalsOnce(outcomes, order[1..], pending - 1);
    }
  }

  /** When any pair fails, the first callback is an error and success is never signalled. */
  lemma FirstSignalIsFailure(outcomes: seq<bool>, order: seq<nat>, i: nat)
    requires IsPermutation(order, |outcomes|)
    requires i < |outcomes| && !outcomes[i]
    ensures var s := Signals(outcomes, order, |outcomes|);
      |s| > 0 && s[0].Failed? && Verified !in s
  {
    SuccessIffAllVerified(outcomes, order);
    FailedIffFailing(outcomes, order, |outcomes|, i);
  }

  /** When every pair verifies, the callback runs exactly once, with success. */
  lemma SuccessIsSoleSignal(outcomes: seq<bool>, order: seq<nat>)
    requires IsPermutation(order, |outcomes|)
    requires |outcomes| > 0 && forall i :: 0 <= i < |outcomes| ==> outcomes[i]
    ensures Signals(outcomes, order, |outcomes|) == [Verified]
  {
    AllPassSignalsOnce(outcomes, order, |outcomes|);
  }

  /** With no pairs there is no completion, so the callback never runs. */
  lemma EmptyBatchNeverCallsBack(outcomes: seq<bool>, order: seq<nat>)
    requires IsPermutation(order, |outcomes|)
    requires |outcomes| == 0
    ensures Signals(outcomes, order, |outcomes|) == []
  {
  }

  /** The number of error callbacks carrying pair i: one per completion of i that failed. */
  lemma {:induction false} FailedCount(outcomes: seq<bool>, order: seq<nat>, pending: int, i: nat)
    requires InRange(order, |outcomes|)
    ensures multiset(Signals(outcomes, order, pending))[Failed(i)] ==
              if i < |outcomes| && !outcomes[i] then multiset(order)[i] else 0
    decreases |order|
  {
    if order != [] {
      var p := if outcomes[order[0]] then pending - 1 else pending;
      FailedCount(outcomes, order[1..], p, i);
      assert order == [order[0]] + order[1..];
    }
  }

  lemma {:induction false} DistinctOccursOnce(order: seq<nat>, i: nat)
    requires forall j, k :: 0 <= j < k < |order| ==> order[j] != order[k]
    requires i in order
    ensures multiset(order)[i] == 1
    decreases |order|
  {
    assert order == [order[0]] + order[1..];
    if order[0] == i {
      assert i !in order[1..];
    } else {
      DistinctOccursOnce(order[1..], i);
    }
  }

  /** Each failing pair calls back with its error exactly once. */
  lemma EachFailureSignalledOnce(outcomes: seq<bool>, order: seq<nat>, i: nat)
    requires IsPermutation(order, |outcomes|)
    requires i < |outcomes| && !outcomes[i]
    ensures multiset(Signals(outcomes, order, |outcomes|))[Failed(i)] == 1
  {
    FailedCount(outcomes, order, |outcomes|, i);
    DistinctOccursOnce(order, i);
  }
}
