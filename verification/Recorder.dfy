/** The receipt recorder: calls begun, calls in flight, and calls written down. Its methods are atomic under
    the recorder's condition, so any interleaving of handlers is a sequence of them. */
module Recorder {
  import opened Wrappers

  /** One request as the wire saw it. An abandoned one has a proxy error and nothing else. */
  datatype ObservedCall = ObservedCall(seqNo: int, startedUtc: int, path: string, status: int,
                                       generationId: Option<string>, proxyError: Option<string>)

  /** What the wire saw of a call: an answer with its status, or none. */
  datatype Wire = NoAnswer | Answer(code: int)

  predicate HttpAnswer(wire: Wire) { wire.Answer? ==> 100 <= wire.code < 600 }

  /** The status a call is filed with: it starts at 0, and an answer sets it. */
  function StatusOf(wire: Wire): int { if wire.Answer? then wire.code else 0 }

  /** What is filed for a call that did not complete: its number, and nothing known but why it stopped. */
  function Unfinished(seqNo: int, why: string): ObservedCall {
    ObservedCall(seqNo, 0, "?", StatusOf(NoAnswer), None, Some(why))
  }

  function SeqSet(calls: seq<ObservedCall>): set<int> {
    set i | 0 <= i < |calls| :: calls[i].seqNo
  }

  /** The numbers given out so far. */
  function Begun(last: int): (begun: set<int>)
    ensures forall n :: n in begun <==> 1 <= n <= last
  {
    if last <= 0 then {} else Begun(last - 1) + {last}
  }

  /** Every number begun is filed or pending, and none is both. */
  ghost predicate Ledger(filed: set<int>, pending: set<int>, last: int) {
    filed !! pending && filed + pending == Begun(last)
  }

  class ReceiptRecorder {
    var calls: seq<ObservedCall>  // in memory
    var file: seq<ObservedCall>   // the JSONL beside it
    var lastSeq: int
    var inflight: int
    ghost var pending: set<int>      // begun, and not yet written down
    ghost var failedWrites: int   // appended in memory, then the file could not be written

    /** The file and the calls in flight together are the calls begun, each exactly once; the list in memory
        exceeds that by one entry per failed write. */
    ghost predicate Valid()
      reads this
    {
      && 0 <= lastSeq && 0 <= failedWrites && inflight == |pending|
      && Ledger(SeqSet(file), pending, lastSeq)
      && |file| + inflight == lastSeq
      && |calls| + inflight == lastSeq + failedWrites
      && (failedWrites == 0 ==> calls == file)
    }

    constructor ()
      ensures Valid() && lastSeq == 0 && calls == [] && file == [] && failedWrites == 0
    {
      calls, file, lastSeq, inflight, pending, failedWrites := [], [], 0, 0, {}, 0;
      new;
      assert Begun(0) == {};
    }

    method NextSeq() returns (n: int)
      requires Valid()
      modifies this
      ensures Valid() && n == lastSeq == old(lastSeq) + 1 && pending == old(pending) + {n}
      ensures calls == old(calls) && file == old(file) && failedWrites == old(failedWrites)
    {
      BegunOnce(SeqSet(file), pending, lastSeq);
      n := lastSeq + 1;
      lastSeq, inflight, pending := n, inflight + 1, pending + {n};
    }

    /** Write a call down: the list, then the file, then the count. A file that cannot be written raises
        after the list has grown and before the count goes down. */
    method Record(call: ObservedCall, writable: bool) returns (raised: bool)
      requires Valid() && call.seqNo in pending
      modifies this
      ensures Valid() && raised == !writable && lastSeq == old(lastSeq)
      ensures calls == old(calls) + [call]
      ensures writable ==> file == old(file) + [call] && pending == old(pending) - {call.seqNo}
                           && failedWrites == old(failedWrites)
      ensures !writable ==> file == old(file) && pending == old(pending) && failedWrites == old(failedWrites) + 1
    {
      calls := calls + [call];
      if !writable {
        failedWrites := failedWrites + 1;
        return true;
      }
      FiledOnce(file, pending, lastSeq, call);
      file := file + [call];
      inflight := inflight - 1;
      pending := pending - {call.seqNo};
      raised := false;
    }

    /** File a call under its number with nothing known of it but why it stopped. */
    method Abandon(seqNo: int, why: string, writable: bool) returns (raised: bool)
      requires Valid() && seqNo in pending
      modifies this
      ensures Valid() && raised == !writable && lastSeq == old(lastSeq)
      ensures calls == old(calls) + [Unfinished(seqNo, why)]
      ensures writable ==> file == old(file) + [Unfinished(seqNo, why)] && pending == old(pending) - {seqNo}
                           && failedWrites == old(failedWrites)
      ensures !writable ==> file == old(file) && pending == old(pending) && failedWrites == old(failedWrites) + 1
    {
      raised := Record(Unfinished(seqNo, why), writable);
    }

    /** One proxied call: it is recorded, or, where that fails or the proxying did, abandoned. */
    method Proxy(completes: bool, call: ObservedCall, writable: bool, stillWritable: bool)
      requires Valid()
      modifies this
      ensures Valid() && lastSeq == old(lastSeq) + 1
      ensures (completes && writable) || stillWritable ==> inflight == old(inflight)
      ensures completes && writable ==>
                file == old(file) + [call.(seqNo := lastSeq)] && failedWrites == old(failedWrites)
      ensures !(completes && writable) && stillWritable ==>
                && |file| == |old(file)| + 1 && file[..|old(file)|] == old(file)
                && (var last := file[|old(file)|];
                    last.seqNo == lastSeq && last.status == 0 && last.generationId.None? && last.proxyError.Some?)
      ensures !(completes && writable) && !stillWritable ==>
                file == old(file) && inflight == old(inflight) + 1
    {
      var n := NextSeq();
      var raised := true;
      if completes {
        raised := Record(call.(seqNo := n), writable);
      }
      if raised {
        raised := Abandon(n, "the proxy did not complete this call", stillWritable);
      }
    }

    /** With nothing in flight, the file holds every number given out, each once. */
    method Drained() returns (idle: bool)
      requires Valid()
      ensures idle ==> SeqSet(file) == Begun(lastSeq) && |file| == lastSeq
      ensures idle ==> (|calls| == lastSeq <==> failedWrites == 0)
    {
      idle := inflight == 0;
      if idle { assert pending == {}; }
    }
  }

  /** A number begun is a new one. */
  lemma BegunOnce(filed: set<int>, pending: set<int>, last: int)
    requires 0 <= last && Ledger(filed, pending, last)
    ensures Ledger(filed, pending + {last + 1}, last + 1)
    ensures |pending + {last + 1}| == |pending| + 1
  {
    assert last + 1 !in Begun(last);
  }

  /** A number filed is no longer pending. */
  lemma FiledOnce(file: seq<ObservedCall>, pending: set<int>, last: int, call: ObservedCall)
    requires Ledger(SeqSet(file), pending, last) && call.seqNo in pending
    ensures Ledger(SeqSet(file + [call]), pending - {call.seqNo}, last)
    ensures |pending - {call.seqNo}| == |pending| - 1
  {
    Extend(file, call);
  }

  lemma Extend(calls: seq<ObservedCall>, call: ObservedCall)
    ensures SeqSet(calls + [call]) == SeqSet(calls) + {call.seqNo}
  {
    var longer := calls + [call];
    forall n | n in SeqSet(calls) + {call.seqNo}
      ensures n in SeqSet(longer)
    {
      if n == call.seqNo {
        assert longer[|calls|].seqNo == n;
      } else {
        var i :| 0 <= i < |calls| && calls[i].seqNo == n;
        assert longer[i].seqNo == n;
      }
    }
  }

  /** The list in memory is not conserved: a call whose line could not be written is abandoned under the
      number it was already listed under, and one call begun is then listed twice and filed once. */
  method OneFailedWriteListsACallTwice(call: ObservedCall) returns (r: ReceiptRecorder)
    ensures fresh(r) && r.Valid() && r.lastSeq == 1 && r.inflight == 0
    ensures |r.calls| == 2 && |r.file| == 1 && r.failedWrites == 1
  {
    r := new ReceiptRecorder();
    var n := r.NextSeq();
    var raised := r.Record(call.(seqNo := n), false);
    raised := r.Abandon(n, "the proxy did not complete this call", true);
    assert r.pending == {};
  }
}
