/** The per-connection replay guard, proved against the full history of what it admitted. */
module Replay {
  import opened Base
  import opened Wire

  const DEDUP_WINDOW: nat := 1024

  datatype Violation = IdNot16Bytes | SequenceDidNotIncrease | DuplicateId

  function Ids(log: seq<Envelope>): (ids: seq<Bytes>)
    ensures |ids| == |log|
  {
    seq(|log|, i requires 0 <= i < |log| => log[i].messageId)
  }

  function LastSequence(log: seq<Envelope>): nat {
    if log == [] then 0 else log[|log| - 1].sequence
  }

  /** The rule on the full history: `e` is newer than everything admitted before it and
      its id is not one of the last 1024 admitted. */
  ghost predicate Fresh(log: seq<Envelope>, e: Envelope) {
    && |e.messageId| == 16
    && 0 < e.sequence
    && (forall k :: 0 <= k < |log| ==> log[k].sequence < e.sequence)
    && e.messageId !in LastN(Ids(log), DEDUP_WINDOW)
  }

  /** A history every entry of which was fresh when it was admitted. */
  ghost predicate Admissible(log: seq<Envelope>) {
    forall k :: 0 <= k < |log| ==> Fresh(log[..k], log[k])
  }

  lemma AdmissibleSnoc(log: seq<Envelope>, e: Envelope)
    requires Admissible(log) && Fresh(log, e)
    ensures Admissible(log + [e])
  {
    var longer := log + [e];
    forall k | 0 <= k < |longer| ensures Fresh(longer[..k], longer[k]) {
      if k < |log| {
        assert longer[..k] == log[..k];
      } else {
        assert longer[..k] == log;
      }
    }
  }

  /** Sequence numbers strictly increase along any admissible history, so the last one bounds all. */
  lemma AdmissibleIncreases(log: seq<Envelope>, i: nat, j: nat)
    requires Admissible(log) && i < j < |log|
    ensures log[i].sequence < log[j].sequence
  {
    assert log[..j][i] == log[i];
  }

  /** An id less than a window back is in the window the later one was checked against. */
  lemma InWindowOf(log: seq<Envelope>, i: nat, j: nat)
    requires i < j < |log| && j - i <= DEDUP_WINDOW
    ensures log[i].messageId in LastN(Ids(log[..j]), DEDUP_WINDOW)
  {
    var ids := Ids(log[..j]);
    var window := LastN(ids, DEDUP_WINDOW);
    assert window[i - (j - |window|)] == ids[i] == log[i].messageId;
  }

  /** The ids inside one window are pairwise distinct. */
  lemma WindowDistinct(log: seq<Envelope>)
    requires Admissible(log)
    ensures Distinct(LastN(Ids(log), DEDUP_WINDOW))
  {
    var w := LastN(Ids(log), DEDUP_WINDOW);
    var off := |log| - |w|;
    forall i, j | 0 <= i < j < |w| ensures w[i] != w[j] {
      InWindowOf(log, off + i, off + j);
      assert Fresh(log[..off + j], log[off + j]);
    }
  }

  /** Admitting one more slides the window by one. */
  lemma WindowSlides(log: seq<Envelope>, e: Envelope)
    ensures var w := LastN(Ids(log), DEDUP_WINDOW) + [e.messageId];
            LastN(Ids(log + [e]), DEDUP_WINDOW) == if |w| > DEDUP_WINDOW then w[1..] else w
  {
    assert Ids(log + [e]) == Ids(log) + [e.messageId];
  }

  /** In a duplicate-free queue the front element occurs nowhere else. */
  lemma FrontLeavesSet(w: seq<Bytes>)
    requires Distinct(w) && w != []
    ensures (set id | id in w) - {w[0]} == (set id | id in w[1..])
  {
    assert forall id :: id in w <==> id == w[0] || id in w[1..];
    assert w[0] !in w[1..];
  }

  /** On an admissible history the rule needs only the last sequence number and the window. */
  lemma FreshExactly(log: seq<Envelope>, e: Envelope)
    requires Admissible(log)
    ensures Fresh(log, e)
            <==> |e.messageId| == 16 && LastSequence(log) < e.sequence && e.messageId !in LastN(Ids(log), DEDUP_WINDOW)
  {
    forall k | 0 <= k < |log| ensures log[k].sequence <= LastSequence(log) {
      if k < |log| - 1 { AdmissibleIncreases(log, k, |log| - 1); }
    }
  }

  /** What one admission does to the window, and to the set of the ids in it. */
  lemma AdmitSlides(log: seq<Envelope>, e: Envelope, order: seq<Bytes>)
    requires Admissible(log) && Fresh(log, e) && order == LastN(Ids(log), DEDUP_WINDOW)
    ensures Admissible(log + [e]) && LastSequence(log + [e]) == e.sequence
    ensures var w := order + [e.messageId];
            && (set id | id in w) == (set id | id in order) + {e.messageId}
            && LastN(Ids(log + [e]), DEDUP_WINDOW) == (if |w| > DEDUP_WINDOW then w[1..] else w)
            && (set id | id in w) - {w[0]} == (set id | id in w[1..])
  {
    AdmissibleSnoc(log, e);
    WindowSlides(log, e);
    WindowDistinct(log);
    FrontLeavesSet(order + [e.messageId]);
  }

  /** The guard as the session keeps it: a counter, a hash set and a bounded queue.
      `admitted` is the history it stands for. */
  class ReplayGuard {
    var lastSequence: nat
    var seen: set<Bytes>
    var order: seq<Bytes>
    ghost var admitted: seq<Envelope>

    ghost predicate Valid()
      reads this
    {
      && Admissible(admitted)
      && lastSequence == LastSequence(admitted)
      && order == LastN(Ids(admitted), DEDUP_WINDOW)
      && seen == (set id | id in order)
    }

    constructor ()
      ensures Valid() && admitted == []
    {
      lastSequence, seen, order, admitted := 0, {}, [], [];
    }

    method Admit(e: Envelope) returns (r: Result<(), Violation>)
      requires Valid()
      modifies this
      ensures Valid()
      ensures r.Ok? <==> Fresh(old(admitted), e)
      ensures r.Ok? ==> admitted == old(admitted) + [e]
      ensures r.Err? ==> unchanged(this)
      ensures r == if |e.messageId| != 16 then Err(IdNot16Bytes)
                   else if e.sequence <= LastSequence(old(admitted)) then Err(SequenceDidNotIncrease)
                   else if !Fresh(old(admitted), e) then Err(DuplicateId)
                   else Ok(())
    {
      FreshExactly(admitted, e);
      if |e.messageId| != 16 {
        return Err(IdNot16Bytes);
      }
      if e.sequence <= lastSequence {
        return Err(SequenceDidNotIncrease);
      }
      if e.messageId in seen {
        return Err(DuplicateId);
      }
      AdmitSlides(admitted, e, order);
      seen := seen + {e.messageId};
      lastSequence := e.sequence;
      order := order + [e.messageId];
      admitted := admitted + [e];
      if |order| > DEDUP_WINDOW {
        seen := seen - {order[0]};
        order := order[1..];
      }
      return Ok(());
    }
  }

  /** What the guard admits out of any input, as a fold. */
  ghost function AdmitAll(log: seq<Envelope>, inputs: seq<Envelope>): seq<Envelope>
    decreases |inputs|
  {
    if inputs == [] then log
    else AdmitAll(if Fresh(log, inputs[0]) then log + [inputs[0]] else log, inputs[1..])
  }

  lemma {:induction false} AdmitAllAdmissible(log: seq<Envelope>, inputs: seq<Envelope>)
    requires Admissible(log)
    ensures Admissible(AdmitAll(log, inputs))
    ensures log <= AdmitAll(log, inputs)
    decreases |inputs|
  {
    if inputs != [] {
      if Fresh(log, inputs[0]) {
        AdmissibleSnoc(log, inputs[0]);
        AdmitAllAdmissible(log + [inputs[0]], inputs[1..]);
      } else {
        AdmitAllAdmissible(log, inputs[1..]);
      }
    }
  }

  /** Over a whole connection, whatever arrives: no envelope is admitted twice, however long ago
      its id left the window, and no two admitted envelopes share a sequence number. */
  lemma NeverAdmittedTwice(inputs: seq<Envelope>, i: nat, j: nat)
    requires i < j < |AdmitAll([], inputs)|
    ensures AdmitAll([], inputs)[i] != AdmitAll([], inputs)[j]
    ensures AdmitAll([], inputs)[i].sequence < AdmitAll([], inputs)[j].sequence
  {
    AdmitAllAdmissible([], inputs);
    AdmissibleIncreases(AdmitAll([], inputs), i, j);
  }

  /** The bounded guard differs from one that remembers every id only on an id that was
      admitted before and has since left the window. */
  lemma AgreesWithFullHistory(log: seq<Envelope>, e: Envelope)
    requires Admissible(log)
    ensures Fresh(log, e) && e.messageId !in Ids(log)
            <==> && |e.messageId| == 16
                 && e.sequence > LastSequence(log)
                 && e.messageId !in Ids(log)
    ensures Fresh(log, e) && e.messageId in Ids(log)
            ==> exists k :: 0 <= k < |log| - DEDUP_WINDOW && log[k].messageId == e.messageId
  {
    forall k | 0 <= k < |log| ensures log[k].sequence <= LastSequence(log) {
      if k < |log| - 1 { AdmissibleIncreases(log, k, |log| - 1); }
    }
    if e.messageId in Ids(log) {
      var k :| 0 <= k < |log| && Ids(log)[k] == e.messageId;
      if k >= |log| - DEDUP_WINDOW {
        var w := LastN(Ids(log), DEDUP_WINDOW);
        assert w[k - (|log| - |w|)] == e.messageId;
      }
    }
  }
}
