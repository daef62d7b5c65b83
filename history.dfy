/**
 * The investment history: the all-time-high (ATH) rule, the return against
 * the ATH before the update, and the records appended at each time step.
 */
module History {
  import opened Wrappers
  import Arith

  /** One history record: the day, the total portfolio value and the return in percent. */
  datatype HistoryEntry = HistoryEntry(day: int, value: real, roi: real)

  /** The ATH after a valuation: raised to the total when the total exceeds it. */
  function NewAth(athBefore: real, total: real): (r: real)
    ensures r >= athBefore && r >= total
    ensures r == athBefore || r == total
  {
    if total > athBefore then total else athBefore
  }

  /**
   * The return in percent of `total` against the ATH before the update,
   * (total - athBefore) / athBefore * 100, defined as 0 when there is no
   * prior ATH.
   */
  function Roi(total: real, athBefore: real): (r: real)
    ensures athBefore == 0.0 ==> r == 0.0
    ensures athBefore != 0.0 ==> r * athBefore == (total - athBefore) * 100.0
  {
    if athBefore == 0.0 then 0.0
    else
      var roi := ((total - athBefore) / athBefore) * 100.0;
      assert roi * athBefore == (total - athBefore) * 100.0 by {
        Arith.DivMul(total - athBefore, athBefore);
      }
      roi
  }

  /**
   * The return exactly as the source computes it: a real number only when
   * the prior ATH is nonzero; otherwise the division has no real value
   * (the source's float division gives an infinity or NaN).
   */
  function RoiAsWritten(total: real, athBefore: real): (r: Option<real>)
    ensures r.None? <==> athBefore == 0.0
    ensures r.Some? ==> r.value * athBefore == (total - athBefore) * 100.0
  {
    if athBefore == 0.0 then None
    else
      var roi := ((total - athBefore) / athBefore) * 100.0;
      Arith.DivMul(total - athBefore, athBefore);
      Some(roi)
  }

  /**
   * The first record of a run divides by zero as written: the ATH starts
   * at 0, so no real return exists for it, whatever the total value.
   */
  lemma FirstRecordRoiUndefined(total: real)
    ensures RoiAsWritten(total, 0.0) == None
    ensures Roi(total, 0.0) == 0.0
  {
  }

  /** The corrected return agrees with the source's wherever the source's is defined. */
  lemma RoiAgreesWhereDefined(total: real, athBefore: real)
    ensures RoiAsWritten(total, athBefore).Some? ==> RoiAsWritten(total, athBefore).value == Roi(total, athBefore)
  {
  }

  /**
   * Against a positive prior ATH, the return is positive exactly when the
   * total sets a new ATH, zero exactly when it equals it, negative otherwise.
   */
  lemma RoiSignsNewHigh(total: real, athBefore: real)
    requires athBefore > 0.0
    ensures Roi(total, athBefore) > 0.0 <==> NewAth(athBefore, total) > athBefore
    ensures Roi(total, athBefore) == 0.0 <==> total == athBefore
    ensures Roi(total, athBefore) < 0.0 <==> total < athBefore
  {
    var r := Roi(total, athBefore);
    SignOfQuotient(r, total - athBefore, athBefore);
  }

  /** r * y == x * 100 with y > 0 gives r the sign of x. */
  lemma SignOfQuotient(r: real, x: real, y: real)
    requires y > 0.0 && r * y == x * 100.0
    ensures r > 0.0 <==> x > 0.0
    ensures r == 0.0 <==> x == 0.0
    ensures r < 0.0 <==> x < 0.0
  {
    if r > 0.0 { Arith.MulPositive(r, y); }
    if r < 0.0 { Arith.MulPositive(-r, y); }
  }

  /** The ATH after recording the totals one after another. */
  function AthAfter(ath: real, totals: seq<real>): real
    decreases totals
  {
    if totals == [] then ath else AthAfter(NewAth(ath, totals[0]), totals[1..])
  }

  /**
   * The ATH only rises, ends at or above every total recorded, and is
   * always either the starting ATH or one of the totals: it is the maximum.
   */
  lemma {:induction false} AthAfterIsMaximum(ath: real, totals: seq<real>)
    ensures AthAfter(ath, totals) >= ath
    ensures forall i :: 0 <= i < |totals| ==> AthAfter(ath, totals) >= totals[i]
    ensures AthAfter(ath, totals) == ath || AthAfter(ath, totals) in totals
    decreases totals
  {
    if totals != [] {
      var next := NewAth(ath, totals[0]);
      AthAfterIsMaximum(next, totals[1..]);
      forall i | 0 < i < |totals|
        ensures AthAfter(ath, totals) >= totals[i]
      {
        assert totals[i] == totals[1..][i - 1];
      }
      if AthAfter(next, totals[1..]) != next {
        assert AthAfter(next, totals[1..]) in totals;
      }
    }
  }

  /**
   * Appending one record: the new ATH and the entry for `day`, whose
   * return is taken against the ATH before this update.
   */
  function Record(history: seq<HistoryEntry>, ath: real, day: int, total: real): (r: (seq<HistoryEntry>, real))
    ensures |r.0| == |history| + 1 && r.0[..|history|] == history
    ensures r.0[|history|] == HistoryEntry(day, total, Roi(total, ath))
    ensures r.1 == NewAth(ath, total)
  {
    (history + [HistoryEntry(day, total, Roi(total, ath))], NewAth(ath, total))
  }

  /**
   * What recording preserves: every recorded value is at most the ATH and
   * days never decrease along the history.
   */
  ghost predicate Consistent(history: seq<HistoryEntry>, ath: real)
  {
    && (forall i :: 0 <= i < |history| ==> history[i].value <= ath)
    && (forall i, j :: 0 <= i < j < |history| ==> history[i].day <= history[j].day)
  }

  /** Recording on a day no earlier than the last record keeps the history consistent. */
  lemma RecordKeepsConsistent(history: seq<HistoryEntry>, ath: real, day: int, total: real)
    requires Consistent(history, ath)
    requires forall i :: 0 <= i < |history| ==> history[i].day <= day
    ensures Consistent(Record(history, ath, day, total).0, Record(history, ath, day, total).1)
  {
    var r := Record(history, ath, day, total);
    assert forall i :: 0 <= i < |history| ==> r.0[i] == history[i];
  }
}
