/**
 * Chronological ordering of the history and the "most recent N rows"
 * window that both simulators replay (`sort_values('Date')` followed by
 * `tail(N)`).
 */
module Chrono {
  import opened Common

  /** Dates never decrease along the sequence. */
  ghost predicate SortedByDate(s: seq<Event>) {
    forall i, j :: 0 <= i < j < |s| ==> s[i].date <= s[j].date
  }

  /** Places `e` into an already sorted sequence, ahead of any row with the
      same date. */
  function InsertByDate(e: Event, s: seq<Event>): (r: seq<Event>)
    requires SortedByDate(s)
    ensures SortedByDate(r)
    ensures |r| == |s| + 1
    ensures forall k :: 0 <= k < |r| ==> r[k] == e || r[k] in s
    decreases |s|
  {
    if |s| == 0 then [e]
    else if e.date <= s[0].date then [e] + s
    else
      var tail := InsertByDate(e, s[1..]);
      InsertedAfterHead(e, s, tail);
      assert s == [s[0]] + s[1..];
      [s[0]] + tail
  }

  /** Every row of the insertion into the rest of `s` is no earlier than the
      head of `s` when `e` is not. */
  lemma InsertedAfterHead(e: Event, s: seq<Event>, tail: seq<Event>)
    requires SortedByDate(s) && |s| > 0 && s[0].date < e.date
    requires forall k :: 0 <= k < |tail| ==> tail[k] == e || tail[k] in s[1..]
    ensures forall k :: 0 <= k < |tail| ==> s[0].date <= tail[k].date
  {
    forall k | 0 <= k < |tail|
      ensures s[0].date <= tail[k].date
    {
      if tail[k] != e {
        LaterRowOfSorted(s, tail[k]);
      }
    }
  }

  /** Every row after the first of a sorted sequence is no earlier than it. */
  lemma LaterRowOfSorted(s: seq<Event>, x: Event)
    requires SortedByDate(s) && |s| > 0 && x in s[1..]
    ensures s[0].date <= x.date
  {
    var m :| 0 <= m < |s[1..]| && s[1..][m] == x;
    assert s[m + 1] == x;
  }

  /** Insertion adds `e` and loses nothing. */
  lemma {:induction false} InsertPermutes(e: Event, s: seq<Event>)
    requires SortedByDate(s)
    ensures multiset(InsertByDate(e, s)) == multiset(s) + multiset{e}
    decreases |s|
  {
    if |s| > 0 && e.date > s[0].date {
      InsertPermutes(e, s[1..]);
      assert s == [s[0]] + s[1..];
    }
  }

  /** The history in chronological order. Rows sharing a date keep their
      input order; the default pandas sort promises no order for them. */
  function SortByDate(s: seq<Event>): (r: seq<Event>)
    ensures SortedByDate(r)
    ensures |r| == |s|
    decreases |s|
  {
    if |s| == 0 then []
    else InsertByDate(s[0], SortByDate(s[1..]))
  }

  /** Sorting keeps every row, as often as it occurs. */
  lemma {:induction false} SortPermutes(s: seq<Event>)
    ensures multiset(SortByDate(s)) == multiset(s)
    decreases |s|
  {
    if |s| > 0 {
      var t := SortByDate(s[1..]);
      assert multiset(t) == multiset(s[1..]) by {
        SortPermutes(s[1..]);
      }
      assert multiset(InsertByDate(s[0], t)) == multiset(t) + multiset{s[0]} by {
        InsertPermutes(s[0], t);
      }
      assert multiset(s) == multiset(s[1..]) + multiset{s[0]} by {
        assert s == [s[0]] + s[1..];
      }
    }
  }

  /** Rows dated like the rows of a sorted window, one for one, are in date
      order too. */
  lemma DatedLikeSorted<R>(window: seq<Event>, rows: seq<R>, date: R -> int)
    requires SortedByDate(window) && |rows| == |window|
    requires forall i :: 0 <= i < |rows| ==> date(rows[i]) == window[i].date
    ensures forall i, j :: 0 <= i < j < |rows| ==> date(rows[i]) <= date(rows[j])
  {
  }

  /** The last `n` rows of `s`, or all of them when there are fewer. */
  function Tail(s: seq<Event>, n: nat): (r: seq<Event>)
    ensures |r| == if |s| <= n then |s| else n
    ensures forall i :: 0 <= i < |r| ==> r[i] == s[|s| - |r| + i]
  {
    if |s| <= n then s else s[|s| - n..]
  }

  /** A window cut from the end of a sorted history is sorted, its rows come
      from the history, and no row left out of it is later than a row kept. */
  lemma {:induction false} TailOfSorted(s: seq<Event>, n: nat)
    requires SortedByDate(s)
    ensures SortedByDate(Tail(s, n))
    ensures multiset(Tail(s, n)) <= multiset(s)
    ensures forall i, j :: 0 <= i < |s| - |Tail(s, n)| && 0 <= j < |Tail(s, n)| ==>
      s[i].date <= Tail(s, n)[j].date
  {
    var t := Tail(s, n);
    var k := |s| - |t|;
    assert t == s[k..];
    SuffixWithin(s, k);
  }

  /** A suffix keeps no row more often than the whole sequence has it. */
  lemma SuffixWithin(s: seq<Event>, k: nat)
    requires k <= |s|
    ensures multiset(s[k..]) <= multiset(s)
  {
    assert s == s[..k] + s[k..];
  }

  /** Every row of a window cut from the sorted history is a row of the
      history. */
  lemma WindowRowInHistory(events: seq<Event>, n: nat, i: nat)
    requires i < |Tail(SortByDate(events), n)|
    ensures exists j :: 0 <= j < |events| && events[j] == Tail(SortByDate(events), n)[i]
  {
    var w := Tail(SortByDate(events), n);
    TailOfSorted(SortByDate(events), n);
    SortPermutes(events);
    assert w[i] in multiset(w);
    assert w[i] in multiset(events);
  }

  /** Positive odds on the history carry over to any window of it. */
  lemma WindowPositiveOdds(events: seq<Event>, n: nat)
    requires PositiveOdds(events)
    ensures PositiveOdds(Tail(SortByDate(events), n))
  {
    var w := Tail(SortByDate(events), n);
    forall i | 0 <= i < |w|
      ensures w[i].oddsH > 0.0
    {
      WindowRowInHistory(events, n, i);
    }
  }
}
