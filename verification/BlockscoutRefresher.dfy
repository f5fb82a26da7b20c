/** The Blockscout balance refresher (blockscout/refresher.go). */
module BlockscoutRefresher {
  import opened Common

  datatype BurnMintEvent = BurnMintEvent(addr: string, height: uint64, txHash: string)

  const BATCH_NUM := 1000

  /** The window end: the next 1000 heights, clamped by the Blockscout height and by the event scan cursor. */
  function WindowEnd(start: uint64, blockscoutHeight: uint64, cursor: uint64): uint64 {
    var end := Add64(start, BATCH_NUM);
    var clamped := if end > Add64(blockscoutHeight, 1) then Add64(blockscoutHeight, 1) else end;
    if Add64(cursor, 1) < clamped then Add64(cursor, 1) else clamped
  }

  /** Where the window is asked for (both heights at or above its start) and nothing wraps, it is
      not empty and ends at the least of the three bounds. */
  lemma WindowEndIsMinimum(start: uint64, blockscoutHeight: uint64, cursor: uint64)
    requires start <= blockscoutHeight && start <= cursor
    requires blockscoutHeight + 1000 < TWO_64 && cursor + 1 < TWO_64
    ensures var end := WindowEnd(start, blockscoutHeight, cursor);
            && start < end
            && end <= start + 1000 && end <= blockscoutHeight + 1 && end <= cursor + 1
            && (end == start + 1000 || end == blockscoutHeight + 1 || end == cursor + 1)
  {
    AddExact(start, BATCH_NUM);
    AddExact(blockscoutHeight, 1);
    AddExact(cursor, 1);
  }

  function Elements(list: seq<BurnMintEvent>): set<BurnMintEvent> {
    set i | 0 <= i < |list| :: list[i]
  }

  lemma ElementsNext(list: seq<BurnMintEvent>, i: nat)
    requires i < |list|
    ensures Elements(list[..i + 1]) == Elements(list[..i]) + {list[i]}
  {
    assert list[..i + 1] == list[..i] + [list[i]];
    assert forall j | 0 <= j < i :: list[..i + 1][j] == list[..i][j];
  }

  function Heights(start: uint64, end: uint64): (hs: set<uint64>)
    ensures forall h: uint64 :: h in hs <==> start <= h < end
    decreases end - start
  {
    if start >= end then {} else {start} + Heights(start + 1, end)
  }

  class Refresher {
    var nextRefreshHeight: uint64
    const startHeight: uint64
    /** The burn and mint events of Lorenzo by height. */
    const events: uint64 -> seq<BurnMintEvent>
    /** Every event whose refresh Blockscout acknowledged. */
    ghost var refreshed: set<BurnMintEvent>
    /** The heights of windows for which the event API answered something else than their events. */
    ghost var missed: set<uint64>

    /** Every event from the start height up to the cursor was refreshed, unless its height was missed. */
    ghost predicate Valid()
      reads this
    {
      startHeight <= nextRefreshHeight && RefreshedBelow(nextRefreshHeight, refreshed, missed)
    }

    ghost predicate AllIn(h: uint64, done: set<BurnMintEvent>) {
      forall k | 0 <= k < |events(h)| :: events(h)[k] in done
    }

    ghost predicate RefreshedBelow(end: uint64, done: set<BurnMintEvent>, except: set<uint64>) {
      forall h: uint64 | startHeight <= h < end && h !in except :: AllIn(h, done)
    }

    constructor (startHeight: uint64, events: uint64 -> seq<BurnMintEvent>)
      ensures Valid() && nextRefreshHeight == startHeight == this.startHeight
      ensures this.events == events && refreshed == {} && missed == {}
    {
      this.startHeight := startHeight;
      this.events := events;
      nextRefreshHeight := startHeight;
      refreshed, missed := {}, {};
    }

    /** A correct answer of the event API: all events from `start` below `end`, perhaps those at `end` too,
        so that half-open and inclusive ranges are both allowed. */
    ghost predicate IsListing(start: uint64, end: uint64, list: seq<BurnMintEvent>) {
      && (forall h: uint64, k | start <= h < end && 0 <= k < |events(h)| :: events(h)[k] in list)
      && (forall i | 0 <= i < |list| :: exists h: uint64 :: start <= h <= end && list[i] in events(h))
    }

    /** One iteration of Start. `None` is a failed query. An answer is whatever list its JSON body holds:
        neither the HTTP status nor the code in the body is looked at, so an error answer is an empty list.
        `failures` says how often the refresh of the i-th event fails before it succeeds. The preconditions
        exclude wrap-around. The result is the window end if the event query was reached. */
    method Round(blockscoutHeight: Option<uint64>, cursor: Option<uint64>,
                 answer: (uint64, uint64) -> Option<seq<BurnMintEvent>>, failures: nat -> nat)
      returns (asked: Option<uint64>)
      requires Valid()
      requires blockscoutHeight.Some? ==> blockscoutHeight.value + BATCH_NUM < TWO_64
      requires cursor.Some? ==> cursor.value + 1 < TWO_64
      modifies this
      ensures Valid()
      ensures asked.Some? <==> && blockscoutHeight.Some? && cursor.Some?
                               && old(nextRefreshHeight) <= blockscoutHeight.value
                               && old(nextRefreshHeight) <= cursor.value
      ensures asked.Some? ==> && asked.value == WindowEnd(old(nextRefreshHeight), blockscoutHeight.value, cursor.value)
                              && old(nextRefreshHeight) < asked.value
      ensures asked.Some? ==> && asked.value <= old(nextRefreshHeight) + 1000
                              && asked.value <= blockscoutHeight.value + 1 && asked.value <= cursor.value + 1
      ensures asked.Some? && answer(old(nextRefreshHeight), asked.value).Some? ==>
                var list := answer(old(nextRefreshHeight), asked.value).value;
                && nextRefreshHeight == asked.value
                && refreshed == old(refreshed) + Elements(list)
                && (if IsListing(old(nextRefreshHeight), asked.value, list) then missed == old(missed)
                    else missed == old(missed) + Heights(old(nextRefreshHeight), asked.value))
      ensures asked.None? || answer(old(nextRefreshHeight), asked.value).None? ==>
                && nextRefreshHeight == old(nextRefreshHeight)
                && refreshed == old(refreshed) && missed == old(missed)
    {
      asked := None;
      if blockscoutHeight.None? {
        return;
      }
      var start := nextRefreshHeight;
      if blockscoutHeight.value < start {
        return;
      }
      var endHeight := Add64(nextRefreshHeight, BATCH_NUM);
      if endHeight > Add64(blockscoutHeight.value, 1) {
        endHeight := Add64(blockscoutHeight.value, 1);
      }
      if cursor.None? {
        return;
      }
      if cursor.value < start {
        return;
      }
      if Add64(cursor.value, 1) < endHeight {
        endHeight := Add64(cursor.value, 1);
      }
      WindowEndIsMinimum(start, blockscoutHeight.value, cursor.value);
      asked := Some(endHeight);
      var list := answer(start, endHeight);
      if list.None? {
        return;
      }
      HandleAnswer(start, endHeight, list.value, failures);
    }

    /** Refresh what was listed, then move the cursor. */
    method HandleAnswer(start: uint64, end: uint64, list: seq<BurnMintEvent>, failures: nat -> nat)
      requires Valid() && start == nextRefreshHeight < end
      modifies this
      ensures Valid() && nextRefreshHeight == end && refreshed == old(refreshed) + Elements(list)
      ensures missed == if IsListing(start, end, list) then old(missed) else old(missed) + Heights(start, end)
    {
      WindowKept(start, end, refreshed, missed, list);
      if !IsListing(start, end, list) {
        missed := missed + Heights(start, end);
      }
      if |list| == 0 {
        nextRefreshHeight := end;
        return;
      }
      RefreshAll(list, failures);
      nextRefreshHeight := end;
    }

    /** A correct answer's events join what was refreshed before; any other answer's window joins what was missed. */
    lemma WindowKept(start: uint64, end: uint64, before: set<BurnMintEvent>, except: set<uint64>,
                     list: seq<BurnMintEvent>)
      requires start < end && RefreshedBelow(start, before, except)
      ensures RefreshedBelow(end, before + Elements(list),
                             if IsListing(start, end, list) then except else except + Heights(start, end))
    {
      var after := before + Elements(list);
      var missing := if IsListing(start, end, list) then except else except + Heights(start, end);
      forall h: uint64 | startHeight <= h < end && h !in missing
        ensures AllIn(h, after)
      {
        if h < start {
          assert AllIn(h, before);
        } else {
          assert IsListing(start, end, list);
          forall k | 0 <= k < |events(h)| ensures events(h)[k] in after {
            assert events(h)[k] in list;
          }
        }
      }
    }

    /** The inner loop: an event is tried again until its refresh succeeds. */
    method RefreshAll(list: seq<BurnMintEvent>, failures: nat -> nat)
      modifies this`refreshed
      ensures refreshed == old(refreshed) + Elements(list)
    {
      var i := 0;
      var left := failures(0);
      while i < |list|
        invariant 0 <= i <= |list|
        invariant refreshed == old(refreshed) + Elements(list[..i])
        decreases |list| - i, left
      {
        if left > 0 {
          left := left - 1;
          continue;
        }
        ElementsNext(list, i);
        refreshed := refreshed + {list[i]};
        i := i + 1;
        left := failures(i);
      }
      assert list[..|list|] == list;
    }

    /** An error answer loses events: if the query for the next window is answered with a JSON body without
        list, the cursor moves past an event of the window that was never refreshed. */
    method ErrorAnswerSkips(blockscoutHeight: uint64, cursor: uint64, failures: nat -> nat, h: uint64, k: nat)
      requires Valid() && blockscoutHeight + BATCH_NUM < TWO_64 && cursor + 1 < TWO_64
      requires nextRefreshHeight <= h < WindowEnd(nextRefreshHeight, blockscoutHeight, cursor)
      requires nextRefreshHeight <= blockscoutHeight && nextRefreshHeight <= cursor
      requires k < |events(h)| && events(h)[k] !in refreshed
      modifies this
      ensures Valid() && h < nextRefreshHeight && events(h)[k] !in refreshed && h in missed
    {
      var asked := Round(Some(blockscoutHeight), Some(cursor), (s, e) => Some([]), failures);
    }
  }
}
