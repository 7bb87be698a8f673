/**
 * The observable steps of the inbox manager, in the order it takes them, and the
 * ordering discipline that EmailInboxManager.cs imposes on them.
 */
module Trace {

  datatype Event =
    | Connected               // MailClient.Connect succeeded
    | Refreshed               // RefreshMailAsync: RefreshMailInfos, then GetMailInfos
    | Listed                  // ReceiveUnreadMailAsync obtained its summaries
    | Stored(index: nat)      // the Email of message `index` was appended to Emails
    | MarkedRead(index: nat)  // MarkAsRead(info, true) on message `index`
    | FetchFailed(index: nat) // GetMail failed on message `index`; the batch aborts
    | CancelChecked(requested: bool) // the loop polled the cancellation token
    | Waited(signal: bool)    // WaitNewEmail returned `signal`
    | WaitCancelled           // CancelWaitEmail after a wait that timed out
    | LoggedOut               // MailClient.Logout

  /** Whether `next` may come directly after `prev` in one run of the monitor. */
  predicate MayFollow(prev: Event, next: Event)
  {
    && next != Connected                                        // connecting happens first or not at all
    && !prev.LoggedOut? && !prev.FetchFailed?                   // nothing follows a logout or a failed fetch
    && (prev == CancelChecked(true) <==> next == LoggedOut)     // cancellation leads straight to the logout
    && (prev == CancelChecked(false) <==> next.Waited?)         // a wait starts right after a negative poll, only then
    && (prev == Waited(false) <==> next == WaitCancelled)       // a timed-out wait is cancelled, only then
    && (prev == Waited(true) ==> next == Refreshed)             // a signal triggers a refresh
    && (next == Refreshed ==> prev == Connected || prev == Waited(true))
    && (next == Listed ==> prev == Refreshed)                   // a batch starts right after a refresh
    && (next.MarkedRead? ==> prev == Stored(next.index))        // a message is marked right after it is stored
    && (next.Stored? || next.FetchFailed? ==> prev == Listed || prev.Stored? || prev.MarkedRead?)  // retrievals only inside a batch
    // a poll follows the first refresh, a cancelled wait, a listing, a store or a mark
    && (next.CancelChecked? ==> prev == Refreshed || EndsCycle(prev))
  }

  /** The last step of an iteration that lets the loop go on. */
  predicate EndsCycle(e: Event)
  {
    e == WaitCancelled || e == Listed || e.Stored? || e.MarkedRead?
  }

  /** The steps at `p` and `p + 1` of `ev` respect `MayFollow`. */
  predicate Adjacent(ev: seq<Event>, p: nat)
    requires p + 1 < |ev|
  {
    MayFollow(ev[p], ev[p + 1])
  }

  /** Every adjacent pair of `ev` respects `MayFollow`. */
  predicate Disciplined(ev: seq<Event>)
  {
    forall p: nat :: p + 1 < |ev| ==> Adjacent(ev, p)
  }

  lemma DisciplinedConcat(a: seq<Event>, b: seq<Event>)
    requires Disciplined(a) && Disciplined(b)
    requires a != [] && b != [] ==> MayFollow(a[|a| - 1], b[0])
    ensures Disciplined(a + b)
  {
    forall p: nat | p + 1 < |a + b|
      ensures Adjacent(a + b, p)
    {
      if p + 1 < |a| {
        assert Adjacent(a, p);
        assert (a + b)[p] == a[p] && (a + b)[p + 1] == a[p + 1];
      } else if p + 1 == |a| {
        assert (a + b)[p] == a[|a| - 1] && (a + b)[p + 1] == b[0];
      } else {
        assert Adjacent(b, p - |a|);
        assert (a + b)[p] == b[p - |a|] && (a + b)[p + 1] == b[p + 1 - |a|];
      }
    }
  }

  /**
   * In a disciplined trace that does not stop at the poll itself, a positive cancellation
   * poll is the last but one step and the logout the last: no wait and no fetch follows it.
   */
  lemma NothingAfterCancellation(ev: seq<Event>, p: nat)
    requires Disciplined(ev) && ev != [] && ev[|ev| - 1] != CancelChecked(true)
    requires p < |ev| && ev[p] == CancelChecked(true)
    ensures p == |ev| - 2 && ev[p + 1] == LoggedOut
  {
    assert Adjacent(ev, p);
    assert p + 2 < |ev| ==> Adjacent(ev, p + 1);
  }

  /** No step of `ev` polls the cancellation token. */
  predicate NoPoll(ev: seq<Event>)
  {
    forall k :: 0 <= k < |ev| ==> !ev[k].CancelChecked?
  }

  lemma NoPollConcat(a: seq<Event>, b: seq<Event>)
    requires NoPoll(a) && NoPoll(b)
    ensures NoPoll(a + b)
  {
    assert forall k :: |a| <= k < |a + b| ==> (a + b)[k] == b[k - |a|];
  }

  /** The blocks of a trace, one after the other. */
  function Flatten(blocks: seq<seq<Event>>): seq<Event>
  {
    if blocks == [] then [] else blocks[0] + Flatten(blocks[1..])
  }

  /**
   * Each block is a poll that read "not cancelled" followed by one whole iteration, which
   * starts with the wait and polls nowhere.
   */
  predicate PollBlocks(blocks: seq<seq<Event>>)
  {
    forall j :: 0 <= j < |blocks| ==>
      && |blocks[j]| >= 2 && blocks[j][0] == CancelChecked(false) && blocks[j][1].Waited?
      && NoPoll(blocks[j][1..])
  }

  /** The indices of the messages stored, in trace order. */
  function StoredIndices(ev: seq<Event>): (r: seq<nat>)
    ensures |r| <= |ev|
  {
    if ev == [] then []
    else StoredIndices(ev[..|ev| - 1]) + (if ev[|ev| - 1].Stored? then [ev[|ev| - 1].index] else [])
  }

  /** The indices of the messages marked read, in trace order. */
  function MarkedIndices(ev: seq<Event>): (r: seq<nat>)
    ensures |r| <= |ev|
  {
    if ev == [] then []
    else MarkedIndices(ev[..|ev| - 1]) + (if ev[|ev| - 1].MarkedRead? then [ev[|ev| - 1].index] else [])
  }

  /** The stored indices of a concatenation are those of each part, in order. */
  lemma {:induction false} StoredConcat(a: seq<Event>, b: seq<Event>)
    ensures StoredIndices(a + b) == StoredIndices(a) + StoredIndices(b)
    decreases |b|
  {
    if b == [] {
      assert a + b == a;
    } else {
      var b', last := b[..|b| - 1], b[|b| - 1];
      StoredConcat(a, b');
      assert (a + b)[..|a + b| - 1] == a + b';
      assert (a + b)[|a + b| - 1] == last;
      AppendAssoc(StoredIndices(a), StoredIndices(b'), if last.Stored? then [last.index] else []);
    }
  }

  /** The marked indices of a concatenation are those of each part, in order. */
  lemma {:induction false} MarkedConcat(a: seq<Event>, b: seq<Event>)
    ensures MarkedIndices(a + b) == MarkedIndices(a) + MarkedIndices(b)
    decreases |b|
  {
    if b == [] {
      assert a + b == a;
    } else {
      var b', last := b[..|b| - 1], b[|b| - 1];
      MarkedConcat(a, b');
      assert (a + b)[..|a + b| - 1] == a + b';
      assert (a + b)[|a + b| - 1] == last;
      AppendAssoc(MarkedIndices(a), MarkedIndices(b'), if last.MarkedRead? then [last.index] else []);
    }
  }

  /** `StoredConcat` and `MarkedConcat` together, for proofs that split a trace in two. */
  lemma ProjectionsConcat(a: seq<Event>, b: seq<Event>)
    ensures StoredIndices(a + b) == StoredIndices(a) + StoredIndices(b)
    ensures MarkedIndices(a + b) == MarkedIndices(a) + MarkedIndices(b)
  {
    StoredConcat(a, b);
    MarkedConcat(a, b);
  }

  /** Concatenation regroups freely; stated once so that proofs about traces stay cheap. */
  lemma AppendAssoc<T>(x: seq<T>, y: seq<T>, z: seq<T>)
    ensures (x + y) + z == x + (y + z)
  {
  }

  /** A prefix one longer is the shorter prefix and the next element. */
  lemma TakeSnoc<T>(a: seq<T>, i: nat)
    requires 0 < i <= |a|
    ensures a[..i] == a[..i - 1] + [a[i - 1]]
  {
  }
}
