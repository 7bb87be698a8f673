/**
 * The monitor loop of EmailInboxManager.MonitorNewEmailAsync as a function of the
 * initial state, the server's scripted events and the number of polls before the
 * cancellation becomes visible.
 */
module Scheduler {
  import opened MailLibrary
  import opened Trace
  import opened Fetcher

  datatype Run = Run(state: SyncState, wakeups: seq<Wakeup>, outcome: Outcome)

  /**
   * One loop iteration after a poll that found no cancellation: wait; on a signal
   * refresh and fetch a batch over the unread summaries, otherwise cancel the wait.
   */
  function WaitStep(s: SyncState, messages: map<nat, Mail>, wakeups: seq<Wakeup>): Run
  {
    var w := AwaitMail(s.infos, wakeups);
    var waited := SyncState(s.emails, w.infos, s.events + [Waited(w.signal)]);
    if w.signal then
      var b := FetchBatch(waited.(events := waited.events + [Refreshed]), Unread(w.infos), messages);
      Run(b.state, w.wakeups, b.outcome)
    else
      Run(waited.(events := waited.events + [WaitCancelled]), w.wakeups, Completed)
  }

  /** One negative poll and the iteration it lets run. */
  function PollStep(s: SyncState, messages: map<nat, Mail>, wakeups: seq<Wakeup>): Run
  {
    WaitStep(s.(events := s.events + [CancelChecked(false)]), messages, wakeups)
  }

  /** The `while (true)` loop; `checks` is how many polls still read "not cancelled". */
  function Cycles(s: SyncState, messages: map<nat, Mail>, wakeups: seq<Wakeup>, checks: nat): Run
    decreases checks
  {
    if checks == 0 then
      Run(s.(events := s.events + [CancelChecked(true), LoggedOut]), wakeups, Completed)
    else
      var c := PollStep(s, messages, wakeups);
      if c.outcome.FetchError? then c else Cycles(c.state, messages, c.wakeups, checks - 1)
  }

  /** The whole `MonitorNewEmailAsync`: connect, refresh once, then loop. */
  function MonitorRun(s: SyncState, acceptsLogin: bool, messages: map<nat, Mail>,
                      wakeups: seq<Wakeup>, checks: nat): Run
  {
    if !acceptsLogin then Run(s, wakeups, ConnectFailed)
    else Cycles(s.(events := s.events + [Connected, Refreshed]), messages, wakeups, checks)
  }

  /**
   * From `s` to `t` the trace grew by `added`, the store only grew, and what it gained
   * are the emails of the messages that `added` records as stored, in that order.
   */
  ghost predicate StoreFollowsTrace(s: SyncState, t: SyncState, added: seq<Event>, messages: map<nat, Mail>)
  {
    && t.events == s.events + added
    && var ids := StoredIndices(added);
      && (forall k :: 0 <= k < |ids| ==> ids[k] in messages)
      && t.emails == s.emails + Delivered(ids, messages)
  }

  lemma {:induction false} DeliveredConcat(a: seq<nat>, b: seq<nat>, messages: map<nat, Mail>)
    requires forall k :: 0 <= k < |a| ==> a[k] in messages
    requires forall k :: 0 <= k < |b| ==> b[k] in messages
    ensures forall k :: 0 <= k < |a + b| ==> (a + b)[k] in messages
    ensures Delivered(a + b, messages) == Delivered(a, messages) + Delivered(b, messages)
  {
    assert forall k :: 0 <= k < |a + b| ==> (a + b)[k] in messages by {
      forall k | 0 <= k < |a + b| ensures (a + b)[k] in messages {
        if k < |a| { assert (a + b)[k] == a[k]; } else { assert (a + b)[k] == b[k - |a|]; }
      }
    }
  }

  lemma StoreFollowsTraceTrans(s: SyncState, t: SyncState, u: SyncState, a: seq<Event>, b: seq<Event>,
                                messages: map<nat, Mail>)
    requires StoreFollowsTrace(s, t, a, messages) && StoreFollowsTrace(t, u, b, messages)
    ensures StoreFollowsTrace(s, u, a + b, messages)
  {
    AppendAssoc(s.events, a, b);
    ProjectionsConcat(a, b);
    var ia, ib := StoredIndices(a), StoredIndices(b);
    DeliveredConcat(ia, ib, messages);
    AppendAssoc(s.emails, Delivered(ia, messages), Delivered(ib, messages));
  }

  /** What a batch adds to the store is what its trace records as stored. */
  lemma BatchStore(pre: SyncState, list: seq<MailInfo>, messages: map<nat, Mail>)
    ensures StoreFollowsTrace(pre, FetchBatch(pre, list, messages).state, BatchTrace(list, messages), messages)
  {
    BatchTraceProjections(list, messages);
    BatchState(pre, list, messages);
  }

  /** The steps one iteration adds to the trace. */
  function StepTrace(s: SyncState, messages: map<nat, Mail>, wakeups: seq<Wakeup>): seq<Event>
  {
    var w := AwaitMail(s.infos, wakeups);
    if w.signal then [Waited(true), Refreshed] + BatchTrace(Unread(w.infos), messages)
    else [Waited(false), WaitCancelled]
  }

  /** One iteration appends its steps to the trace, and the store follows the trace. */
  lemma WaitStepStore(s: SyncState, messages: map<nat, Mail>, wakeups: seq<Wakeup>)
    ensures StoreFollowsTrace(s, WaitStep(s, messages, wakeups).state, StepTrace(s, messages, wakeups), messages)
  {
    var w := AwaitMail(s.infos, wakeups);
    if w.signal {
      SignalledStore(s, w.infos, messages);
    } else {
      var t := [Waited(false), WaitCancelled];
      assert t[..1] == [Waited(false)];
      assert [Waited(false)][..0] == [];
      assert StoredIndices(t) == [];
      assert Delivered(StoredIndices(t), messages) == [];
      AppendAssoc(s.events, [Waited(false)], [WaitCancelled]);
      assert WaitStep(s, messages, wakeups).state == s.(infos := w.infos, events := s.events + t);
    }
  }

  /** A signalled wait, the refresh and the batch over the unread summaries of `infos`: the store follows their trace. */
  lemma SignalledStore(s: SyncState, infos: seq<MailInfo>, messages: map<nat, Mail>)
    ensures var pre := SyncState(s.emails, infos, s.events + [Waited(true)] + [Refreshed]);
      var list := Unread(infos);
      StoreFollowsTrace(s, FetchBatch(pre, list, messages).state,
                        [Waited(true), Refreshed] + BatchTrace(list, messages), messages)
  {
    var pre := SyncState(s.emails, infos, s.events + [Waited(true)] + [Refreshed]);
    var list := Unread(infos);
    BatchStore(pre, list, messages);
    WaitRefreshStore(s, infos, messages);
    StoreFollowsTraceTrans(s, pre, FetchBatch(pre, list, messages).state,
                           [Waited(true), Refreshed], BatchTrace(list, messages), messages);
  }

  /** A signalled wait and the refresh store nothing. */
  lemma WaitRefreshStore(s: SyncState, infos: seq<MailInfo>, messages: map<nat, Mail>)
    ensures StoreFollowsTrace(s, SyncState(s.emails, infos, s.events + [Waited(true)] + [Refreshed]),
                              [Waited(true), Refreshed], messages)
  {
    AppendAssoc(s.events, [Waited(true)], [Refreshed]);
    assert [Waited(true), Refreshed][..1] == [Waited(true)];
    assert [Waited(true)][..0] == [];
    assert StoredIndices([Waited(true), Refreshed]) == [];
  }

  /** An iteration's steps start with the wait, are disciplined, and end the iteration or the run. */
  lemma StepTraceDisciplined(s: SyncState, messages: map<nat, Mail>, wakeups: seq<Wakeup>)
    ensures var t, r := StepTrace(s, messages, wakeups), WaitStep(s, messages, wakeups);
      && |t| >= 2 && t[0].Waited?
      && Disciplined(t)
      && (r.outcome == Completed ==> EndsCycle(t[|t| - 1]))
      && (r.outcome.FetchError? ==> t[|t| - 1] == FetchFailed(r.outcome.index))
      && r.outcome != ConnectFailed
  {
    var w := AwaitMail(s.infos, wakeups);
    if w.signal {
      SignalledTrace(Unread(w.infos), messages);
    }
  }

  /** The steps of a signalled wait, its refresh and its batch over `list`. */
  lemma SignalledTrace(list: seq<MailInfo>, messages: map<nat, Mail>)
    ensures var t, n := [Waited(true), Refreshed] + BatchTrace(list, messages), FetchablePrefix(list, messages);
      && |t| >= 3 && Disciplined(t)
      && (n == |list| ==> EndsCycle(t[|t| - 1]))
      && (n < |list| ==> t[|t| - 1] == FetchFailed(list[n].index))
  {
    var batch := BatchTrace(list, messages);
    BatchTraceDisciplined(list, messages);
    DisciplinedConcat([Waited(true), Refreshed], batch);
    var t := [Waited(true), Refreshed] + batch;
    assert t[|t| - 1] == batch[|batch| - 1];
  }

  /** An iteration whose wait times out changes neither the store nor the listing. */
  lemma IdleStep(s: SyncState, messages: map<nat, Mail>, wakeups: seq<Wakeup>)
    requires wakeups == [] || wakeups[0] == Timeout
    ensures var r := WaitStep(s, messages, wakeups);
      && r.state == s.(events := s.events + [Waited(false), WaitCancelled])
      && r.outcome == Completed
      && r.wakeups == (if wakeups == [] then [] else wakeups[1..])
  {
  }

  /**
   * What a negative poll and its iteration `c` add to the trace: the store follows it, it is
   * disciplined, and it ends either the iteration or, on a failed retrieval, the run.
   */
  ghost predicate PollShape(s: SyncState, c: Run, step: seq<Event>, messages: map<nat, Mail>)
  {
    && StoreFollowsTrace(s, c.state, step, messages)
    && |step| >= 3 && step[0] == CancelChecked(false)
    && Disciplined(step)
    && (c.outcome == Completed ==> EndsCycle(step[|step| - 1]))
    && (c.outcome.FetchError? ==> step[|step| - 1] == FetchFailed(c.outcome.index))
    && c.outcome != ConnectFailed
  }

  /**
   * What the loop started in `s` adds until it returns with `r`: the store follows the trace,
   * the trace is disciplined, starts with a poll, and ends either with the logout after a
   * positive poll or with the failed retrieval that aborted the run.
   */
  ghost predicate LoopShape(s: SyncState, r: Run, added: seq<Event>, messages: map<nat, Mail>)
  {
    && StoreFollowsTrace(s, r.state, added, messages)
    && |added| >= 2 && added[0].CancelChecked?
    && Disciplined(added)
    && (r.outcome == Completed ==> added[|added| - 2] == CancelChecked(true) && added[|added| - 1] == LoggedOut)
    && (r.outcome.FetchError? ==> added[|added| - 1] == FetchFailed(r.outcome.index))
    && r.outcome != ConnectFailed
  }

  /** A negative poll and its iteration have the shape of a poll step. */
  lemma PollStepShape(s: SyncState, messages: map<nat, Mail>, wakeups: seq<Wakeup>)
    returns (step: seq<Event>)
    ensures PollShape(s, PollStep(s, messages, wakeups), step, messages)
  {
    var s1 := s.(events := s.events + [CancelChecked(false)]);
    var t := StepTrace(s1, messages, wakeups);
    assert StoreFollowsTrace(s, s1, [CancelChecked(false)], messages) by {
      assert [CancelChecked(false)][..0] == [];
      assert StoredIndices([CancelChecked(false)]) == [];
    }
    WaitStepStore(s1, messages, wakeups);
    StoreFollowsTraceTrans(s, s1, WaitStep(s1, messages, wakeups).state, [CancelChecked(false)], t, messages);
    StepTraceDisciplined(s1, messages, wakeups);
    DisciplinedConcat([CancelChecked(false)], t);
    step := [CancelChecked(false)] + t;
    assert step[|step| - 1] == t[|t| - 1];
  }

  /** A poll step whose iteration completed, followed by a whole loop, is a whole loop. */
  lemma JoinShape(s: SyncState, c: Run, step: seq<Event>, r: Run, rest: seq<Event>, messages: map<nat, Mail>)
    requires PollShape(s, c, step, messages) && c.outcome == Completed
    requires LoopShape(c.state, r, rest, messages)
    ensures LoopShape(s, r, step + rest, messages)
  {
    StoreFollowsTraceTrans(s, c.state, r.state, step, rest, messages);
    DisciplinedConcat(step, rest);
    var added := step + rest;
    assert added[|added| - 2] == rest[|rest| - 2];
    assert added[|added| - 1] == rest[|rest| - 1];
  }

  /** A positive poll adds exactly the poll and the logout, and stores nothing. */
  lemma LogoutShape(s: SyncState, messages: map<nat, Mail>, wakeups: seq<Wakeup>)
    returns (added: seq<Event>)
    ensures added == [CancelChecked(true), LoggedOut]
    ensures LoopShape(s, Cycles(s, messages, wakeups, 0), added, messages)
  {
    added := [CancelChecked(true), LoggedOut];
    assert added[..1] == [CancelChecked(true)] && [CancelChecked(true)][..0] == [];
    assert StoredIndices(added) == [];
    assert Delivered(StoredIndices(added), messages) == [];
    AppendAssoc(s.events, [CancelChecked(true)], [LoggedOut]);
  }

  /** A poll step whose retrieval failed is a whole loop. */
  lemma FailShape(s: SyncState, c: Run, step: seq<Event>, messages: map<nat, Mail>)
    requires PollShape(s, c, step, messages) && c.outcome.FetchError?
    ensures LoopShape(s, c, step, messages)
  {
  }

  /** A negative poll either ends the run with its failed iteration or lets the loop go on. */
  lemma CyclesUnfold(s: SyncState, messages: map<nat, Mail>, wakeups: seq<Wakeup>, checks: nat)
    requires checks > 0
    ensures var c := PollStep(s, messages, wakeups);
      Cycles(s, messages, wakeups, checks)
        == if c.outcome.FetchError? then c else Cycles(c.state, messages, c.wakeups, checks - 1)
  {
  }

  /** Every run of the loop has the shape of a whole loop. */
  lemma {:induction false} CyclesShape(s: SyncState, messages: map<nat, Mail>, wakeups: seq<Wakeup>, checks: nat)
    returns (added: seq<Event>)
    ensures LoopShape(s, Cycles(s, messages, wakeups, checks), added, messages)
    decreases checks, 1
  {
    if checks == 0 {
      added := LogoutShape(s, messages, wakeups);
    } else {
      var c := PollStep(s, messages, wakeups);
      var step := PollStepShape(s, messages, wakeups);
      CyclesUnfold(s, messages, wakeups, checks);
      added := ContinueShape(s, c, step, messages, checks);
    }
  }

  /** The loop after a negative poll step `c` has the shape of a whole loop. */
  lemma {:induction false} ContinueShape(s: SyncState, c: Run, step: seq<Event>, messages: map<nat, Mail>, checks: nat)
    returns (added: seq<Event>)
    requires PollShape(s, c, step, messages) && checks > 0
    ensures LoopShape(s, if c.outcome.FetchError? then c else Cycles(c.state, messages, c.wakeups, checks - 1),
                      added, messages)
    decreases checks, 0
  {
    if c.outcome.FetchError? {
      FailShape(s, c, step, messages);
      added := step;
    } else {
      var rest := CyclesShape(c.state, messages, c.wakeups, checks - 1);
      JoinShape(s, c, step, Cycles(c.state, messages, c.wakeups, checks - 1), rest, messages);
      added := step + rest;
    }
  }

  /** No step of an iteration polls the token: a batch, once started, runs to its end before the next poll. */
  lemma StepTraceNoPoll(s: SyncState, messages: map<nat, Mail>, wakeups: seq<Wakeup>)
    ensures var t := StepTrace(s, messages, wakeups);
      |t| >= 2 && t[0].Waited? && NoPoll(t)
  {
    var w := AwaitMail(s.infos, wakeups);
    if w.signal {
      BatchTraceNoPoll(Unread(w.infos), messages);
      NoPollConcat([Waited(true), Refreshed], BatchTrace(Unread(w.infos), messages));
    }
  }

  /** A negative poll and its iteration add one poll block to the trace. */
  lemma PollBlock(s: SyncState, messages: map<nat, Mail>, wakeups: seq<Wakeup>) returns (block: seq<Event>)
    ensures PollStep(s, messages, wakeups).state.events == s.events + block
    ensures PollBlocks([block])
  {
    var s1 := s.(events := s.events + [CancelChecked(false)]);
    var t := StepTrace(s1, messages, wakeups);
    WaitStepStore(s1, messages, wakeups);
    StepTraceNoPoll(s1, messages, wakeups);
    block := [CancelChecked(false)] + t;
    AppendAssoc(s.events, [CancelChecked(false)], t);
    assert block[1..] == t;
  }

  /**
   * The loop's trace is a run of poll blocks, then the "cancelled" poll and the logout,
   * or nothing more when a failed retrieval ended the run: the token is polled only at the
   * top of each iteration.
   */
  lemma {:induction false} CyclesBlocks(s: SyncState, messages: map<nat, Mail>, wakeups: seq<Wakeup>, checks: nat)
    returns (blocks: seq<seq<Event>>)
    ensures var r := Cycles(s, messages, wakeups, checks);
      && PollBlocks(blocks)
      && r.state.events
         == s.events + Flatten(blocks) + (if r.outcome.FetchError? then [] else [CancelChecked(true), LoggedOut])
    decreases checks, 1
  {
    if checks == 0 {
      blocks := [];
    } else {
      var c := PollStep(s, messages, wakeups);
      var block := PollBlock(s, messages, wakeups);
      CyclesUnfold(s, messages, wakeups, checks);
      blocks := ContinueBlocks(s, c, block, messages, checks);
    }
  }

  /** The loop after a negative poll step `c` that added `block`: a run of poll blocks and its end. */
  lemma {:induction false} ContinueBlocks(s: SyncState, c: Run, block: seq<Event>, messages: map<nat, Mail>, checks: nat)
    returns (blocks: seq<seq<Event>>)
    requires c.state.events == s.events + block && PollBlocks([block]) && checks > 0
    ensures var r := if c.outcome.FetchError? then c else Cycles(c.state, messages, c.wakeups, checks - 1);
      && PollBlocks(blocks)
      && r.state.events
         == s.events + Flatten(blocks) + (if r.outcome.FetchError? then [] else [CancelChecked(true), LoggedOut])
    decreases checks, 0
  {
    if c.outcome.FetchError? {
      blocks := [block];
      assert blocks[1..] == [];
    } else {
      var rest := CyclesBlocks(c.state, messages, c.wakeups, checks - 1);
      JoinBlocks(s.events, block, rest, Cycles(c.state, messages, c.wakeups, checks - 1));
      blocks := [block] + rest;
    }
  }

  /** A poll block followed by a loop's blocks and end: the blocks join. */
  lemma JoinBlocks(events: seq<Event>, block: seq<Event>, rest: seq<seq<Event>>, r: Run)
    requires PollBlocks([block]) && PollBlocks(rest)
    requires r.state.events
      == events + block + Flatten(rest) + (if r.outcome.FetchError? then [] else [CancelChecked(true), LoggedOut])
    ensures PollBlocks([block] + rest)
    ensures r.state.events
      == events + Flatten([block] + rest) + (if r.outcome.FetchError? then [] else [CancelChecked(true), LoggedOut])
  {
    var blocks := [block] + rest;
    assert blocks[0] == block && blocks[1..] == rest;
    assert forall j :: 0 < j < |blocks| ==> blocks[j] == rest[j - 1];
    AppendAssoc(events, block, Flatten(rest));
  }

  /** After a login the server accepts, the run's trace is the connection and the first refresh, then those blocks and end. */
  lemma MonitorBlocks(s: SyncState, acceptsLogin: bool, messages: map<nat, Mail>, wakeups: seq<Wakeup>, checks: nat)
    returns (blocks: seq<seq<Event>>)
    ensures var r := MonitorRun(s, acceptsLogin, messages, wakeups, checks);
      acceptsLogin ==>
        && PollBlocks(blocks)
        && r.state.events == s.events + [Connected, Refreshed] + Flatten(blocks)
                             + (if r.outcome.FetchError? then [] else [CancelChecked(true), LoggedOut])
  {
    if acceptsLogin {
      blocks := CyclesBlocks(s.(events := s.events + [Connected, Refreshed]), messages, wakeups, checks);
    } else {
      blocks := [];
    }
  }

  /**
   * What a whole monitor run that connected adds: the connection and the first refresh, then
   * a whole loop.
   */
  ghost predicate ConnectedShape(s: SyncState, r: Run, added: seq<Event>, messages: map<nat, Mail>)
  {
    && StoreFollowsTrace(s, r.state, added, messages)
    && |added| >= 4 && added[0] == Connected && added[1] == Refreshed && added[2].CancelChecked?
    && Disciplined(added)
    && (r.outcome == Completed ==> added[|added| - 2] == CancelChecked(true) && added[|added| - 1] == LoggedOut)
    && (r.outcome.FetchError? ==> added[|added| - 1] == FetchFailed(r.outcome.index))
    && r.outcome != ConnectFailed
  }

  /** Connecting and the first refresh store nothing. */
  lemma ConnectStore(s: SyncState, messages: map<nat, Mail>)
    ensures StoreFollowsTrace(s, s.(events := s.events + [Connected, Refreshed]), [Connected, Refreshed], messages)
  {
    var head := [Connected, Refreshed];
    assert head[..1] == [Connected] && [Connected][..0] == [];
    assert StoredIndices(head) == [];
  }

  /** Connecting and refreshing, followed by a whole loop, is a whole connected run. */
  lemma ConnectJoin(s: SyncState, r: Run, rest: seq<Event>, messages: map<nat, Mail>)
    requires LoopShape(s.(events := s.events + [Connected, Refreshed]), r, rest, messages)
    ensures ConnectedShape(s, r, [Connected, Refreshed] + rest, messages)
  {
    var s2 := s.(events := s.events + [Connected, Refreshed]);
    var head := [Connected, Refreshed];
    ConnectStore(s, messages);
    StoreFollowsTraceTrans(s, s2, r.state, head, rest, messages);
    assert Adjacent(head, 0);
    DisciplinedConcat(head, rest);
    var added := head + rest;
    assert added[|added| - 2] == rest[|rest| - 2];
    assert added[|added| - 1] == rest[|rest| - 1];
  }

  /**
   * A run fails to connect exactly when the server refuses the login, and then changes
   * nothing; otherwise it has the shape of a whole connected run.
   */
  lemma MonitorShape(s: SyncState, acceptsLogin: bool, messages: map<nat, Mail>, wakeups: seq<Wakeup>, checks: nat)
    returns (added: seq<Event>)
    ensures var r := MonitorRun(s, acceptsLogin, messages, wakeups, checks);
      && (r.outcome == ConnectFailed <==> !acceptsLogin)
      && (!acceptsLogin ==> r.state == s && r.wakeups == wakeups && added == [])
      && (acceptsLogin ==> ConnectedShape(s, r, added, messages))
  {
    if !acceptsLogin {
      added := [];
    } else {
      var s2 := s.(events := s.events + [Connected, Refreshed]);
      var rest := CyclesShape(s2, messages, wakeups, checks);
      ConnectJoin(s, Cycles(s2, messages, wakeups, checks), rest, messages);
      added := [Connected, Refreshed] + rest;
    }
  }

  /**
   * In a connected run, a poll that reads "cancelled" is the second-to-last step and only
   * in a completed run, and a logout is the last step and only in a completed run: a run
   * aborted by a failed retrieval never logs out.
   */
  lemma CancellationEndsRun(s: SyncState, r: Run, added: seq<Event>, messages: map<nat, Mail>)
    requires ConnectedShape(s, r, added, messages)
    ensures forall p :: 0 <= p < |added| && added[p] == CancelChecked(true) ==>
      r.outcome == Completed && p == |added| - 2
    ensures forall p :: 0 <= p < |added| && added[p] == LoggedOut ==>
      r.outcome == Completed && p == |added| - 1
  {
    forall p | 0 <= p < |added| && added[p] == CancelChecked(true)
      ensures r.outcome == Completed && p == |added| - 2
    {
      NothingAfterCancellation(added, p);
    }
    forall p | 0 <= p < |added| && added[p] == LoggedOut
      ensures r.outcome == Completed && p == |added| - 1
    {
      assert p > 0 && Adjacent(added, p - 1);
      NothingAfterCancellation(added, p - 1);
    }
  }

  /** A loop whose every wait times out changes neither the store nor the listing. */
  lemma {:induction false} IdleCycles(s: SyncState, messages: map<nat, Mail>, wakeups: seq<Wakeup>, checks: nat)
    requires forall k :: 0 <= k < |wakeups| ==> wakeups[k] == Timeout
    ensures var r := Cycles(s, messages, wakeups, checks);
      r.state.emails == s.emails && r.state.infos == s.infos && r.outcome == Completed
    decreases checks
  {
    if checks > 0 {
      var c := PollStep(s, messages, wakeups);
      IdleStep(s.(events := s.events + [CancelChecked(false)]), messages, wakeups);
      CyclesUnfold(s, messages, wakeups, checks);
      assert forall k :: 0 <= k < |c.wakeups| ==> c.wakeups[k] == wakeups[k + 1];
      IdleCycles(c.state, messages, c.wakeups, checks - 1);
    }
  }

  /** A negative poll followed by an arrival refreshes and runs a batch over the unread summaries of the grown listing. */
  lemma ArrivalStep(s: SyncState, messages: map<nat, Mail>, wakeups: seq<Wakeup>)
    requires wakeups != [] && wakeups[0].Arrival?
    ensures var infos := s.infos + wakeups[0].arrived;
      var pre := SyncState(s.emails, infos, s.events + [CancelChecked(false), Waited(true), Refreshed]);
      var b := FetchBatch(pre, Unread(infos), messages);
      PollStep(s, messages, wakeups) == Run(b.state, wakeups[1..], b.outcome)
  {
    AppendAssoc(s.events, [CancelChecked(false)], [Waited(true)]);
    AppendAssoc(s.events, [CancelChecked(false), Waited(true)], [Refreshed]);
    assert [CancelChecked(false)] + [Waited(true)] == [CancelChecked(false), Waited(true)];
    assert [CancelChecked(false), Waited(true)] + [Refreshed] == [CancelChecked(false), Waited(true), Refreshed];
  }

  /** The summaries that the wait preceding a batch brings in, unread ones only. */
  function FreshUnread(wakeups: seq<Wakeup>): seq<MailInfo>
  {
    if wakeups != [] && wakeups[0].Arrival? then Unread(wakeups[0].arrived) else []
  }

  /**
   * When every message on the server is read, an iteration stores exactly the unread
   * messages that its wait brought in (up to the first failed retrieval), in order; no
   * summary of the old listing is retrieved again. Once it completes every message is read.
   */
  lemma FreshMailOnly(s: SyncState, messages: map<nat, Mail>, wakeups: seq<Wakeup>)
    requires forall k :: 0 <= k < |s.infos| ==> s.infos[k].read
    ensures var c, incoming := PollStep(s, messages, wakeups), FreshUnread(wakeups);
      var done := incoming[..FetchablePrefix(incoming, messages)];
      && (forall k :: 0 <= k < |done| ==> Indices(done)[k] in messages)
      && c.state.emails == s.emails + Delivered(Indices(done), messages)
      && (c.outcome == Completed ==> forall k :: 0 <= k < |c.state.infos| ==> c.state.infos[k].read)
  {
    if wakeups != [] && wakeups[0].Arrival? {
      FreshArrival(s, messages, wakeups);
    } else {
      var incoming := FreshUnread(wakeups);
      assert incoming[..FetchablePrefix(incoming, messages)] == [];
      IdleStep(s.(events := s.events + [CancelChecked(false)]), messages, wakeups);
    }
  }

  /** `FreshMailOnly` for a wait that brings messages in. */
  lemma FreshArrival(s: SyncState, messages: map<nat, Mail>, wakeups: seq<Wakeup>)
    requires forall k :: 0 <= k < |s.infos| ==> s.infos[k].read
    requires wakeups != [] && wakeups[0].Arrival?
    ensures var c, incoming := PollStep(s, messages, wakeups), Unread(wakeups[0].arrived);
      var done := incoming[..FetchablePrefix(incoming, messages)];
      && (forall k :: 0 <= k < |done| ==> Indices(done)[k] in messages)
      && c.state.emails == s.emails + Delivered(Indices(done), messages)
      && (c.outcome == Completed <==> |done| == |incoming|)
      && (c.outcome == Completed ==> forall k :: 0 <= k < |c.state.infos| ==> c.state.infos[k].read)
      && c.wakeups == wakeups[1..]
  {
    var infos := s.infos + wakeups[0].arrived;
    var pre := SyncState(s.emails, infos, s.events + [CancelChecked(false), Waited(true), Refreshed]);
    ArrivalStep(s, messages, wakeups);
    OnlyArrivalsUnread(s.infos, wakeups[0].arrived);
    BatchState(pre, Unread(infos), messages);
    if FetchBatch(pre, Unread(infos), messages).outcome == Completed {
      NewOnlyClears(pre, messages);
    }
  }

  /** On a server where every message is read, the unread summaries are those that arrive. */
  lemma OnlyArrivalsUnread(infos: seq<MailInfo>, arrived: seq<MailInfo>)
    requires forall k :: 0 <= k < |infos| ==> infos[k].read
    ensures Unread(infos + arrived) == Unread(arrived)
  {
    UnreadConcat(infos, arrived);
    AllReadNoneUnread(infos);
    assert [] + Unread(arrived) == Unread(arrived);
  }

  /**
   * One arrival of an unread and an already read message between two polls: only the unread
   * one is listed and stored, and both end up read.
   */
  lemma ArrivalScenario(m1: Mail, m2: Mail, i1: nat, i2: nat)
    requires i1 != i2
    ensures var r := MonitorRun(SyncState([], [], []), true, map[i1 := m1, i2 := m2],
                                [Arrival([MailInfo(i1, false), MailInfo(i2, true)])], 1);
      && r.state.emails == [ToEmail(m1)]
      && r.state.infos == [MailInfo(i1, true), MailInfo(i2, true)]
      && r.outcome == Completed
  {
    var messages := map[i1 := m1, i2 := m2];
    var wakeups := [Arrival([MailInfo(i1, false), MailInfo(i2, true)])];
    Connects(SyncState([], [], []), messages, wakeups, 1);
    assert [] + [Connected, Refreshed] == [Connected, Refreshed];
    var s2 := SyncState([], [], [Connected, Refreshed]);
    MixedArrival(m1, m2, i1, i2);
    CyclesUnfold(s2, messages, wakeups, 1);
    var c := PollStep(s2, messages, wakeups);
    LogoutKeepsStore(c.state, messages, c.wakeups);
  }

  /**
   * The iteration of that scenario: right after the connection, a "not cancelled" poll whose
   * wait brings in an unread and a read summary stores the unread one's email, leaves both
   * read, completes and consumes the script.
   */
  lemma MixedArrival(m1: Mail, m2: Mail, i1: nat, i2: nat)
    requires i1 != i2
    ensures var c := PollStep(SyncState([], [], [Connected, Refreshed]), map[i1 := m1, i2 := m2],
                              [Arrival([MailInfo(i1, false), MailInfo(i2, true)])]);
      && c.state.emails == [ToEmail(m1)]
      && c.state.infos == [MailInfo(i1, true), MailInfo(i2, true)]
      && c.outcome == Completed
  {
    var s := SyncState([], [], [Connected, Refreshed]);
    var messages := map[i1 := m1, i2 := m2];
    var infos := [MailInfo(i1, false), MailInfo(i2, true)];
    var wakeups := [Arrival(infos)];
    var list := [MailInfo(i1, false)];
    MixedUnread(i1, i2);
    SingleUnread(messages, m1, i1);
    FreshArrival(s, messages, wakeups);
    var pre := SyncState([], infos, s.events + [CancelChecked(false), Waited(true), Refreshed]);
    ArrivalStep(s, messages, wakeups);
    assert s.infos + infos == infos;
    BatchState(pre, list, messages);
  }

  /** Of an unread and a read summary only the first is unread, and marking it leaves both read. */
  lemma MixedUnread(i1: nat, i2: nat)
    requires i1 != i2
    ensures var infos := [MailInfo(i1, false), MailInfo(i2, true)];
      && Unread(infos) == [MailInfo(i1, false)]
      && MarkAll(infos, UnreadIndices([MailInfo(i1, false)])) == [MailInfo(i1, true), MailInfo(i2, true)]
  {
    var infos := [MailInfo(i1, false), MailInfo(i2, true)];
    assert infos[..1] == [MailInfo(i1, false)] && infos[..1][..0] == [];
    var r := MarkAll(infos, UnreadIndices([MailInfo(i1, false)]));
    assert r[0] == MailInfo(i1, true) && r[1] == MailInfo(i2, true);
  }

  /**
   * Two arrivals of one unread message each, on a server where every message is read, between
   * three polls: each message is stored once, in arrival order, and the first one is not
   * fetched again at the second arrival.
   */
  lemma TwoArrivalsScenario(s: SyncState, messages: map<nat, Mail>, wakeups: seq<Wakeup>,
                            m1: Mail, i1: nat, m2: Mail, i2: nat)
    requires forall k :: 0 <= k < |s.infos| ==> s.infos[k].read
    requires |wakeups| >= 2
    requires wakeups[0] == Arrival([MailInfo(i1, false)]) && wakeups[1] == Arrival([MailInfo(i2, false)])
    requires i1 in messages && messages[i1] == m1 && i2 in messages && messages[i2] == m2
    ensures var r := MonitorRun(s, true, messages, wakeups, 2);
      r.state.emails == s.emails + [ToEmail(m1)] + [ToEmail(m2)] && r.outcome == Completed
  {
    Connects(s, messages, wakeups, 2);
    TwoFreshCycles(s.(events := s.events + [Connected, Refreshed]), messages, wakeups, m1, i1, m2, i2);
  }

  /** The loop of that scenario, from the state after the connection. */
  lemma TwoFreshCycles(s: SyncState, messages: map<nat, Mail>, wakeups: seq<Wakeup>,
                       m1: Mail, i1: nat, m2: Mail, i2: nat)
    requires forall k :: 0 <= k < |s.infos| ==> s.infos[k].read
    requires |wakeups| >= 2
    requires wakeups[0] == Arrival([MailInfo(i1, false)]) && wakeups[1] == Arrival([MailInfo(i2, false)])
    requires i1 in messages && messages[i1] == m1 && i2 in messages && messages[i2] == m2
    ensures var r := Cycles(s, messages, wakeups, 2);
      r.state.emails == s.emails + [ToEmail(m1)] + [ToEmail(m2)] && r.outcome == Completed
  {
    var t := FreshCycle(s, messages, wakeups, m1, i1, 2);
    LastFreshCycle(t, messages, wakeups[1..], m2, i2);
  }

  /** The second half of that loop: one more such arrival, then a positive poll. */
  lemma LastFreshCycle(s: SyncState, messages: map<nat, Mail>, wakeups: seq<Wakeup>, m: Mail, i: nat)
    requires forall k :: 0 <= k < |s.infos| ==> s.infos[k].read
    requires wakeups != [] && wakeups[0] == Arrival([MailInfo(i, false)])
    requires i in messages && messages[i] == m
    ensures var r := Cycles(s, messages, wakeups, 1);
      r.state.emails == s.emails + [ToEmail(m)] && r.outcome == Completed
  {
    var t := FreshCycle(s, messages, wakeups, m, i, 1);
    LogoutKeepsStore(t, messages, wakeups[1..]);
  }

  /**
   * A "not cancelled" poll whose wait brings in one unread, retrievable message, on a server
   * where every message is read: the loop goes on from a state `t` whose store has gained just
   * that message's email and where every message is read again.
   */
  lemma FreshCycle(s: SyncState, messages: map<nat, Mail>, wakeups: seq<Wakeup>, m: Mail, i: nat,
                   checks: nat) returns (t: SyncState)
    requires forall k :: 0 <= k < |s.infos| ==> s.infos[k].read
    requires wakeups != [] && wakeups[0] == Arrival([MailInfo(i, false)])
    requires i in messages && messages[i] == m
    requires checks > 0
    ensures Cycles(s, messages, wakeups, checks) == Cycles(t, messages, wakeups[1..], checks - 1)
    ensures t.emails == s.emails + [ToEmail(m)]
    ensures forall k :: 0 <= k < |t.infos| ==> t.infos[k].read
  {
    t := PollStep(s, messages, wakeups).state;
    OneFreshMessage(s, messages, wakeups, m, i);
    CyclesUnfold(s, messages, wakeups, checks);
  }

  /** A run whose login is accepted is the loop after the connection and the first refresh. */
  lemma Connects(s: SyncState, messages: map<nat, Mail>, wakeups: seq<Wakeup>, checks: nat)
    ensures MonitorRun(s, true, messages, wakeups, checks)
      == Cycles(s.(events := s.events + [Connected, Refreshed]), messages, wakeups, checks)
  {
  }

  /** A positive poll ends the run, completed, with the store as it is. */
  lemma LogoutKeepsStore(s: SyncState, messages: map<nat, Mail>, wakeups: seq<Wakeup>)
    ensures var r := Cycles(s, messages, wakeups, 0);
      r.state.emails == s.emails && r.state.infos == s.infos && r.outcome == Completed
  {
  }

  /** An iteration whose wait brings in one unread, retrievable message stores just that message. */
  lemma OneFreshMessage(s: SyncState, messages: map<nat, Mail>, wakeups: seq<Wakeup>, m: Mail, i: nat)
    requires forall k :: 0 <= k < |s.infos| ==> s.infos[k].read
    requires wakeups != [] && wakeups[0] == Arrival([MailInfo(i, false)])
    requires i in messages && messages[i] == m
    ensures var c := PollStep(s, messages, wakeups);
      && c.state.emails == s.emails + [ToEmail(m)]
      && c.outcome == Completed
      && c.wakeups == wakeups[1..]
      && forall k :: 0 <= k < |c.state.infos| ==> c.state.infos[k].read
  {
    SingleUnread(messages, m, i);
    FreshArrival(s, messages, wakeups);
  }

  /** A listing of one unread, retrievable message is retrieved whole and delivers that message. */
  lemma SingleUnread(messages: map<nat, Mail>, m: Mail, i: nat)
    requires i in messages && messages[i] == m
    ensures var one := [MailInfo(i, false)];
      && Unread(one) == one
      && FetchablePrefix(one, messages) == 1
      && one[..1] == one
      && Indices(one) == [i]
      && Delivered([i], messages) == [ToEmail(m)]
  {
    var one := [MailInfo(i, false)];
    assert one[..0] == [];
    assert [i][..0] == [];
  }
}
