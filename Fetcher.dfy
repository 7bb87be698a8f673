/**
 * The fetch batch of EmailInboxManager.ReceiveUnreadMailAsync, as functions on the
 * state it changes: the stored emails, the server's listing and the trace.
 */
module Fetcher {
  import opened EmailModel
  import opened MailLibrary
  import opened Trace

  /** How a batch, or a whole monitoring run, ends. */
  datatype Outcome = Completed | ConnectFailed | FetchError(index: nat)

  /** What the manager's steps change: `Emails`, the client's listing, and the trace. */
  datatype SyncState = SyncState(emails: seq<Email>, infos: seq<MailInfo>, events: seq<Event>)

  datatype Step = Step(state: SyncState, outcome: Outcome)

  /** `Array.ConvertAll(addrs, a => a.ToString())`. */
  function AddressTexts(addrs: seq<MailAddress>): (r: seq<string>)
    ensures |r| == |addrs|
    ensures forall k :: 0 <= k < |addrs| ==> r[k] == addrs[k].text
  {
    if addrs == [] then [] else [addrs[0].text] + AddressTexts(addrs[1..])
  }

  /** The `Email` the batch builds from a retrieved message. */
  function ToEmail(m: Mail): (e: Email)
    ensures e.from == m.from.text && e.subject == m.subject
    ensures e.textBody == m.textBody && e.htmlBody == m.htmlBody
    ensures |e.to| == |m.to| && forall k :: 0 <= k < |m.to| ==> e.to[k] == m.to[k].text
    ensures |e.cc| == |m.cc| && forall k :: 0 <= k < |m.cc| ==> e.cc[k] == m.cc[k].text
  {
    Email(m.from.text, AddressTexts(m.to), AddressTexts(m.cc), m.subject, m.textBody, m.htmlBody)
  }

  /** The message indices of a listing, in order. */
  function Indices(infos: seq<MailInfo>): (r: seq<nat>)
    ensures |r| == |infos|
    ensures forall k :: 0 <= k < |infos| ==> r[k] == infos[k].index
  {
    if infos == [] then [] else Indices(infos[..|infos| - 1]) + [infos[|infos| - 1].index]
  }

  /** The emails built from the given messages, in the given order. */
  function Delivered(ids: seq<nat>, messages: map<nat, Mail>): (r: seq<Email>)
    requires forall k :: 0 <= k < |ids| ==> ids[k] in messages
    ensures |r| == |ids|
    ensures forall k :: 0 <= k < |ids| ==> r[k] == ToEmail(messages[ids[k]])
  {
    if ids == [] then []
    else Delivered(ids[..|ids| - 1], messages) + [ToEmail(messages[ids[|ids| - 1]])]
  }

  /** The indices of the summaries that were unread when listed, in listing order. */
  function UnreadIndices(infos: seq<MailInfo>): (r: seq<nat>)
    ensures |r| <= |infos|
    ensures forall x :: x in r <==> exists k :: 0 <= k < |infos| && !infos[k].read && infos[k].index == x
  {
    if infos == [] then []
    else
      var last := infos[|infos| - 1];
      UnreadIndices(infos[..|infos| - 1]) + (if !last.read then [last.index] else [])
  }

  /** The listing after `MarkAsRead(_, true)` on each of `ids`, in turn. */
  function MarkAll(infos: seq<MailInfo>, ids: seq<nat>): (r: seq<MailInfo>)
    ensures |r| == |infos|
    ensures forall k :: 0 <= k < |infos| ==>
      r[k].index == infos[k].index && r[k].read == (infos[k].read || infos[k].index in ids)
  {
    if ids == [] then infos
    else SetRead(MarkAll(infos, ids[..|ids| - 1]), ids[|ids| - 1], true)
  }

  /** How many summaries, from the first, `GetMail` can retrieve before the first failure. */
  function FetchablePrefix(infos: seq<MailInfo>, messages: map<nat, Mail>): (n: nat)
    ensures n <= |infos|
    ensures forall k :: 0 <= k < n ==> infos[k].index in messages
    ensures n < |infos| ==> infos[n].index !in messages
  {
    if infos == [] || infos[0].index !in messages then 0
    else 1 + FetchablePrefix(infos[1..], messages)
  }

  /** The steps of a batch over `infos` that retrieves every one of them. */
  function BatchEvents(infos: seq<MailInfo>): seq<Event>
  {
    if infos == [] then []
    else
      var last := infos[|infos| - 1];
      BatchEvents(infos[..|infos| - 1])
      + [Stored(last.index)]
      + (if !last.read then [MarkedRead(last.index)] else [])
  }

  /**
   * ReceiveUnreadMailAsync on a given state and the listing `list` that `GetMailInfos`
   * returned: for each listed summary, in order, retrieve the message, store its email,
   * mark it read on the server if it was unread; the first failed retrieval aborts the batch.
   */
  function FetchBatch(s: SyncState, list: seq<MailInfo>, messages: map<nat, Mail>): (r: Step)
    // a batch fails exactly when some message cannot be retrieved, and names the first
    ensures var n := FetchablePrefix(list, messages);
      && (r.outcome == Completed <==> n == |list|)
      && (r.outcome != Completed ==> r.outcome == FetchError(list[n].index))
    // the store grows by one email per retrieved summary and keeps its old contents
    ensures var n := FetchablePrefix(list, messages);
      && |r.state.emails| == |s.emails| + n
      && r.state.emails[..|s.emails|] == s.emails
    // the k-th new email is built from the message of the k-th summary
    ensures forall k :: 0 <= k < FetchablePrefix(list, messages) ==>
      r.state.emails[|s.emails| + k] == ToEmail(messages[list[k].index])
    // exactly the messages of the retrieved unread summaries become read on the server
    ensures var n := FetchablePrefix(list, messages);
      && |r.state.infos| == |s.infos|
      && forall k :: 0 <= k < |s.infos| ==>
        r.state.infos[k].index == s.infos[k].index
        && r.state.infos[k].read == (s.infos[k].read || s.infos[k].index in UnreadIndices(list[..n]))
    // the trace only grows
    ensures r.state.events == s.events + BatchTrace(list, messages)
  {
    var n := FetchablePrefix(list, messages);
    var done := list[..n];
    var emails := s.emails + Delivered(Indices(done), messages);
    var infos := MarkAll(s.infos, UnreadIndices(done));
    Step(SyncState(emails, infos, s.events + BatchTrace(list, messages)),
         if n == |list| then Completed else FetchError(list[n].index))
  }

  /** The state a batch leaves, in terms of the summaries it got through. */
  lemma BatchState(s: SyncState, list: seq<MailInfo>, messages: map<nat, Mail>)
    ensures var done := list[..FetchablePrefix(list, messages)];
      && (forall k :: 0 <= k < |done| ==> Indices(done)[k] in messages)
      && FetchBatch(s, list, messages).state
         == SyncState(s.emails + Delivered(Indices(done), messages), MarkAll(s.infos, UnreadIndices(done)),
                      s.events + BatchTrace(list, messages))
  {
  }

  /** The steps a batch over the listing `infos` adds to the trace. */
  function BatchTrace(infos: seq<MailInfo>, messages: map<nat, Mail>): seq<Event>
  {
    var n := FetchablePrefix(infos, messages);
    [Listed] + BatchEvents(infos[..n]) + (if n == |infos| then [] else [FetchFailed(infos[n].index)])
  }

  /** The trace of a batch names the stored and the marked messages, in order. */
  lemma {:induction false} BatchEventsProjections(infos: seq<MailInfo>)
    ensures StoredIndices(BatchEvents(infos)) == Indices(infos)
    ensures MarkedIndices(BatchEvents(infos)) == UnreadIndices(infos)
    decreases |infos|
  {
    if infos != [] {
      var init, last := infos[..|infos| - 1], infos[|infos| - 1];
      BatchEventsProjections(init);
      var stored: seq<Event> := [Stored(last.index)];
      var marked: seq<Event> := if !last.read then [MarkedRead(last.index)] else [];
      assert BatchEvents(infos) == BatchEvents(init) + (stored + marked);
      ProjectionsConcat(BatchEvents(init), stored + marked);
      ProjectionsConcat(stored, marked);
      assert stored[..0] == [];
      if !last.read {
        assert marked[..0] == [];
      }
      assert Indices(infos) == Indices(init) + [last.index];
      assert UnreadIndices(infos) == UnreadIndices(init) + (if !last.read then [last.index] else []);
    }
  }

  /** A batch's trace only stores and marks, and marks a message right after storing it. */
  lemma {:induction false} BatchEventsDisciplined(infos: seq<MailInfo>)
    ensures var ev := BatchEvents(infos);
      && Disciplined(ev)
      && (forall p :: 0 <= p < |ev| ==> ev[p].Stored? || ev[p].MarkedRead?)
      && (ev != [] ==> ev[0].Stored?)
    decreases |infos|
  {
    if infos != [] {
      var init, last := infos[..|infos| - 1], infos[|infos| - 1];
      BatchEventsDisciplined(init);
      var tail := [Stored(last.index)] + (if !last.read then [MarkedRead(last.index)] else []);
      DisciplinedConcat(BatchEvents(init), tail);
      assert BatchEvents(infos) == BatchEvents(init) + tail;
    }
  }

  /** A batch's trace is the listing, the per-summary steps, then the failed retrieval if any. */
  lemma BatchTraceParts(infos: seq<MailInfo>, messages: map<nat, Mail>)
    returns (batch: seq<Event>, tail: seq<Event>)
    ensures var n := FetchablePrefix(infos, messages);
      && batch == BatchEvents(infos[..n])
      && tail == (if n == |infos| then [] else [FetchFailed(infos[n].index)])
      && BatchTrace(infos, messages) == [Listed] + batch + tail
  {
    var n := FetchablePrefix(infos, messages);
    batch := BatchEvents(infos[..n]);
    tail := if n == |infos| then [] else [FetchFailed(infos[n].index)];
  }

  /** A batch polls nowhere: the token is not looked at between two retrievals. */
  lemma BatchTraceNoPoll(infos: seq<MailInfo>, messages: map<nat, Mail>)
    ensures NoPoll(BatchTrace(infos, messages))
  {
    var batch, tail := BatchTraceParts(infos, messages);
    BatchEventsDisciplined(infos[..FetchablePrefix(infos, messages)]);
    NoPollConcat([Listed], batch);
    NoPollConcat([Listed] + batch, tail);
  }

  /**
   * A batch's trace starts with the listing, is disciplined, and ends with the failed
   * retrieval if there is one.
   */
  lemma BatchTraceDisciplined(infos: seq<MailInfo>, messages: map<nat, Mail>)
    ensures var t, n := BatchTrace(infos, messages), FetchablePrefix(infos, messages);
      && t[0] == Listed
      && Disciplined(t)
      && (n == |infos| ==> t[|t| - 1] == Listed || t[|t| - 1].Stored? || t[|t| - 1].MarkedRead?)
      && (n < |infos| ==> t[|t| - 1] == FetchFailed(infos[n].index))
  {
    var batch, tail := BatchTraceParts(infos, messages);
    var n := FetchablePrefix(infos, messages);
    BatchEventsDisciplined(infos[..n]);
    DisciplinedConcat([Listed], batch);
    DisciplinedConcat([Listed] + batch, tail);
    var t := [Listed] + batch + tail;
    if tail == [] && batch != [] {
      assert t[|t| - 1] == batch[|batch| - 1];
    }
  }

  /** A batch's trace records the retrieved summaries as stored and the unread ones among them as marked. */
  lemma BatchTraceProjections(infos: seq<MailInfo>, messages: map<nat, Mail>)
    ensures var t, n := BatchTrace(infos, messages), FetchablePrefix(infos, messages);
      && StoredIndices(t) == Indices(infos[..n])
      && MarkedIndices(t) == UnreadIndices(infos[..n])
  {
    var batch, tail := BatchTraceParts(infos, messages);
    var n := FetchablePrefix(infos, messages);
    BatchEventsProjections(infos[..n]);
    ProjectionsConcat([Listed], batch);
    ProjectionsConcat([Listed] + batch, tail);
    assert [Listed][..0] == [];
    assert StoredIndices([Listed]) == [] && MarkedIndices([Listed]) == [];
    if tail != [] {
      assert tail[..0] == [];
    }
    assert StoredIndices(tail) == [] && MarkedIndices(tail) == [];
    assert StoredIndices([Listed] + batch) == StoredIndices(batch);
    assert MarkedIndices([Listed] + batch) == MarkedIndices(batch);
  }

  /** The unread summaries of a `NewOnly` listing are all of them. */
  lemma NewOnlyIndices(done: seq<MailInfo>)
    requires forall k :: 0 <= k < |done| ==> !done[k].read
    ensures forall x :: x in UnreadIndices(done) <==> x in Indices(done)
  {
    forall x | x in Indices(done)
      ensures x in UnreadIndices(done)
    {
      var j :| 0 <= j < |done| && Indices(done)[j] == x;
      assert !done[j].read && done[j].index == x;
    }
  }

  /** A batch over the unread summaries (the `NewOnly` listing) marks read exactly the messages it retrieved. */
  lemma NewOnlyMarks(s: SyncState, messages: map<nat, Mail>)
    ensures var list := Unread(s.infos);
      var r, n := FetchBatch(s, list, messages), FetchablePrefix(list, messages);
      forall k :: 0 <= k < |s.infos| ==>
        (r.state.infos[k].read <==> s.infos[k].read || s.infos[k].index in Indices(list[..n]))
  {
    var list := Unread(s.infos);
    NewOnlyIndices(list[..FetchablePrefix(list, messages)]);
  }

  /**
   * Once a `NewOnly` batch completes, no summary of the server's listing is left unread, so
   * the next `NewOnly` listing holds only what arrives afterwards.
   */
  lemma NewOnlyClears(s: SyncState, messages: map<nat, Mail>)
    requires FetchBatch(s, Unread(s.infos), messages).outcome == Completed
    ensures var r := FetchBatch(s, Unread(s.infos), messages);
      forall k :: 0 <= k < |s.infos| ==> r.state.infos[k].read
  {
    var list := Unread(s.infos);
    assert list[..FetchablePrefix(list, messages)] == list;
    MarkingUnreadClears(s.infos);
  }

  /** Marking read the messages of every unread summary leaves no summary unread. */
  lemma MarkingUnreadClears(infos: seq<MailInfo>)
    ensures forall k :: 0 <= k < |infos| ==> MarkAll(infos, UnreadIndices(Unread(infos)))[k].read
  {
    var list := Unread(infos);
    UnreadMembers(infos);
    forall k | 0 <= k < |infos| && !infos[k].read
      ensures infos[k].index in UnreadIndices(list)
    {
      assert infos[k] in list;
      var j :| 0 <= j < |list| && list[j] == infos[k];
    }
  }

  /** A listing in which every summary is read has no unread summaries. */
  lemma AllReadNoneUnread(infos: seq<MailInfo>)
    requires forall k :: 0 <= k < |infos| ==> infos[k].read
    ensures Unread(infos) == []
  {
    UnreadMembers(infos);
  }

  /** Retrieving one more summary `x` extends each part of the batch by that summary's share. */
  lemma BatchSnoc(p: seq<MailInfo>, x: MailInfo, messages: map<nat, Mail>)
    requires forall k :: 0 <= k < |p| ==> p[k].index in messages
    requires x.index in messages
    ensures Indices(p + [x]) == Indices(p) + [x.index]
    ensures forall k :: 0 <= k < |p + [x]| ==> Indices(p + [x])[k] in messages
    ensures Delivered(Indices(p + [x]), messages) == Delivered(Indices(p), messages) + [ToEmail(messages[x.index])]
    ensures UnreadIndices(p + [x]) == UnreadIndices(p) + (if !x.read then [x.index] else [])
    ensures BatchEvents(p + [x]) == BatchEvents(p) + [Stored(x.index)] + (if !x.read then [MarkedRead(x.index)] else [])
  {
    assert (p + [x])[..|p|] == p;
    var ids := Indices(p + [x]);
    assert ids[..|ids| - 1] == Indices(p);
  }

  /** Marking one more message read extends the marking by that message. */
  lemma MarkAllSnoc(infos: seq<MailInfo>, ids: seq<nat>, y: nat)
    ensures MarkAll(infos, ids + [y]) == SetRead(MarkAll(infos, ids), y, true)
  {
    assert (ids + [y])[..|ids|] == ids;
  }

  /**
   * One retrieved summary `x` with its message `m`: store the email, then mark the message
   * read on the server if the summary was unread.
   */
  function StoreStep(p: SyncState, x: MailInfo, m: Mail): SyncState
  {
    if x.read then
      SyncState(p.emails + [ToEmail(m)], p.infos, p.events + [Stored(x.index)])
    else
      SyncState(p.emails + [ToEmail(m)], SetRead(p.infos, x.index, true),
                p.events + [Stored(x.index)] + [MarkedRead(x.index)])
  }

  /**
   * The state once the batch has listed, then retrieved and stored the first `i` summaries
   * of the listing `list`, marking each unread one read right after storing it.
   */
  function Processed(s: SyncState, list: seq<MailInfo>, messages: map<nat, Mail>, i: nat): (p: SyncState)
    requires i <= |list|
    requires forall k :: 0 <= k < i ==> list[k].index in messages
    ensures |p.emails| == |s.emails| + i
    decreases i
  {
    if i == 0 then s.(events := s.events + [Listed])
    else
      var x := list[i - 1];
      StoreStep(Processed(s, list, messages, i - 1), x, messages[x.index])
  }

  /** After `i` summaries the store holds the emails of their messages, in listing order. */
  lemma {:induction false} ProcessedEmails(s: SyncState, list: seq<MailInfo>, messages: map<nat, Mail>, i: nat)
    requires i <= |list|
    requires forall k :: 0 <= k < i ==> list[k].index in messages
    ensures forall k :: 0 <= k < i ==> Indices(list[..i])[k] in messages
    ensures Processed(s, list, messages, i).emails == s.emails + Delivered(Indices(list[..i]), messages)
    decreases i
  {
    if i == 0 {
      assert list[..0] == [];
    } else {
      var done, x := list[..i - 1], list[i - 1];
      ProcessedEmails(s, list, messages, i - 1);
      TakeSnoc(list, i);
      BatchSnoc(done, x, messages);
      AppendAssoc(s.emails, Delivered(Indices(done), messages), [ToEmail(messages[x.index])]);
    }
  }

  /** After `i` summaries exactly the messages of the unread ones among them have been marked read. */
  lemma {:induction false} ProcessedInfos(s: SyncState, list: seq<MailInfo>, messages: map<nat, Mail>, i: nat)
    requires i <= |list|
    requires forall k :: 0 <= k < i ==> list[k].index in messages
    ensures Processed(s, list, messages, i).infos == MarkAll(s.infos, UnreadIndices(list[..i]))
    decreases i
  {
    if i == 0 {
      assert list[..0] == [];
    } else {
      var done, x := list[..i - 1], list[i - 1];
      ProcessedInfos(s, list, messages, i - 1);
      TakeSnoc(list, i);
      BatchSnoc(done, x, messages);
      var marked := UnreadIndices(done);
      if x.read {
        assert marked + [] == marked;
      } else {
        MarkAllSnoc(list, marked, x.index);
      }
    }
  }

  /** After `i` summaries the trace holds the listing and then each one's store and mark steps. */
  lemma {:induction false} ProcessedEvents(s: SyncState, list: seq<MailInfo>, messages: map<nat, Mail>, i: nat)
    requires i <= |list|
    requires forall k :: 0 <= k < i ==> list[k].index in messages
    ensures Processed(s, list, messages, i).events == s.events + [Listed] + BatchEvents(list[..i])
    decreases i
  {
    if i == 0 {
      assert list[..0] == [];
    } else {
      var done, x := list[..i - 1], list[i - 1];
      ProcessedEvents(s, list, messages, i - 1);
      TakeSnoc(list, i);
      AppendAssoc(s.events + [Listed], BatchEvents(done), [Stored(x.index)]);
      if x.read {
        assert BatchEvents(done) + [Stored(x.index)] + [] == BatchEvents(done) + [Stored(x.index)];
      } else {
        AppendAssoc(s.events + [Listed], BatchEvents(done) + [Stored(x.index)], [MarkedRead(x.index)]);
      }
    }
  }

  /** The state after `i` summaries, in closed form. */
  lemma ProcessedPrefix(s: SyncState, list: seq<MailInfo>, messages: map<nat, Mail>, i: nat)
    requires i <= |list|
    requires forall k :: 0 <= k < i ==> list[k].index in messages
    ensures forall k :: 0 <= k < i ==> Indices(list[..i])[k] in messages
    ensures Processed(s, list, messages, i) == SyncState(
      s.emails + Delivered(Indices(list[..i]), messages),
      MarkAll(s.infos, UnreadIndices(list[..i])),
      s.events + [Listed] + BatchEvents(list[..i]))
  {
    ProcessedEmails(s, list, messages, i);
    ProcessedInfos(s, list, messages, i);
    ProcessedEvents(s, list, messages, i);
  }

  /** A batch that retrieves every summary ends where the loop over all of them ends. */
  lemma BatchCompletes(s: SyncState, list: seq<MailInfo>, messages: map<nat, Mail>)
    requires forall k :: 0 <= k < |list| ==> list[k].index in messages
    ensures FetchBatch(s, list, messages) == Step(Processed(s, list, messages, |list|), Completed)
  {
    var n := FetchablePrefix(list, messages);
    assert n == |list|;
    assert list[..n] == list;
    ProcessedPrefix(s, list, messages, n);
    assert BatchTrace(list, messages) == [Listed] + BatchEvents(list) by {
      assert [Listed] + BatchEvents(list) + [] == [Listed] + BatchEvents(list);
    }
    AppendAssoc(s.events, [Listed], BatchEvents(list));
  }

  /** A batch whose first failed retrieval is summary `i` ends where the loop stopped, plus the failure. */
  lemma BatchFails(s: SyncState, list: seq<MailInfo>, messages: map<nat, Mail>, i: nat)
    requires i < |list| && list[i].index !in messages
    requires forall k :: 0 <= k < i ==> list[k].index in messages
    ensures var p := Processed(s, list, messages, i);
      FetchBatch(s, list, messages) == Step(p.(events := p.events + [FetchFailed(list[i].index)]),
                                     FetchError(list[i].index))
  {
    var n := FetchablePrefix(list, messages);
    assert n == i;
    ProcessedPrefix(s, list, messages, i);
    var done := list[..i];
    AppendAssoc(s.events + [Listed], BatchEvents(done), [FetchFailed(list[i].index)]);
    AppendAssoc(s.events, [Listed], BatchEvents(done));
    AppendAssoc(s.events, [Listed] + BatchEvents(done), [FetchFailed(list[i].index)]);
  }

  /**
   * A `NewOnly` batch on a server where every message is read finds nothing to do: it
   * completes and leaves the store and the listing as they were.
   */
  lemma EmptyBatch(s: SyncState, messages: map<nat, Mail>)
    requires forall k :: 0 <= k < |s.infos| ==> s.infos[k].read
    ensures var r := FetchBatch(s, Unread(s.infos), messages);
      r.outcome == Completed && r.state.emails == s.emails && r.state.infos == s.infos
      && r.state.events == s.events + [Listed]
  {
    AllReadNoneUnread(s.infos);
    var list: seq<MailInfo> := [];
    assert list[..0] == [];
    assert [Listed] + [] + [] == [Listed];
  }
}
