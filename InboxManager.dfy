/**
 * EmailInboxManager: the configured connection, the `Emails` store, and the three
 * operations that drive the mail client (fetch the unread batch, refresh, monitor).
 */
module InboxManager {
  import opened Wrappers
  import opened EmailModel
  import opened MailLibrary
  import opened Cancellation
  import opened Trace
  import opened Fetcher
  import opened Scheduler

  /** How long one `WaitNewEmail` may block, in seconds. */
  const TimeoutSeconds: nat := 60

  /** The well-known IMAP4 port (RFC 3501). */
  const ImapPort: nat := 143

  /** The IMAP4 port for implicit TLS (section 3.2 of RFC 8314). */
  const ImapsPort: nat := 993

  /**
   * The server configuration the constructor builds. A null argument (`None`) is rejected
   * with the name of the first null one, in the order the constructor checks them.
   */
  function NewMailServer(server: Option<string>, email: Option<string>, password: Option<string>,
                         useSsl: bool := false): (r: Result<MailServer, string>)
    ensures r.Err? <==> server.None? || email.None? || password.None?
    ensures server.None? ==> r == Err("server")
    ensures server.Some? && email.None? ==> r == Err("email")
    ensures server.Some? && email.Some? && password.None? ==> r == Err("password")
    ensures r.Ok? ==>
      && r.value.host == server.value && r.value.user == email.value && r.value.password == password.value
      && r.value.protocol == Imap4
      && r.value.sslConnection == useSsl
      && (r.value.port == ImapsPort <==> useSsl)
      && (r.value.port == ImapPort <==> !useSsl)
  {
    if server.None? then Err("server")
    else if email.None? then Err("email")
    else if password.None? then Err("password")
    else Ok(MailServer(server.value, email.value, password.value, Imap4, useSsl,
                       if useSsl then ImapsPort else ImapPort))
  }

  class EmailInboxManager {
    const server: MailServer
    const client: MailClient
    /** `Emails`: every email stored so far, in the order it was retrieved. */
    var emails: seq<Email>
    /** The observable steps taken so far, oldest first. */
    ghost var events: seq<Event>

    constructor (server: MailServer, client: MailClient)
      ensures this.server == server && this.client == client
      ensures emails == [] && events == []
    {
      this.server := server;
      this.client := client;
      emails := [];
      events := [];
    }

    /** The public constructor: validate the arguments, configure the server, start empty. */
    static method Create(server: Option<string>, email: Option<string>, password: Option<string>,
                         client: MailClient, useSsl: bool := false)
      returns (r: Result<EmailInboxManager, string>)
      ensures var config := NewMailServer(server, email, password, useSsl);
        && (r.Err? <==> config.Err?)
        && (r.Err? ==> r.error == config.error)
        && (r.Ok? ==> fresh(r.value) && r.value.server == config.value && r.value.client == client
                      && r.value.emails == [] && r.value.events == [])
    {
      var config := NewMailServer(server, email, password, useSsl);
      if config.Err? {
        r := Err(config.error);
      } else {
        var manager := new EmailInboxManager(config.value, client);
        r := Ok(manager);
      }
    }

    /** The part of the state that the manager's operations change. */
    ghost function Current(): SyncState
      reads this, client
    {
      SyncState(emails, client.infos, events)
    }

    /** `ReceiveUnreadMailAsync`: one fetch batch over the unread summaries the client lists. */
    method ReceiveUnreadMail() returns (outcome: Outcome)
      requires client.connected
      modifies this`emails, this`events, client`infos, client`infosOption
      ensures var b := FetchBatch(old(Current()), Unread(old(client.infos)), client.messages);
        Current() == b.state && outcome == b.outcome
      ensures client.infosOption == NewOnly
    {
      client.ResetMailInfosParam();
      client.SetMailInfosOption(NewOnly);
      var infos := client.GetMailInfos();
      outcome := FetchListed(infos);
    }

    /** The `for` loop of `ReceiveUnreadMailAsync` over the summaries `infos` that were listed. */
    method FetchListed(infos: seq<MailInfo>) returns (outcome: Outcome)
      requires client.connected
      modifies this`emails, this`events, client`infos
      ensures var b := FetchBatch(old(Current()), infos, client.messages);
        Current() == b.state && outcome == b.outcome
    {
      ghost var start := Current();
      events := events + [Listed];
      var i := 0;
      while i < |infos|
        invariant i <= FetchablePrefix(infos, client.messages)
        invariant Current() == Processed(start, infos, client.messages, i)
      {
        var info := infos[i];
        var mail := client.GetMail(info);
        if mail.None? {
          events := events + [FetchFailed(info.index)];
          outcome := FetchError(info.index);
          BatchFails(start, infos, client.messages, i);
          return;
        }
        StoreRetrieved(info, mail.value);
        i := i + 1;
      }
      BatchCompletes(start, infos, client.messages);
      outcome := Completed;
    }

    /** The body of that loop for a retrieved message: store its email, then mark it read if it was unread. */
    method StoreRetrieved(info: MailInfo, mail: Mail)
      requires client.connected
      modifies this`emails, this`events, client`infos
      ensures Current() == StoreStep(old(Current()), info, mail)
    {
      emails := emails + [ToEmail(mail)];
      events := events + [Stored(info.index)];
      if !info.read {
        client.MarkAsRead(info, true);
        events := events + [MarkedRead(info.index)];
      }
    }

    /** `RefreshMailAsync`: re-read the listing; the store and the listing stay as they are. */
    method RefreshMail()
      requires client.connected
      modifies this`events
      ensures Current() == old(Current()).(events := old(events) + [Refreshed])
    {
      client.RefreshMailInfos();
      var _ := client.GetMailInfos();
      events := events + [Refreshed];
    }

    /**
     * The body of the monitor loop after a poll that read "not cancelled": wait; on a
     * signal refresh and fetch the unread mail, otherwise cancel the wait.
     */
    method WaitAndFetch() returns (outcome: Outcome)
      requires client.connected
      modifies this`emails, this`events, client`infos, client`wakeups, client`infosOption
      ensures var r := WaitStep(old(Current()), client.messages, old(client.wakeups));
        Current() == r.state && client.wakeups == r.wakeups && outcome == r.outcome
      ensures client.connected
      ensures client.infosOption == old(client.infosOption) || client.infosOption == NewOnly
    {
      ghost var s := Current();
      var signal := client.WaitNewEmail(TimeoutSeconds);
      events := events + [Waited(signal)];
      ghost var w := AwaitMail(s.infos, old(client.wakeups));
      assert Current() == SyncState(s.emails, w.infos, s.events + [Waited(w.signal)]);
      if signal {
        RefreshMail();
        outcome := ReceiveUnreadMail();
      } else {
        client.CancelWaitEmail();
        events := events + [WaitCancelled];
        outcome := Completed;
      }
    }

    /**
     * `MonitorNewEmailAsync`: connect, refresh, then poll the token, wait, and fetch on
     * every signal until a poll reads "cancelled"; then log out. A failed retrieval ends
     * the run at once, still connected.
     */
    method MonitorNewEmail(token: CancellationToken) returns (outcome: Outcome)
      modifies this`emails, this`events, client`connected, client`infos, client`wakeups, client`infosOption, token
      ensures var r := MonitorRun(old(Current()), client.acceptsLogin, client.messages,
                                  old(client.wakeups), old(token.checksBeforeCancel));
        Current() == r.state && client.wakeups == r.wakeups && outcome == r.outcome
      ensures client.connected <==> outcome.FetchError?
      // the token is polled only while connected, and a completed run has seen the cancellation
      ensures outcome == ConnectFailed ==> token.checksBeforeCancel == old(token.checksBeforeCancel)
      ensures token.checksBeforeCancel <= old(token.checksBeforeCancel)
      ensures outcome == Completed ==> token.checksBeforeCancel == 0
      // the listing option is switched to `NewOnly` only by a fetch, and never otherwise
      ensures outcome == ConnectFailed ==> client.infosOption == old(client.infosOption)
      ensures client.infosOption == old(client.infosOption) || client.infosOption == NewOnly
    {
      ghost var start := Current();
      ghost var run := MonitorRun(start, client.acceptsLogin, client.messages, client.wakeups,
                                  token.checksBeforeCancel);
      var ok := client.Connect(server);
      if !ok {
        outcome := ConnectFailed;
        return;
      }
      events := events + [Connected];
      RefreshMail();
      AppendAssoc(start.events, [Connected], [Refreshed]);
      assert [Connected] + [Refreshed] == [Connected, Refreshed];
      while true
        invariant client.connected
        invariant token.checksBeforeCancel <= old(token.checksBeforeCancel)
        invariant client.infosOption == old(client.infosOption) || client.infosOption == NewOnly
        invariant Cycles(Current(), client.messages, client.wakeups, token.checksBeforeCancel) == run
        decreases token.checksBeforeCancel
      {
        ghost var before := Current();
        ghost var checks := token.checksBeforeCancel;
        ghost var script := client.wakeups;
        var cancelled := token.IsCancellationRequested();
        if cancelled {
          events := events + [CancelChecked(true)];
          AppendAssoc(before.events, [CancelChecked(true)], [LoggedOut]);
          assert [CancelChecked(true)] + [LoggedOut] == [CancelChecked(true), LoggedOut];
          break;
        }
        CyclesUnfold(before, client.messages, script, checks);
        events := events + [CancelChecked(false)];
        outcome := WaitAndFetch();
        if outcome.FetchError? {
          return;
        }
      }
      client.Logout();
      events := events + [LoggedOut];
      outcome := Completed;
    }
  }
}
