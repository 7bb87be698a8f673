/**
 * The parts of the EAGetMail library that EmailInboxManager.cs calls, modelled as an
 * in-memory mailbox. Nothing of the IMAP4 protocol is modelled: each call is stated
 * by its effect on that mailbox.
 */
module MailLibrary {
  import opened Wrappers

  datatype ServerProtocol = Pop3 | Imap4

  /** `MailServer`: where and how to connect, fixed once the manager has built it. */
  datatype MailServer = MailServer(
    host: string,
    user: string,
    password: string,
    protocol: ServerProtocol,
    sslConnection: bool,
    port: nat)

  /** An address as the library's `MailAddress.ToString()` renders it. */
  datatype MailAddress = MailAddress(text: string)

  /** A fully retrieved message (`Mail`), with the fields the manager reads. */
  datatype Mail = Mail(
    from: MailAddress,
    to: seq<MailAddress>,
    cc: seq<MailAddress>,
    subject: string,
    textBody: string,
    htmlBody: string)

  /** `MailInfo`: a summary handle, its message index and its server read flag. */
  datatype MailInfo = MailInfo(index: nat, read: bool)

  /** What the server does during one `WaitNewEmail`: nothing, or some messages arrive. */
  datatype Wakeup = Timeout | Arrival(arrived: seq<MailInfo>)

  /** The listing after `MarkAsRead(info, flag)`: every summary of that message takes the flag. */
  function SetRead(infos: seq<MailInfo>, index: nat, flag: bool): (r: seq<MailInfo>)
    ensures |r| == |infos|
    ensures forall k :: 0 <= k < |r| ==>
      r[k].index == infos[k].index
      && r[k].read == (if infos[k].index == index then flag else infos[k].read)
  {
    if infos == [] then []
    else
      var head := if infos[0].index == index then infos[0].(read := flag) else infos[0];
      [head] + SetRead(infos[1..], index, flag)
  }

  /** The summaries of a listing whose message is unread, in listing order. */
  function Unread(infos: seq<MailInfo>): (r: seq<MailInfo>)
    ensures |r| <= |infos|
    ensures forall k :: 0 <= k < |r| ==> !r[k].read
  {
    if infos == [] then []
    else
      var last := infos[|infos| - 1];
      Unread(infos[..|infos| - 1]) + (if !last.read then [last] else [])
  }

  /** A summary is listed as unread exactly when it is in the listing and unread. */
  lemma {:induction false} UnreadMembers(infos: seq<MailInfo>)
    ensures forall x :: x in Unread(infos) <==> x in infos && !x.read
    decreases |infos|
  {
    if infos != [] {
      var init, last := infos[..|infos| - 1], infos[|infos| - 1];
      UnreadMembers(init);
      assert infos == init + [last];
    }
  }

  /** The unread summaries of two listings put together are those of each, in order. */
  lemma {:induction false} UnreadConcat(a: seq<MailInfo>, b: seq<MailInfo>)
    ensures Unread(a + b) == Unread(a) + Unread(b)
    decreases |b|
  {
    if b == [] {
      assert a + b == a;
    } else {
      var b', last := b[..|b| - 1], b[|b| - 1];
      UnreadConcat(a, b');
      assert (a + b)[..|a + b| - 1] == a + b';
      assert (a + b)[|a + b| - 1] == last;
      var x, y, z := Unread(a), Unread(b'), if !last.read then [last] else [];
      assert (x + y) + z == x + (y + z);
    }
  }

  /** `GetMailInfosOptionType`: list every summary, or only those of unread messages. */
  datatype InfosOption = AllMail | NewOnly

  /** What `GetMailInfos` returns for a listing under the option in force. */
  function Listing(infos: seq<MailInfo>, option: InfosOption): seq<MailInfo>
  {
    if option == AllMail then infos else Unread(infos)
  }

  /** Result of one wait on a listing: whether a signal came, the new listing, the rest of the script. */
  datatype WaitResult = WaitResult(signal: bool, infos: seq<MailInfo>, wakeups: seq<Wakeup>)

  /**
   * `WaitNewEmail`: the next scripted server event decides the outcome; once the script
   * is used up no more mail arrives and every wait times out.
   */
  function AwaitMail(infos: seq<MailInfo>, wakeups: seq<Wakeup>): (r: WaitResult)
    ensures r.signal <==> wakeups != [] && wakeups[0].Arrival?
    ensures r.wakeups == if wakeups == [] then [] else wakeups[1..]
    ensures r.infos == if r.signal then infos + wakeups[0].arrived else infos
  {
    if wakeups == [] then WaitResult(false, infos, [])
    else match wakeups[0]
      case Timeout => WaitResult(false, infos, wakeups[1..])
      case Arrival(arrived) => WaitResult(true, infos + arrived, wakeups[1..])
  }

  /** `MailClient`, with the mailbox it talks to. */
  class MailClient {
    /** Whether the server accepts the configured credentials; `Connect` fails otherwise. */
    const acceptsLogin: bool
    /** The messages the server holds, by index. */
    const messages: map<nat, Mail>
    var connected: bool
    /** The server's current listing, with read flags. */
    var infos: seq<MailInfo>
    /** `GetMailInfosParam.GetMailInfosOptions`: which summaries `GetMailInfos` lists. */
    var infosOption: InfosOption
    /** The server events that the coming waits will observe, in order. */
    var wakeups: seq<Wakeup>

    constructor (acceptsLogin: bool, messages: map<nat, Mail>, infos: seq<MailInfo>, wakeups: seq<Wakeup>)
      ensures this.acceptsLogin == acceptsLogin && this.messages == messages
      ensures this.infos == infos && this.wakeups == wakeups && !connected
      ensures infosOption == AllMail
    {
      infosOption := AllMail;
      this.acceptsLogin := acceptsLogin;
      this.messages := messages;
      this.infos := infos;
      this.wakeups := wakeups;
      connected := false;
    }

    method Connect(server: MailServer) returns (ok: bool)
      modifies this`connected
      ensures ok == acceptsLogin && connected == ok
    {
      ok := acceptsLogin;
      connected := ok;
    }

    /** `RefreshMailInfos`: re-reads the server's summaries; the in-memory mailbox is already current. */
    method RefreshMailInfos()
      requires connected
    {
    }

    /** `GetMailInfosParam.Reset()`: back to listing every summary. */
    method ResetMailInfosParam()
      modifies this`infosOption
      ensures infosOption == AllMail
    {
      infosOption := AllMail;
    }

    /** Assigning `GetMailInfosParam.GetMailInfosOptions`. */
    method SetMailInfosOption(option: InfosOption)
      modifies this`infosOption
      ensures infosOption == option
    {
      infosOption := option;
    }

    method GetMailInfos() returns (r: seq<MailInfo>)
      requires connected
      ensures r == Listing(infos, infosOption)
    {
      r := Listing(infos, infosOption);
    }

    /** `GetMail`: `None` stands for the library's failure to retrieve a message the server no longer holds. */
    method GetMail(info: MailInfo) returns (r: Option<Mail>)
      requires connected
      ensures r.Some? <==> info.index in messages
      ensures r.Some? ==> r.value == messages[info.index]
    {
      r := if info.index in messages then Some(messages[info.index]) else None;
    }

    method MarkAsRead(info: MailInfo, flag: bool)
      requires connected
      modifies this`infos
      ensures infos == SetRead(old(infos), info.index, flag)
    {
      infos := SetRead(infos, info.index, flag);
    }

    method WaitNewEmail(timeoutSeconds: nat) returns (signal: bool)
      requires connected
      modifies this`infos, this`wakeups
      ensures AwaitMail(old(infos), old(wakeups)) == WaitResult(signal, infos, wakeups)
    {
      var w := AwaitMail(infos, wakeups);
      signal, infos, wakeups := w.signal, w.infos, w.wakeups;
    }

    method CancelWaitEmail()
      requires connected
    {
    }

    method Logout()
      requires connected
      modifies this`connected
      ensures !connected
    {
      connected := false;
    }
  }
}

/** The .NET cancellation token that the monitor loop polls. */
module Cancellation {

  /**
   * A token whose cancellation becomes visible after a fixed, unknown number of polls
   * and then stays visible, like a `CancellationTokenSource` cancelled once from outside.
   */
  class CancellationToken {
    /** How many more polls read "not cancelled". */
    var checksBeforeCancel: nat

    constructor (checksBeforeCancel: nat)
      ensures this.checksBeforeCancel == checksBeforeCancel
    {
      this.checksBeforeCancel := checksBeforeCancel;
    }

    method IsCancellationRequested() returns (requested: bool)
      modifies this
      ensures requested <==> old(checksBeforeCancel) == 0
      ensures checksBeforeCancel == if requested then 0 else old(checksBeforeCancel) - 1
    {
      requested := checksBeforeCancel == 0;
      if !requested {
        checksBeforeCancel := checksBeforeCancel - 1;
      }
    }
  }
}
