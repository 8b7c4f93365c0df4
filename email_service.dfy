/** `EmailService` (app/lib/email/email-service.ts): the facade that turns each client call's
    outcome into an envelope with empty defaults and an error text, and the lazily built
    singleton. The client calls are given by their outcome: `Ok`/`Pass` when the promise
    resolved, the thrown value when it rejected. */
module EmailServiceFacade {
  import opened Wrappers
  import opened EmailTypes
  import opened ImapClient
  import opened ImapFetch

  const UnknownError := "Unknown error occurred"

  /** `error instanceof Error ? error.message : 'Unknown error occurred'`. */
  function ErrorMessage(t: Thrown): (m: string)
    ensures t.JsError? ==> m == t.message
    ensures t.NonError? ==> m == UnknownError
  {
    match t
    case JsError(message) => message
    case NonError => UnknownError
  }

  datatype EmailsEnvelope = EmailsEnvelope(emails: seq<EmailMessage>, total: int, error: Option<string>)
  datatype FoldersEnvelope = FoldersEnvelope(folders: seq<EmailFolder>, error: Option<string>)
  datatype StatusEnvelope = StatusEnvelope(success: bool, error: Option<string>)
  datatype ConnectionStatus = ConnectionStatus(connected: bool, serverInfo: ServerInfo)

  /** `getEmails`: the messages and their count, or nothing and the error. */
  function EmailsEnvelopeOf(r: Result<seq<EmailMessage>>): (e: EmailsEnvelope)
    ensures e.error.None? <==> r.Ok?
    ensures r.Ok? ==> e.emails == r.value && e.total == |r.value|
    ensures r.Err? ==> e.emails == [] && e.total == 0 && e.error == Some(ErrorMessage(r.thrown))
  {
    match r
    case Ok(emails) => EmailsEnvelope(emails, |emails|, None)
    case Err(t) => EmailsEnvelope([], 0, Some(ErrorMessage(t)))
  }

  /** `getFolders`. */
  function FoldersEnvelopeOf(r: Result<seq<EmailFolder>>): (e: FoldersEnvelope)
    ensures e.error.None? <==> r.Ok?
    ensures r.Ok? ==> e.folders == r.value
    ensures r.Err? ==> e.folders == [] && e.error == Some(ErrorMessage(r.thrown))
  {
    match r
    case Ok(folders) => FoldersEnvelope(folders, None)
    case Err(t) => FoldersEnvelope([], Some(ErrorMessage(t)))
  }

  /** `markAsRead`, `markAsUnread`, `deleteEmail` and `testConnection`. */
  function StatusEnvelopeOf(o: Outcome): (e: StatusEnvelope)
    ensures e.success <==> o.Pass?
    ensures e.error.None? <==> e.success
    ensures o.Fail? ==> e.error == Some(ErrorMessage(o.thrown))
  {
    match o
    case Pass => StatusEnvelope(true, None)
    case Fail(t) => StatusEnvelope(false, Some(ErrorMessage(t)))
  }

  /** The envelope is consistent whatever the client did: the count is the number of messages,
      and an error comes with no messages. */
  lemma EmailsEnvelopeConsistent(r: Result<seq<EmailMessage>>)
    ensures EmailsEnvelopeOf(r).total == |EmailsEnvelopeOf(r).emails|
    ensures EmailsEnvelopeOf(r).error.Some? ==> EmailsEnvelopeOf(r).emails == []
  {
  }

  /** The error text is empty only for an `Error` whose own message is empty; every other
      failure carries a non-empty text. */
  lemma ErrorTextNonEmpty(t: Thrown)
    ensures ErrorMessage(t) == "" <==> t == JsError("")
  {
  }

  /** The envelope loses nothing on success: the client's list can be read back from it. */
  lemma EnvelopeRoundTrip(r: Result<seq<EmailMessage>>, f: Result<seq<EmailFolder>>)
    requires r.Ok? && f.Ok?
    ensures EmailsEnvelopeOf(r).error.None? && Ok(EmailsEnvelopeOf(r).emails) == r
    ensures FoldersEnvelopeOf(f).error.None? && Ok(FoldersEnvelopeOf(f).folders) == f
  {
  }

  /** The facade over one client. */
  class EmailService {
    const imapService: ExchangeImapService

    constructor (env: Env, server: Mailbox)
      ensures fresh(imapService) && imapService.config == ConfigFromEnv(env)
      ensures imapService.Model() == Initial && imapService.mailbox == server
    {
      imapService := new ExchangeImapService(env, server);
    }

    /** `getEmails`: the client's fetch, then its envelope. */
    method GetEmails(options: EmailFetchOptions, reply: FetchReply, now: int, oneMonthAgo: int) returns (e: EmailsEnvelope)
      modifies imapService
      ensures imapService.Model() == AwaitConnect(old(imapService.Model()), reply.FetchConnectFailed?) && imapService.mailbox == old(imapService.mailbox)
      ensures e.total == |e.emails|
      ensures e.error.Some? ==> e.emails == []
      ensures reply.NoMatches? ==> e == EmailsEnvelope([], 0, None)
      ensures reply.FetchConnectFailed? ==> e == EmailsEnvelopeOf(Err(reply.connectError))
      ensures reply.OpenBoxFailed? ==> e == EmailsEnvelopeOf(Err(reply.openError))
      ensures reply.SearchFailed? ==> e == EmailsEnvelopeOf(Err(reply.searchError))
      ensures reply.FetchStreamFailed? ==> e == EmailsEnvelopeOf(Err(reply.fetchError))
      ensures reply.FetchEnded? ==>
        (e.error.Some? <==> exists k :: 0 <= k < |reply.delivered| && Rejected(reply.delivered[k]))
      ensures reply.FetchEnded? && e.error.Some? ==> exists k ::
        && 0 <= k < |reply.delivered|
        && reply.delivered[k].outcome.Parsed? && reply.delivered[k].outcome.result.Err?
        && e == EmailsEnvelopeOf(Err(reply.delivered[k].outcome.result.thrown))
      ensures reply.FetchEnded? && e.error.None? ==> exists emails: seq<EmailMessage> ::
        && |emails| == |reply.delivered|
        && (forall k :: 0 <= k < |emails| ==> emails[k] == Resolved(reply.delivered[k], now))
        && e.emails == Paginate(SortByDate(emails), options)
    {
      var r, _, _ := imapService.FetchEmails(options, reply, now, oneMonthAgo);
      e := EmailsEnvelopeOf(r);
      if reply.FetchEnded? && r.Err? {
        var k :| 0 <= k < |reply.delivered| && reply.delivered[k].outcome == Parsed(Err(r.thrown));
        assert reply.delivered[k].outcome.result.thrown == r.thrown;
      }
    }

    /** `getFolders`. */
    method GetFolders(reply: ListReply) returns (e: FoldersEnvelope)
      modifies imapService
      ensures imapService.Model() == AwaitConnect(old(imapService.Model()), reply.ListConnectFailed?) && imapService.mailbox == old(imapService.mailbox)
      ensures reply.BoxTree? ==> e == FoldersEnvelope(ImapFolders.ParseBoxes(reply.entries, ""), None)
      ensures reply.ListConnectFailed? ==> e == FoldersEnvelope([], Some(ErrorMessage(reply.connectError)))
      ensures reply.ListRefused? ==> e == FoldersEnvelope([], Some(ErrorMessage(reply.serverError)))
    {
      var r := imapService.ListFolders(reply);
      e := FoldersEnvelopeOf(r);
    }

    /** `markAsRead`. */
    method MarkAsRead(uid: int, reply: OpReply) returns (e: StatusEnvelope)
      modifies imapService
      ensures imapService.Model() == AwaitConnect(old(imapService.Model()), reply.OpConnectFailed?)
      ensures e == StatusEnvelopeOf(OutcomeOf(reply)) && (e.success <==> reply.OpApplied?)
      ensures imapService.mailbox == if e.success then AddFlag(old(imapService.mailbox), uid, EmailTypes.SEEN) else old(imapService.mailbox)
    {
      var o := imapService.MarkAsRead(uid, reply);
      e := StatusEnvelopeOf(o);
    }

    /** `markAsUnread`. */
    method MarkAsUnread(uid: int, reply: OpReply) returns (e: StatusEnvelope)
      modifies imapService
      ensures imapService.Model() == AwaitConnect(old(imapService.Model()), reply.OpConnectFailed?)
      ensures e == StatusEnvelopeOf(OutcomeOf(reply)) && (e.success <==> reply.OpApplied?)
      ensures imapService.mailbox == if e.success then RemoveFlag(old(imapService.mailbox), uid, EmailTypes.SEEN) else old(imapService.mailbox)
    {
      var o := imapService.MarkAsUnread(uid, reply);
      e := StatusEnvelopeOf(o);
    }

    /** `deleteEmail`. */
    method DeleteEmail(uid: int, reply: OpReply) returns (e: StatusEnvelope)
      modifies imapService
      ensures imapService.Model() == AwaitConnect(old(imapService.Model()), reply.OpConnectFailed?)
      ensures e == StatusEnvelopeOf(OutcomeOf(reply)) && (e.success <==> reply.OpApplied?)
      ensures imapService.mailbox == if e.success then AddFlag(old(imapService.mailbox), uid, EmailTypes.DELETED) else old(imapService.mailbox)
    {
      var o := imapService.DeleteEmail(uid, reply);
      e := StatusEnvelopeOf(o);
    }

    /** `getConnectionStatus`: the client's own answers. */
    function GetConnectionStatus(): (s: ConnectionStatus)
      reads this, imapService
      ensures s.connected <==> imapService.imapState == Authenticated
      ensures s.serverInfo == imapService.GetServerInfo()
    {
      ConnectionStatus(imapService.IsConnected(), imapService.GetServerInfo())
    }

    /** `testConnection`: `connect()`, whose promise settles as `settled` says. */
    method TestConnection(settled: Outcome) returns (e: StatusEnvelope)
      modifies imapService
      ensures imapService.Model() == AwaitConnect(old(imapService.Model()), settled.Fail?) && imapService.mailbox == old(imapService.mailbox)
      ensures e == StatusEnvelopeOf(settled)
    {
      var _ := imapService.Connect();
      if settled.Fail? {
        imapService.OnError();
      }
      e := StatusEnvelopeOf(settled);
    }

    /** `disconnect`: whatever happens, nothing is thrown. */
    method Disconnect() returns (o: Outcome)
      modifies imapService
      ensures o == Pass
      ensures imapService.Model() == DisconnectStep(old(imapService.Model())) && imapService.mailbox == old(imapService.mailbox)
    {
      var _ := imapService.Disconnect();
      o := Pass;
    }
  }

  /** The static `EmailService.instance` and `getInstance`; `constructions` counts how many
      services were ever built. */
  class ServiceRegistry {
    var instance: EmailService?
    var constructions: nat

    predicate Valid()
      reads this
    {
      (instance == null <==> constructions == 0) && constructions <= 1
    }

    constructor ()
      ensures instance == null && constructions == 0 && Valid()
    {
      instance := null;
      constructions := 0;
    }

    /** `getInstance`: builds the service on the first call only, and always returns the one
        instance. */
    method GetInstance(env: Env, server: Mailbox) returns (s: EmailService)
      requires Valid()
      modifies this
      ensures Valid() && instance == s && constructions == 1
      ensures old(instance) != null ==> s == old(instance)
      ensures old(instance) == null ==> fresh(s) && s.imapService.config == ConfigFromEnv(env)
    {
      if instance == null {
        instance := new EmailService(env, server);
        constructions := constructions + 1;
      }
      s := instance;
    }
  }
}
