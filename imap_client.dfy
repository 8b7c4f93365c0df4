/** `ExchangeImapService`: its configuration, its connection state machine (the memoised
    `connectionPromise` and the mailbox library's connection state), and the operations that
    first connect and then talk to the server. The server's replies are parameters: the model
    decides nothing about the network, and records what the client does with each reply. */
module ImapClient {
  import opened Wrappers
  import opened Text
  import opened EmailTypes
  import opened ImapFolders
  import opened ImapSearch
  import opened ImapFetch

  const DefaultHost := "mail.rwth-aachen.de"
  const DefaultPortText := "993"
  const DefaultFolder := "INBOX"

  // ---------------------------------------------------------------------------
  // Configuration
  // ---------------------------------------------------------------------------

  /** The environment variables the constructor reads; an unset variable is `None`. */
  datatype Env = Env(
    exchangeServer: Option<string>,
    exchangePortImap: Option<string>,
    exchangeUsername: Option<string>,
    exchangeKey: Option<string>)

  /** The connection settings; a `port` of `None` is the `NaN` that `parseInt` gives for text
      without leading digits. */
  datatype Config = Config(host: string, port: Option<int>, username: string, password: string, tls: bool, rejectUnauthorized: bool)

  /** What `getServerInfo` returns. */
  datatype ServerInfo = ServerInfo(host: string, port: Option<int>, username: string)

  predicate IsDigit(c: char) {
    '0' <= c <= '9'
  }

  /** The longest prefix of decimal digits. */
  function DigitPrefix(s: string): (r: string)
    ensures |r| <= |s| && r == s[..|r|]
    ensures forall k :: 0 <= k < |r| ==> IsDigit(r[k])
    ensures |r| < |s| ==> !IsDigit(s[|r|])
  {
    if s == [] || !IsDigit(s[0]) then "" else [s[0]] + DigitPrefix(s[1..])
  }

  /** `parseInt(s)` in base ten: leading white space, an optional sign, then the longest run of
      digits; no digits is `NaN`. */
  function ParseInt(s: string): (r: Option<int>)
    ensures r.None? <==> DigitPrefix(UnsignedPart(TrimStart(s))) == ""
  {
    var t := TrimStart(s);
    var digits := DigitPrefix(UnsignedPart(t));
    if digits == "" then None
    else
      var value: int := DigitsValue(digits);
      if |t| > 0 && t[0] == '-' then Some(-value) else Some(value)
  }

  function UnsignedPart(t: string): string {
    if |t| > 0 && (t[0] == '-' || t[0] == '+') then t[1..] else t
  }

  /** The decimal text of a natural number reads back as that number. */
  lemma ParseIntOfNat(n: nat)
    ensures ParseInt(NatToString(n)) == Some(n)
  {
    var s := NatToString(n);
    DigitNotSpace(s[0]);
    assert TrimStart(s) == s;
    assert UnsignedPart(s) == s;
    DigitPrefixAll(s);
    DigitsValueOfNat(n);
  }

  lemma DigitNotSpace(c: char)
    requires IsDigit(c)
    ensures !IsJsSpace(c) && c != '-' && c != '+'
  {
  }

  lemma {:induction false} DigitPrefixAll(s: string)
    requires forall k :: 0 <= k < |s| ==> IsDigit(s[k])
    ensures DigitPrefix(s) == s
    decreases |s|
  {
    if s != [] {
      DigitPrefixAll(s[1..]);
    }
  }

  /** The constructor's configuration: each variable, or its default when unset or empty. */
  function ConfigFromEnv(env: Env): (c: Config)
    ensures c.host == OrElse(env.exchangeServer, DefaultHost)
    ensures c.port == ParseInt(OrElse(env.exchangePortImap, DefaultPortText))
    ensures c.username == OrElse(env.exchangeUsername, "") && c.password == OrElse(env.exchangeKey, "")
    ensures c.tls && !c.rejectUnauthorized
  {
    Config(OrElse(env.exchangeServer, DefaultHost), ParseInt(OrElse(env.exchangePortImap, DefaultPortText)),
           OrElse(env.exchangeUsername, ""), OrElse(env.exchangeKey, ""), true, false)
  }

  /** With nothing set, the service talks TLS to `mail.rwth-aachen.de` on port 993. */
  lemma DefaultConfig()
    ensures ConfigFromEnv(Env(None, None, None, None)).host == DefaultHost
    ensures ConfigFromEnv(Env(None, None, None, None)).port == Some(993)
    ensures ConfigFromEnv(Env(Some(""), Some(""), None, None)) == ConfigFromEnv(Env(None, None, None, None))
  {
    assert NatToString(993) == DefaultPortText by {
      assert NatToString(99) == "99" by {
        assert NatToString(9) == "9";
      }
    }
    ParseIntOfNat(993);
  }

  // ---------------------------------------------------------------------------
  // The connection state machine
  // ---------------------------------------------------------------------------

  /** The mailbox library's connection state, as far as the service reads it. */
  /** `Connected` is the library's state while the socket is up but login has not finished; the
      library enters it on its own, so no step of the service leads there, but `disconnect()`
      treats it like `Authenticated`. */
  datatype ImapState = Disconnected | Connected | Authenticated

  /** The abstract connection: the memoised promise (by the number of the attempt that made it,
      `None` for `null`), how many times `imap.connect()` was called, the library's state, and how
      many times `imap.end()` was called. */
  datatype Connection = Connection(promise: Option<nat>, attempts: nat, state: ImapState, endCalls: nat)

  const Initial := Connection(None, 0, Disconnected, 0)

  /** `connect()`: the pending or settled promise when there is one; otherwise a new promise
      for a new attempt, and `imap.connect()` is called. */
  function ConnectStep(c: Connection): (r: Connection)
    ensures r.promise.Some?
    ensures c.promise.Some? ==> r == c
    ensures c.promise.None? ==> r == c.(promise := Some(c.attempts), attempts := c.attempts + 1)
  {
    if c.promise.Some? then c else c.(promise := Some(c.attempts), attempts := c.attempts + 1)
  }

  /** The `ready` event: the library is authenticated and the promise resolves. */
  function ReadyStep(c: Connection): (r: Connection)
    ensures r == c.(state := Authenticated)
  {
    c.(state := Authenticated)
  }

  /** The `error` event: the promise is forgotten (and rejects). */
  function ErrorStep(c: Connection): (r: Connection)
    ensures r == c.(promise := None)
  {
    c.(promise := None)
  }

  /** The `end` event: the promise is forgotten and the library is disconnected. */
  function EndStep(c: Connection): (r: Connection)
    ensures r == c.(promise := None, state := Disconnected)
  {
    c.(promise := None, state := Disconnected)
  }

  /** `disconnect()`: `imap.end()` only when not already disconnected. */
  function DisconnectStep(c: Connection): (r: Connection)
    ensures c.state != Disconnected ==> r == c.(endCalls := c.endCalls + 1)
    ensures c.state == Disconnected ==> r == c
  {
    if c.state != Disconnected then c.(endCalls := c.endCalls + 1) else c
  }

  /** `await this.connect()` seen from the caller: `connect()` rejects only through the `error`
      event, which has already forgotten the promise, so a failed connect also takes the
      error step. */
  function AwaitConnect(c: Connection, failed: bool): (r: Connection)
    ensures r.attempts == ConnectStep(c).attempts && r.state == c.state && r.endCalls == c.endCalls
    ensures failed <==> r.promise.None?
    ensures !failed ==> r == ConnectStep(c)
  {
    if failed then ErrorStep(ConnectStep(c)) else ConnectStep(c)
  }

  /** After a failed connect the next one starts a fresh attempt; after a successful one it
      starts nothing. */
  lemma RetryAfterFailedConnect(c: Connection)
    ensures ConnectStep(AwaitConnect(c, true)).attempts == ConnectStep(c).attempts + 1
    ensures ConnectStep(AwaitConnect(c, false)).attempts == ConnectStep(c).attempts
  {
  }

  /** A second `connect()` returns the same promise and starts no new attempt. */
  lemma ConnectMemoised(c: Connection)
    ensures ConnectStep(ConnectStep(c)) == ConnectStep(c)
    ensures ConnectStep(c).attempts <= c.attempts + 1
  {
  }

  /** Every promise the service holds came from an attempt already started. */
  predicate WellFormed(c: Connection) {
    c.promise.Some? ==> c.promise.value < c.attempts
  }

  /** Every step keeps the connection well formed, starting from the initial one. */
  lemma StepsKeepWellFormed(c: Connection)
    requires WellFormed(c)
    ensures WellFormed(Initial)
    ensures WellFormed(ConnectStep(c)) && WellFormed(ReadyStep(c)) && WellFormed(ErrorStep(c))
    ensures WellFormed(EndStep(c)) && WellFormed(DisconnectStep(c))
  {
  }

  /** After an `error` or an `end`, the next `connect()` starts a fresh attempt with a new promise. */
  lemma ReconnectAfterFailure(c: Connection)
    requires WellFormed(c)
    ensures ConnectStep(ErrorStep(ConnectStep(c))).attempts == ConnectStep(c).attempts + 1
    ensures ConnectStep(ErrorStep(ConnectStep(c))).promise != ConnectStep(c).promise
    ensures ConnectStep(EndStep(ConnectStep(c))).attempts == ConnectStep(c).attempts + 1
    ensures ConnectStep(EndStep(ConnectStep(c))).promise != ConnectStep(c).promise
  {
  }

  /** `ready` does not touch the promise: connecting afterwards starts nothing. */
  lemma ConnectAfterReady(c: Connection)
    ensures ConnectStep(ReadyStep(ConnectStep(c))).attempts == ConnectStep(c).attempts
  {
  }

  /** A second `disconnect()` after the connection ended calls `end()` no more. */
  lemma DisconnectOnceEnded(c: Connection)
    ensures DisconnectStep(EndStep(c)).endCalls == c.endCalls
    ensures DisconnectStep(ReadyStep(c)).endCalls == c.endCalls + 1
  {
  }

  // ---------------------------------------------------------------------------
  // Flags on the server
  // ---------------------------------------------------------------------------

  /** The flags of each message in the open mailbox, by uid. */
  type Mailbox = map<int, set<string>>

  /** `addFlags(uid, flag)` as the server applies it; a uid it does not hold is left alone. */
  function AddFlag(m: Mailbox, uid: int, flag: string): (r: Mailbox)
    ensures r.Keys == m.Keys
    ensures uid in m ==> r[uid] == m[uid] + {flag}
    ensures forall u :: u in m && u != uid ==> r[u] == m[u]
  {
    if uid in m then m[uid := m[uid] + {flag}] else m
  }

  /** `delFlags(uid, flag)` as the server applies it. */
  function RemoveFlag(m: Mailbox, uid: int, flag: string): (r: Mailbox)
    ensures r.Keys == m.Keys
    ensures uid in m ==> r[uid] == m[uid] - {flag}
    ensures forall u :: u in m && u != uid ==> r[u] == m[u]
  {
    if uid in m then m[uid := m[uid] - {flag}] else m
  }

  /** Marking read and then unread leaves the message unread with its other flags as before. */
  lemma ReadThenUnread(m: Mailbox, uid: int)
    requires uid in m
    ensures SEEN !in RemoveFlag(AddFlag(m, uid, SEEN), uid, SEEN)[uid]
    ensures RemoveFlag(AddFlag(m, uid, SEEN), uid, SEEN)[uid] == m[uid] - {SEEN}
  {
  }

  /** Deleting is a soft delete: the message stays, flagged `\Deleted`. */
  lemma SoftDelete(m: Mailbox, uid: int)
    requires uid in m
    ensures uid in AddFlag(m, uid, DELETED) && DELETED in AddFlag(m, uid, DELETED)[uid]
    ensures AddFlag(AddFlag(m, uid, DELETED), uid, DELETED) == AddFlag(m, uid, DELETED)
  {
  }

  // ---------------------------------------------------------------------------
  // Server replies
  // ---------------------------------------------------------------------------

  /** How each flag operation ends: `connect()` rejects, the server refuses (for instance a
      mailbox opened read-only), or the server applies it. */
  datatype OpReply = OpConnectFailed(connectError: Thrown) | OpRefused(serverError: Thrown) | OpApplied

  function OutcomeOf(reply: OpReply): (o: Outcome)
    ensures o.Pass? <==> reply.OpApplied?
    ensures reply.OpConnectFailed? ==> o == Fail(reply.connectError)
    ensures reply.OpRefused? ==> o == Fail(reply.serverError)
  {
    match reply
    case OpConnectFailed(e) => Fail(e)
    case OpRefused(e) => Fail(e)
    case OpApplied => Pass
  }

  /** How `getBoxes` ends: `connect()` rejects, the server errs, or it returns the box tree. */
  datatype ListReply = ListConnectFailed(connectError: Thrown) | ListRefused(serverError: Thrown) | BoxTree(entries: seq<BoxEntry>)

  /** How a fetch ends, stage by stage. */
  datatype FetchReply =
    | FetchConnectFailed(connectError: Thrown)
    | OpenBoxFailed(openError: Thrown)
    | SearchFailed(searchError: Thrown)
    | NoMatches
    | FetchStreamFailed(fetchError: Thrown)
    | FetchEnded(delivered: seq<Delivered>)

  /** `openBox(folder, true)`: the folder asked for, read-only. */
  datatype BoxRequest = BoxRequest(folder: string, readOnly: bool)

  // ---------------------------------------------------------------------------
  // The service object
  // ---------------------------------------------------------------------------

  class ExchangeImapService {
    const config: Config
    var connectionPromise: Option<nat>
    var attempts: nat
    var imapState: ImapState
    var endCalls: nat
    var mailbox: Mailbox

    function Model(): Connection
      reads this
    {
      Connection(connectionPromise, attempts, imapState, endCalls)
    }

    /** A new service reads its configuration from the environment and is not connected;
        `mailbox` is what the server holds. */
    constructor (env: Env, server: Mailbox)
      ensures config == ConfigFromEnv(env)
      ensures Model() == Initial && mailbox == server
    {
      config := ConfigFromEnv(env);
      connectionPromise := None;
      attempts := 0;
      imapState := Disconnected;
      endCalls := 0;
      mailbox := server;
    }

    method Connect() returns (promise: nat)
      modifies this
      ensures Model() == ConnectStep(old(Model())) && Some(promise) == connectionPromise
      ensures mailbox == old(mailbox)
    {
      if connectionPromise.Some? {
        return connectionPromise.value;
      }
      connectionPromise := Some(attempts);
      attempts := attempts + 1;
      promise := connectionPromise.value;
    }

    method OnReady()
      modifies this
      ensures Model() == ReadyStep(old(Model())) && mailbox == old(mailbox)
    {
      imapState := Authenticated;
    }

    method OnError()
      modifies this
      ensures Model() == ErrorStep(old(Model())) && mailbox == old(mailbox)
    {
      connectionPromise := None;
    }

    method OnEnd()
      modifies this
      ensures Model() == EndStep(old(Model())) && mailbox == old(mailbox)
    {
      connectionPromise := None;
      imapState := Disconnected;
    }

    /** `disconnect()` never rejects. */
    method Disconnect() returns (o: Outcome)
      modifies this
      ensures o == Pass
      ensures Model() == DisconnectStep(old(Model())) && mailbox == old(mailbox)
    {
      if imapState != Disconnected {
        endCalls := endCalls + 1;
      }
      o := Pass;
    }

    function IsConnected(): (r: bool)
      reads this
      ensures r <==> imapState == Authenticated
    {
      imapState == Authenticated
    }

    /** Host, port and user name; there is no field for the password. */
    function GetServerInfo(): (info: ServerInfo)
      ensures info.host == config.host && info.port == config.port && info.username == config.username
    {
      ServerInfo(config.host, config.port, config.username)
    }

    method MarkAsRead(uid: int, reply: OpReply) returns (o: Outcome)
      modifies this
      ensures Model() == AwaitConnect(old(Model()), reply.OpConnectFailed?) && o == OutcomeOf(reply)
      ensures mailbox == if reply.OpApplied? then AddFlag(old(mailbox), uid, SEEN) else old(mailbox)
    {
      var _ := Connect();
      if reply.OpConnectFailed? {
        OnError();
      }
      o := OutcomeOf(reply);
      if reply.OpApplied? {
        mailbox := AddFlag(mailbox, uid, SEEN);
      }
    }

    method MarkAsUnread(uid: int, reply: OpReply) returns (o: Outcome)
      modifies this
      ensures Model() == AwaitConnect(old(Model()), reply.OpConnectFailed?) && o == OutcomeOf(reply)
      ensures mailbox == if reply.OpApplied? then RemoveFlag(old(mailbox), uid, SEEN) else old(mailbox)
    {
      var _ := Connect();
      if reply.OpConnectFailed? {
        OnError();
      }
      o := OutcomeOf(reply);
      if reply.OpApplied? {
        mailbox := RemoveFlag(mailbox, uid, SEEN);
      }
    }

    method DeleteEmail(uid: int, reply: OpReply) returns (o: Outcome)
      modifies this
      ensures Model() == AwaitConnect(old(Model()), reply.OpConnectFailed?) && o == OutcomeOf(reply)
      ensures mailbox == if reply.OpApplied? then AddFlag(old(mailbox), uid, DELETED) else old(mailbox)
    {
      var _ := Connect();
      if reply.OpConnectFailed? {
        OnError();
      }
      o := OutcomeOf(reply);
      if reply.OpApplied? {
        mailbox := AddFlag(mailbox, uid, DELETED);
      }
    }

    /** `listFolders()`: the flattened box tree, or the error. */
    method ListFolders(reply: ListReply) returns (r: Result<seq<EmailFolder>>)
      modifies this
      ensures Model() == AwaitConnect(old(Model()), reply.ListConnectFailed?) && mailbox == old(mailbox)
      ensures reply.ListConnectFailed? ==> r == Err(reply.connectError)
      ensures reply.ListRefused? ==> r == Err(reply.serverError)
      ensures reply.BoxTree? ==> r == Ok(ParseBoxes(reply.entries, ""))
    {
      var _ := Connect();
      match reply {
        case ListConnectFailed(e) => OnError(); r := Err(e);
        case ListRefused(e) => r := Err(e);
        case BoxTree(entries) => r := Ok(ParseBoxes(entries, ""));
      }
    }

    /** `fetchEmails(options)`: connect, open the folder read-only, search, fetch, then settle,
        sort and page. `boxRequest` and `criteria` are what was sent to the server, when it got
        that far. `now` stands for `new Date()`, `oneMonthAgo` for the date a month earlier. */
    method FetchEmails(options: EmailFetchOptions, reply: FetchReply, now: int, oneMonthAgo: int)
      returns (r: Result<seq<EmailMessage>>, boxRequest: Option<BoxRequest>, criteria: Option<seq<Criterion>>)
      modifies this
      ensures Model() == AwaitConnect(old(Model()), reply.FetchConnectFailed?) && mailbox == old(mailbox)
      ensures reply.FetchConnectFailed? <==> boxRequest.None?
      ensures boxRequest.Some? ==> boxRequest.value == BoxRequest(OrElse(options.folder, DefaultFolder), true)
      ensures criteria.Some? <==> !reply.FetchConnectFailed? && !reply.OpenBoxFailed?
      ensures criteria.Some? ==> CriteriaFor(options, criteria.value)
      ensures reply.FetchConnectFailed? ==> r == Err(reply.connectError)
      ensures reply.OpenBoxFailed? ==> r == Err(reply.openError)
      ensures reply.SearchFailed? ==> r == Err(reply.searchError)
      ensures reply.NoMatches? ==> r == Ok([])
      ensures reply.FetchStreamFailed? ==> r == Err(reply.fetchError)
      ensures reply.FetchEnded? ==>
        (r.Err? <==> exists k :: 0 <= k < |reply.delivered| && Rejected(reply.delivered[k]))
      ensures reply.FetchEnded? && r.Err? ==>
        exists k :: 0 <= k < |reply.delivered| && reply.delivered[k].outcome == Parsed(Err(r.thrown))
      ensures reply.FetchEnded? && r.Ok? ==> exists emails: seq<EmailMessage> ::
        && |emails| == |reply.delivered|
        && (forall k :: 0 <= k < |emails| ==> emails[k] == Resolved(reply.delivered[k], now))
        && r.value == Paginate(SortByDate(emails), options)
    {
      var _ := Connect();
      boxRequest, criteria := None, None;
      if reply.FetchConnectFailed? {
        OnError();
        return Err(reply.connectError), boxRequest, criteria;
      }
      var folder := OrElse(options.folder, DefaultFolder);
      boxRequest := Some(BoxRequest(folder, true));
      if reply.OpenBoxFailed? {
        return Err(reply.openError), boxRequest, criteria;
      }
      var searchCriteria := BuildSearchCriteria(options, oneMonthAgo);
      criteria := Some(searchCriteria);
      match reply {
        case SearchFailed(e) => r := Err(e);
        case NoMatches => r := Ok([]);
        case FetchStreamFailed(e) => r := Err(e);
        case FetchEnded(delivered) => r := CompleteFetch(delivered, options, now);
      }
    }
  }
}
