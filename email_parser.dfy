/** `EmailParser.parseEmail` and `parseEmailFromHeaderObject`: turning a fetched message
    (header part, text part, attributes) into an `EmailMessage`.

    The raw message is JavaScript `any`; the datatypes below give it the shapes the parser
    distinguishes, and nothing finer: a value is falsy, an array, an object, a string, or
    something else, exactly where the code tests `typeof`, `Array.isArray` or truthiness. */
module EmailParser {
  import opened Wrappers
  import opened Text
  import opened EmailTypes
  import opened EmailBody

  const HeaderSection := "HEADER.FIELDS (FROM TO SUBJECT DATE)"
  const TextSection := "TEXT"
  const NoSubject := "(No Subject)"
  const UnknownAddress := "unknown@example.com"
  const UnknownName := "Unknown"
  const NoContent := "No content available"
  const ParseFailurePrefix := "Failed to parse email: "
  /** The message of the `TypeError` raised by reading a property of `null`/`undefined` or by
      iterating a non-iterable value. Its exact wording belongs to the JavaScript engine. */
  const TypeErrorText := "TypeError"

  // ---------------------------------------------------------------------------
  // The shapes of the raw message
  // ---------------------------------------------------------------------------

  /** An address object of a header array; a property that is absent is `None`. */
  datatype AddressObject = AddressObject(
    address: Option<string>,
    mailbox: Option<string>,
    host: Option<string>,
    name: Option<string>,
    personal: Option<string>)

  /** An element of a `from`/`to`/`cc`/`bcc` array: a string, a non-null object, or anything
      else (`null`, `undefined`, a number, a boolean). */
  datatype AddressItem = AddressText(text: string) | AddressRecord(obj: AddressObject) | OtherItem

  /** A header property: falsy (absent, `null`, `""`, `0`), an array, or a truthy non-array. */
  datatype HeaderField<T> = Missing | ArrayOf(items: seq<T>) | NotArray

  /** The header object; `subject` and `date` hold strings (`None` for a non-string element). */
  datatype HeaderObject = HeaderObject(
    subject: HeaderField<Option<string>>,
    date: HeaderField<Option<string>>,
    from: HeaderField<AddressItem>,
    to: HeaderField<AddressItem>,
    cc: HeaderField<AddressItem>,
    bcc: HeaderField<AddressItem>)

  /** `{}`. An array in the place of the header object reads the same: every property is absent. */
  const EmptyHeader := HeaderObject(Missing, Missing, Missing, Missing, Missing, Missing)

  /** `headerData`: an object, or `null`, which `typeof` also calls an object. */
  datatype HeaderValue = HeaderNull | HeaderObj(fields: HeaderObject)

  /** The `body` of a part or of the message: a string, an object, `null`, or anything else. */
  datatype BodyValue = BodyText(text: string) | BodyObject(header: HeaderObject) | BodyNull | BodyOther

  /** An element of `parts`: `null`/`undefined`, or an object with `which` and `body`. A string
      iterated as `parts` yields characters, whose `which` is absent: `Part(None, BodyOther)`. */
  datatype Part = NullishPart | Part(which: Option<string>, body: BodyValue)

  /** `rawEmail.parts`: falsy, iterable, or truthy and not iterable (a number, an object). */
  datatype PartsValue = PartsFalsy | PartsArray(parts: seq<Part>) | PartsNotIterable

  /** `rawEmail.attributes?.flags`: absent, an array of strings, or a truthy non-array. */
  datatype FlagsValue = FlagsMissing | FlagsArray(flags: seq<string>) | FlagsNotArray

  /** The raw message: `null`/`undefined`, or a value with these properties. */
  datatype RawEmail = RawNullish | RawEmail(parts: PartsValue, body: BodyValue, seqNo: Option<int>, flags: FlagsValue)

  /** What `parseEmailFromHeaderObject` returns, and the fallback record that replaces it. */
  datatype EmailData = EmailData(
    subject: string,
    from: EmailAddress,
    to: seq<EmailAddress>,
    cc: seq<EmailAddress>,
    bcc: seq<EmailAddress>,
    date: int,
    text: string,
    html: string)

  // ---------------------------------------------------------------------------
  // hasFlag
  // ---------------------------------------------------------------------------

  /** `hasFlag`: false unless the flags are an array, and then membership. */
  function HasFlag(flags: FlagsValue, flag: string): (r: bool)
    ensures r <==> flags.FlagsArray? && exists k :: 0 <= k < |flags.flags| && flags.flags[k] == flag
  {
    flags.FlagsArray? && flag in flags.flags
  }

  /** The flag list a message records: the array, or `[]` when the flags are absent. */
  function FlagList(flags: FlagsValue): (r: seq<string>)
    ensures flags.FlagsArray? ==> r == flags.flags
    ensures !flags.FlagsArray? ==> r == []
  {
    if flags.FlagsArray? then flags.flags else []
  }

  // ---------------------------------------------------------------------------
  // Part selection
  // ---------------------------------------------------------------------------

  predicate IsSection(p: Part, w: string) {
    p.Part? && p.which == Some(w)
  }

  /** The index of the last part whose `which` is `w`. */
  function LastWith(parts: seq<Part>, w: string): (r: Option<nat>)
    ensures r.Some? ==> r.value < |parts| && IsSection(parts[r.value], w)
    ensures r.Some? ==> forall j :: r.value < j < |parts| ==> !IsSection(parts[j], w)
    ensures r.None? ==> forall j :: 0 <= j < |parts| ==> !IsSection(parts[j], w)
    decreases |parts|
  {
    if parts == [] then None
    else if IsSection(parts[|parts| - 1], w) then Some(|parts| - 1)
    else LastWith(parts[..|parts| - 1], w)
  }

  lemma LastWithStep(parts: seq<Part>, i: nat, w: string)
    requires i < |parts|
    ensures LastWith(parts[..i + 1], w) == if IsSection(parts[i], w) then Some(i) else LastWith(parts[..i], w)
  {
    assert parts[..i + 1][..i] == parts[..i];
  }

  /** `typeof part.body === 'object' ? part.body : {}`. */
  function HeaderOfBody(b: BodyValue): HeaderValue {
    match b
    case BodyObject(h) => HeaderObj(h)
    case BodyNull => HeaderNull
    case _ => HeaderObj(EmptyHeader)
  }

  /** `typeof body === 'string' ? body : ''`. */
  function TextOfBody(b: BodyValue): string {
    if b.BodyText? then b.text else ""
  }

  /** The header data the loop ends with: that of the last header part, or `{}`. */
  function HeaderFromParts(parts: seq<Part>): HeaderValue {
    match LastWith(parts, HeaderSection)
    case Some(k) => HeaderOfBody(parts[k].body)
    case None => HeaderObj(EmptyHeader)
  }

  /** The body the loop ends with: that of the last `TEXT` part, or `''`. */
  function BodyFromParts(parts: seq<Part>): string {
    match LastWith(parts, TextSection)
    case Some(k) => TextOfBody(parts[k].body)
    case None => ""
  }

  /** The header data `parseEmail` hands on. */
  function SelectedHeader(raw: RawEmail): HeaderValue
    requires raw.RawEmail?
  {
    if raw.parts.PartsArray? then HeaderFromParts(raw.parts.parts) else HeaderObj(EmptyHeader)
  }

  /** The body `parseEmail` hands on: from the parts when `parts` is truthy (even `[]`),
      else the message's own string `body`. */
  function SelectedBody(raw: RawEmail): string
    requires raw.RawEmail?
  {
    if raw.parts.PartsArray? then BodyFromParts(raw.parts.parts) else TextOfBody(raw.body)
  }

  /** When `parseEmail` gets past its part loop: the message is neither `null` nor `undefined`
      (so `Object.keys` does not throw), `parts` can be iterated, and every part can have
      `which` read. A number, string or boolean message gets this far, with no `parts` and no
      `body`. */
  predicate Parsable(raw: RawEmail) {
    && raw.RawEmail?
    && !raw.parts.PartsNotIterable?
    && (raw.parts.PartsArray? ==> forall j :: 0 <= j < |raw.parts.parts| ==> raw.parts.parts[j].Part?)
  }

  // ---------------------------------------------------------------------------
  // Address mapping
  // ---------------------------------------------------------------------------

  /** The object branch of the address mapping as written:
      `addr.address || addr.mailbox + '@' + addr.host || 'unknown@example.com'`. Because `+`
      binds tighter than `||`, the middle operand is always a non-empty string and an absent
      `mailbox` or `host` prints as `undefined`. */
  function ObjectAddressAsWritten(o: AddressObject): (r: string)
    ensures !Truthy(o.address) ==> r == ConcatText(o.mailbox) + "@" + ConcatText(o.host)
    ensures Truthy(o.address) ==> r == o.address.value
  {
    var joined := ConcatText(o.mailbox) + "@" + ConcatText(o.host);
    if Truthy(o.address) then o.address.value
    else if joined != "" then joined
    else UnknownAddress
  }

  /** An object with no properties gets the address `undefined@undefined`. */
  lemma EmptyObjectAddressAsWritten()
    ensures ObjectAddressAsWritten(AddressObject(None, None, None, None, None)) == "undefined@undefined"
  {
  }

  /** The default of the as-written mapping is never reached. */
  lemma AsWrittenDefaultUnreached(o: AddressObject)
    ensures !Truthy(o.address) ==> '@' in ObjectAddressAsWritten(o)
  {
    if !Truthy(o.address) {
      var joined := ConcatText(o.mailbox) + "@" + ConcatText(o.host);
      assert joined[|ConcatText(o.mailbox)|] == '@';
    }
  }

  /** The intended object address: `address`, else `mailbox@host` when both are present,
      else the default. */
  function ObjectAddress(o: AddressObject): (r: string)
    ensures Truthy(o.address) ==> r == o.address.value
    ensures !Truthy(o.address) && Truthy(o.mailbox) && Truthy(o.host) ==> r == o.mailbox.value + "@" + o.host.value
    ensures !Truthy(o.address) && !(Truthy(o.mailbox) && Truthy(o.host)) ==> r == UnknownAddress
  {
    if Truthy(o.address) then o.address.value
    else if Truthy(o.mailbox) && Truthy(o.host) then o.mailbox.value + "@" + o.host.value
    else UnknownAddress
  }

  /** The corrected address is never empty and is made only of text the object supplies,
      or is the default. */
  lemma ObjectAddressFromParts(o: AddressObject)
    ensures ObjectAddress(o) != ""
    ensures || (o.address.Some? && ObjectAddress(o) == o.address.value)
            || (o.mailbox.Some? && o.host.Some? && ObjectAddress(o) == o.mailbox.value + "@" + o.host.value)
            || ObjectAddress(o) == UnknownAddress
    ensures ObjectAddress(AddressObject(None, None, None, None, None)) == UnknownAddress
  {
  }

  /** `addr.name || addr.personal || addr.mailbox || 'Unknown'`. */
  function ObjectName(o: AddressObject): (r: string)
    ensures r != ""
    ensures Truthy(o.name) ==> r == o.name.value
    ensures !Truthy(o.name) && Truthy(o.personal) ==> r == o.personal.value
    ensures !Truthy(o.name) && !Truthy(o.personal) && Truthy(o.mailbox) ==> r == o.mailbox.value
    ensures !Truthy(o.name) && !Truthy(o.personal) && !Truthy(o.mailbox) ==> r == UnknownName
  {
    OrElse(o.name, OrElse(o.personal, OrElse(o.mailbox, UnknownName)))
  }

  /** The mapping applied to each element of an address array, with the object address as
      the code writes it. A string keeps itself and is named by its text before `@`; an object
      gets the as-written address, which contains `@` when there is no `address`, and the name
      `name || personal || mailbox || 'Unknown'`; anything else gets the default address and no
      name. */
  function MapAddress(item: AddressItem): (r: EmailAddress)
    ensures item.AddressText? ==> r.address == item.text && r.name.Some? && '@' !in r.name.value
    ensures item.AddressRecord? ==> r == EmailAddress(ObjectAddressAsWritten(item.obj), Some(ObjectName(item.obj)))
    ensures item.AddressRecord? ==> r.name.Some? && r.name.value != ""
    ensures item.AddressRecord? && Truthy(item.obj.address) ==> r.address == item.obj.address.value
    ensures item.AddressRecord? && !Truthy(item.obj.address) ==> '@' in r.address
    ensures item.OtherItem? ==> r == EmailAddress(UnknownAddress, None)
  {
    match item
    case AddressText(s) => SplitFirst(s, '@'); EmailAddress(s, Some(Split(s, '@')[0]))
    case AddressRecord(o) => AsWrittenDefaultUnreached(o); EmailAddress(ObjectAddressAsWritten(o), Some(ObjectName(o)))
    case OtherItem => EmailAddress(UnknownAddress, None)
  }

  /** The mapping with the intended object address in place of the as-written one. */
  function MapAddressIntended(item: AddressItem): (r: EmailAddress)
    ensures item.AddressRecord? ==> r.address == ObjectAddress(item.obj) && r.address != ""
    ensures item.AddressRecord? ==> r.name == Some(ObjectName(item.obj))
    ensures !item.AddressRecord? ==> r == MapAddress(item)
  {
    match item
    case AddressRecord(o) => ObjectAddressFromParts(o); EmailAddress(ObjectAddress(o), Some(ObjectName(o)))
    case _ => MapAddress(item)
  }

  /** The two mappings agree except on an object that has neither an `address` nor both a
      `mailbox` and a `host`; there the code yields text such as `joe@undefined` where the
      default `unknown@example.com` was meant. */
  lemma MappingsAgree(item: AddressItem)
    ensures MapAddressIntended(item).name == MapAddress(item).name
    ensures (item.AddressRecord? && !Truthy(item.obj.address) && !(Truthy(item.obj.mailbox) && Truthy(item.obj.host)))
            || MapAddressIntended(item) == MapAddress(item)
    ensures var joe := AddressRecord(AddressObject(None, Some("joe"), None, None, None));
            MapAddress(joe).address == "joe@undefined" && MapAddressIntended(joe).address == UnknownAddress
  {
    if item.AddressRecord? && Truthy(item.obj.address) {
      assert MapAddress(item).address == item.obj.address.value;
    }
  }

  /** A string address keeps the whole string as address and takes as name the text before its
      first `@` (all of it when there is none). */
  lemma StringAddressName(s: string)
    ensures MapAddress(AddressText(s)) == EmailAddress(s, Some(Split(s, '@')[0]))
    ensures '@' !in Split(s, '@')[0]
    ensures |Split(s, '@')[0]| <= |s| && s[..|Split(s, '@')[0]|] == Split(s, '@')[0]
    ensures '@' in s ==> |Split(s, '@')[0]| < |s| && s[|Split(s, '@')[0]|] == '@'
    ensures '@' !in s ==> Split(s, '@')[0] == s
  {
    SplitFirst(s, '@');
  }

  /** `parseAddressArray(field || [])`: one address per element, in order, or `[]` when the
      field is not an array. */
  function ParseAddressArray(f: HeaderField<AddressItem>): (r: seq<EmailAddress>)
    ensures f.ArrayOf? ==> |r| == |f.items| && forall k :: 0 <= k < |r| ==> r[k] == MapAddress(f.items[k])
    ensures !f.ArrayOf? ==> r == []
  {
    if f.ArrayOf? then MapAddresses(f.items) else []
  }

  /** `items.map(...)` with the address mapping. */
  function MapAddresses(items: seq<AddressItem>): (r: seq<EmailAddress>)
    ensures |r| == |items| && forall k :: 0 <= k < |r| ==> r[k] == MapAddress(items[k])
  {
    if items == [] then [] else [MapAddress(items[0])] + MapAddresses(items[1..])
  }

  /** `parseAddressArray(headerData.from || [])[0] || { address: 'unknown@example.com' }`. */
  function FromOf(f: HeaderField<AddressItem>): (r: EmailAddress)
    ensures f.ArrayOf? && |f.items| > 0 ==> r == MapAddress(f.items[0])
    ensures !(f.ArrayOf? && |f.items| > 0) ==> r == EmailAddress(UnknownAddress, None)
  {
    var all := ParseAddressArray(f);
    if |all| > 0 then all[0] else EmailAddress(UnknownAddress, None)
  }

  // ---------------------------------------------------------------------------
  // Subject, date and text
  // ---------------------------------------------------------------------------

  /** The subject: the first element of a non-empty `subject` array when it is a non-empty
      string, else `(No Subject)`. */
  function SubjectOf(f: HeaderField<Option<string>>): (r: string)
    ensures r != ""
    ensures f.ArrayOf? && |f.items| > 0 && Truthy(f.items[0]) ==> r == f.items[0].value
    ensures !(f.ArrayOf? && |f.items| > 0 && Truthy(f.items[0])) ==> r == NoSubject
  {
    if f.ArrayOf? && |f.items| > 0 then OrElse(f.items[0], NoSubject) else NoSubject
  }

  /** The date: `new Date(date[0])` when the first element of a non-empty `date` array is a
      non-empty string, else the current time. `parseDate` stands for `new Date(s).getTime()`. */
  function DateOf(f: HeaderField<Option<string>>, now: int, parseDate: string -> int): (r: int)
    ensures f.ArrayOf? && |f.items| > 0 && Truthy(f.items[0]) ==> r == parseDate(f.items[0].value)
    ensures !(f.ArrayOf? && |f.items| > 0 && Truthy(f.items[0])) ==> r == now
  {
    if f.ArrayOf? && |f.items| > 0 && Truthy(f.items[0]) then parseDate(f.items[0].value) else now
  }

  /** The text content: quoted-printable decoding when the body looks encoded, then cleaning. */
  function MessageText(body: string): string {
    CleanedBody(if LooksQuotedPrintable(body) then DecodeQuotedPrintable(body) else body)
  }

  /** The record `parseEmailFromHeaderObject` returns for a header object. */
  function HeaderData(h: HeaderObject, body: string, now: int, parseDate: string -> int): (d: EmailData)
    ensures d.subject == SubjectOf(h.subject) && d.from == FromOf(h.from)
    ensures d.to == ParseAddressArray(h.to) && d.cc == ParseAddressArray(h.cc) && d.bcc == ParseAddressArray(h.bcc)
    ensures d.date == DateOf(h.date, now, parseDate) && d.text == MessageText(body) && d.html == ""
  {
    EmailData(SubjectOf(h.subject), FromOf(h.from), ParseAddressArray(h.to), ParseAddressArray(h.cc),
              ParseAddressArray(h.bcc), DateOf(h.date, now, parseDate), MessageText(body), "")
  }

  /** The fallback record built when `parseEmailFromHeaderObject` throws. */
  function Fallback(body: string, now: int): (d: EmailData)
    ensures d.subject == NoSubject && d.from == EmailAddress(UnknownAddress, None)
    ensures d.to == [] && d.cc == [] && d.bcc == [] && d.date == now && d.html == ""
    ensures d.text == if body != "" then body else NoContent
  {
    EmailData(NoSubject, EmailAddress(UnknownAddress, None), [], [], [], now, OrElse(Some(body), NoContent), "")
  }

  /** The text of a message is its cleaned body: tagless, trimmed, made of non-empty trimmed
      lines, and obtained by deleting characters from the (possibly decoded) body. */
  lemma MessageTextShape(body: string)
    ensures Tagless(MessageText(body)) && IsTrimmed(MessageText(body))
    ensures !LooksQuotedPrintable(body) ==> IsSubseq(MessageText(body), body)
    ensures LooksQuotedPrintable(body) ==> IsSubseq(MessageText(body), DecodeQuotedPrintable(body))
  {
    CleanedBodyShape(if LooksQuotedPrintable(body) then DecodeQuotedPrintable(body) else body);
  }

  /** `parseEmailFromHeaderObject`, reassigning `textContent`, `subject` and `date` as the
      source does. Reading a property of a `null` header throws. */
  method ParseEmailFromHeaderObject(header: HeaderValue, body: string, now: int, parseDate: string -> int)
    returns (r: Result<EmailData>)
    ensures header.HeaderNull? ==> r == Err(JsError(TypeErrorText))
    ensures header.HeaderObj? ==> r == Ok(HeaderData(header.fields, body, now, parseDate))
  {
    var textContent := body;
    if Contains(textContent, "=0A") || Contains(textContent, "=20") {
      textContent := DecodeQuotedPrintable(textContent);
    }
    textContent := CleanEmailBody(textContent);
    if header.HeaderNull? {
      return Err(JsError(TypeErrorText));
    }
    var h := header.fields;
    var subject := NoSubject;
    if h.subject.ArrayOf? && |h.subject.items| > 0 {
      subject := OrElse(h.subject.items[0], NoSubject);
    }
    var date := now;
    if h.date.ArrayOf? && |h.date.items| > 0 {
      var dateStr := h.date.items[0];
      if Truthy(dateStr) {
        date := parseDate(dateStr.value);
      }
    }
    r := Ok(EmailData(subject, FromOf(h.from), ParseAddressArray(h.to), ParseAddressArray(h.cc),
                      ParseAddressArray(h.bcc), date, textContent, ""));
  }

  // ---------------------------------------------------------------------------
  // parseEmail
  // ---------------------------------------------------------------------------

  /** The message `parseEmail` builds from the (possibly fallback) record `d`. */
  predicate Assembled(m: EmailMessage, d: EmailData, raw: RawEmail, now: int, random: string)
    requires raw.RawEmail?
  {
    && m.id == "msg_" + IntToString(now) + "_" + random
    && m.uid == raw.seqNo.GetOr(0)
    && m.subject == (if d.subject != "" then d.subject else NoSubject) && m.from == d.from
    && m.to == d.to && m.cc == Some(d.cc) && m.bcc == Some(d.bcc)
    && m.date == d.date
    && m.text == (if d.text != "" then Some(d.text) else None)
    && m.html == (if d.html != "" then Some(d.html) else None)
    && m.attachments == []
    && m.flags == FlagList(raw.flags)
    && m.isRead == HasFlag(raw.flags, SEEN)
    && m.isFlagged == HasFlag(raw.flags, FLAGGED)
    && m.isAnswered == HasFlag(raw.flags, ANSWERED)
    && m.isDeleted == HasFlag(raw.flags, DELETED)
  }

  /** The record `parseEmail` assembles from: the header data's record, or the fallback. */
  function DataOf(h: HeaderValue, body: string, now: int, parseDate: string -> int): EmailData {
    if h.HeaderObj? then HeaderData(h.fields, body, now, parseDate) else Fallback(body, now)
  }

  /** The `for (const part of rawEmail.parts)` loop: each header part replaces `headerData`,
      each `TEXT` part replaces `emailBody`; a `null` part throws when `which` is read. */
  method ScanParts(parts: seq<Part>) returns (ok: bool, headerData: HeaderValue, emailBody: string)
    ensures ok <==> forall j :: 0 <= j < |parts| ==> parts[j].Part?
    ensures ok ==> headerData == HeaderFromParts(parts) && emailBody == BodyFromParts(parts)
  {
    headerData := HeaderObj(EmptyHeader);
    emailBody := "";
    var i := 0;
    while i < |parts|
      invariant 0 <= i <= |parts|
      invariant forall j :: 0 <= j < i ==> parts[j].Part?
      invariant headerData == HeaderFromParts(parts[..i])
      invariant emailBody == BodyFromParts(parts[..i])
    {
      var part := parts[i];
      if part.NullishPart? {
        return false, headerData, emailBody;
      }
      LastWithStep(parts, i, HeaderSection);
      LastWithStep(parts, i, TextSection);
      if part.which == Some(HeaderSection) {
        headerData := HeaderOfBody(part.body);
      } else if part.which == Some(TextSection) {
        emailBody := TextOfBody(part.body);
      }
      i := i + 1;
    }
    assert parts[..i] == parts;
    ok := true;
  }

  /** The object `parseEmail` returns for the record `emailData`. */
  function Assemble(emailData: EmailData, raw: RawEmail, now: int, random: string): (m: EmailMessage)
    requires raw.RawEmail?
    ensures Assembled(m, emailData, raw, now, random)
  {
    EmailMessage(
      id := "msg_" + IntToString(now) + "_" + random,
      uid := raw.seqNo.GetOr(0),
      subject := OrElse(Some(emailData.subject), NoSubject),
      from := emailData.from,
      to := emailData.to,
      cc := Some(emailData.cc),
      bcc := Some(emailData.bcc),
      date := emailData.date,
      text := if emailData.text != "" then Some(emailData.text) else None,
      html := if emailData.html != "" then Some(emailData.html) else None,
      attachments := [],
      flags := FlagList(raw.flags),
      isRead := HasFlag(raw.flags, SEEN),
      isFlagged := HasFlag(raw.flags, FLAGGED),
      isAnswered := HasFlag(raw.flags, ANSWERED),
      isDeleted := HasFlag(raw.flags, DELETED))
  }

  /** `parseEmail`: scan the parts (a later part overrides an earlier one of the same kind),
      parse the header object, fall back to a basic record if that throws, and assemble the
      message. A `TypeError` anywhere rejects with `Failed to parse email: ...`. `now` stands for
      `Date.now()`/`new Date()`, `random` for the text of `Math.random()`. */
  method ParseEmail(raw: RawEmail, now: int, random: string, parseDate: string -> int) returns (r: Result<EmailMessage>)
    ensures r.Err? <==> !Parsable(raw)
    ensures r.Err? ==> r.thrown == JsError(ParseFailurePrefix + TypeErrorText)
    ensures r.Ok? ==> Assembled(r.value, DataOf(SelectedHeader(raw), SelectedBody(raw), now, parseDate), raw, now, random)
  {
    if raw.RawNullish? || raw.parts.PartsNotIterable? {
      return Err(JsError(ParseFailurePrefix + TypeErrorText));
    }
    var headerData, emailBody;
    if raw.parts.PartsArray? {
      var ok;
      ok, headerData, emailBody := ScanParts(raw.parts.parts);
      if !ok {
        return Err(JsError(ParseFailurePrefix + TypeErrorText));
      }
    } else {
      // `else if (rawEmail.body)`: a falsy body leaves `''`, as a non-string one does.
      headerData := HeaderObj(EmptyHeader);
      emailBody := TextOfBody(raw.body);
    }
    assert headerData == SelectedHeader(raw) && emailBody == SelectedBody(raw);
    var parsed := ParseEmailFromHeaderObject(headerData, emailBody, now, parseDate);
    var emailData := if parsed.Ok? then parsed.value else Fallback(emailBody, now);
    assert emailData == DataOf(headerData, emailBody, now, parseDate);
    return Ok(Assemble(emailData, raw, now, random));
  }

  // ---------------------------------------------------------------------------
  // Properties of the parse
  // ---------------------------------------------------------------------------

  /** The four booleans are membership of the four flags; without flags all are false. */
  lemma FlagStates(raw: RawEmail, m: EmailMessage, d: EmailData, now: int, random: string)
    requires raw.RawEmail? && Assembled(m, d, raw, now, random)
    ensures m.isRead <==> SEEN in m.flags
    ensures m.isFlagged <==> FLAGGED in m.flags
    ensures m.isAnswered <==> ANSWERED in m.flags
    ensures m.isDeleted <==> DELETED in m.flags
    ensures !raw.flags.FlagsArray? ==> m.flags == [] && !m.isRead && !m.isFlagged && !m.isAnswered && !m.isDeleted
  {
  }

  /** The subject of a parsed message is never empty; it is the header's first subject or
      `(No Subject)`. The sender is the first address or `unknown@example.com`. */
  lemma ParsedDefaults(h: HeaderObject, body: string, now: int, parseDate: string -> int)
    ensures HeaderData(h, body, now, parseDate).subject != ""
    ensures h.subject == Missing ==> HeaderData(h, body, now, parseDate).subject == NoSubject
    ensures h.subject == ArrayOf([]) ==> HeaderData(h, body, now, parseDate).subject == NoSubject
    ensures h.subject == ArrayOf([Some("")]) ==> HeaderData(h, body, now, parseDate).subject == NoSubject
    ensures !h.from.ArrayOf? ==> HeaderData(h, body, now, parseDate).from.address == UnknownAddress
    ensures h.date == Missing ==> HeaderData(h, body, now, parseDate).date == now
  {
  }

  /** `to`, `cc` and `bcc` keep the order and length of their arrays. */
  lemma AddressListsKeepShape(h: HeaderObject, body: string, now: int, parseDate: string -> int)
    ensures h.to.ArrayOf? ==> |HeaderData(h, body, now, parseDate).to| == |h.to.items|
    ensures h.cc.ArrayOf? ==> |HeaderData(h, body, now, parseDate).cc| == |h.cc.items|
    ensures h.bcc.ArrayOf? ==> |HeaderData(h, body, now, parseDate).bcc| == |h.bcc.items|
    ensures h.to.ArrayOf? ==> forall k :: 0 <= k < |h.to.items| ==>
      HeaderData(h, body, now, parseDate).to[k] == MapAddress(h.to.items[k])
  {
  }

  /** Of two header parts the later one wins; the body comes from the last `TEXT` part. */
  lemma LaterPartWins(a: BodyValue, b: BodyValue, t: string)
    ensures HeaderFromParts([Part(Some(HeaderSection), a), Part(Some(TextSection), BodyText(t)), Part(Some(HeaderSection), b)])
      == HeaderOfBody(b)
    ensures BodyFromParts([Part(Some(HeaderSection), a), Part(Some(TextSection), BodyText(t)), Part(Some(HeaderSection), b)])
      == t
  {
    var ps := [Part(Some(HeaderSection), a), Part(Some(TextSection), BodyText(t)), Part(Some(HeaderSection), b)];
    assert IsSection(ps[1], TextSection);
    assert !IsSection(ps[2], TextSection);
  }

  /** A message with an empty `parts` array gets an empty body even if it has a string `body`:
      `[]` is truthy, so the single-part branch is not taken. */
  lemma EmptyPartsIgnoreBody(s: string, seqNo: Option<int>, flags: FlagsValue)
    ensures SelectedBody(RawEmail(PartsArray([]), BodyText(s), seqNo, flags)) == ""
    ensures SelectedBody(RawEmail(PartsFalsy, BodyText(s), seqNo, flags)) == s
  {
  }

  /** A null header body makes the header parse throw, and the message is built from the
      fallback: subject `(No Subject)`, the raw body as text, no addresses. */
  lemma NullHeaderFallsBack(body: string, now: int, parseDate: string -> int)
    ensures DataOf(HeaderNull, body, now, parseDate) == Fallback(body, now)
    ensures DataOf(HeaderNull, body, now, parseDate).text == if body == "" then NoContent else body
  {
  }
}
