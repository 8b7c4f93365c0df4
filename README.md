# A verified model of the next-dashboard mail core

This project models, in Dafny, the parts of the next-dashboard application that carry real
behaviour:

- **Message parser** (`EmailParser`, `EmailBody`). It turns a message fetched over IMAP into an
  `EmailMessage`. It selects the header and text parts and maps address shapes to
  `{address, name}`. It decodes quoted-printable and cleans the body. It checks flags and
  builds the text shortcut and the 200-character preview.
- **Mailbox client** (`ImapFolders`, `ImapSearch`, `ImapFetch`, `ImapClient`). This is the
  `ExchangeImapService` class:
  - its configuration from the environment;
  - the memoised connection promise and the events that reset it;
  - `disconnect` and `isConnected`;
  - the flattening of the folder tree;
  - the search criteria;
  - settling, sorting (in place, on an array) and paginating a fetch;
  - the placeholder for a message that cannot be parsed;
  - the flag operations against a per-uid flag map of the server.
- **Client cache** (`Cache`). A class over a key/value store whose entries carry a timestamp.
  An entry expires lazily, when a read finds it too old.
- **Service facade** (`EmailServiceFacade`). It maps each client call's outcome to an envelope
  with empty defaults and an error text. It also holds the lazily built singleton.
- **Smart-mail classifier** (`SmartMail`). A keyword rule over subjects that builds the list of
  important messages and the suggested next steps.
- **Project filter** (`ProjectFilter`). The `filteredProjects` rule of the project grid.

`Wrappers` holds `Option`, `Result` and the thrown value. `Text` holds the JavaScript string
primitives the core uses (`trim`, `toLowerCase`, `includes`, `split`/`join`, number text) and
the subsequence relation. `EmailTypes` holds the message, folder and fetch-option records.
The file that declares these records, `app/lib/email/types.ts`, is not part of this model; their
fields follow their use in the core.

Code that updates state step by step is written as methods:
- the part loop of `parseEmail`;
- the reassignments in `parseEmailFromHeaderObject` and `cleanEmailBody`;
- the pushes of `buildSearchCriteria`;
- the `Promise.all` settling and the in-place sort;
- the classifier's loop;
- the service object, the cache and the singleton registry, as classes.

Each such method is proved against a specification function, and the properties are proved
about those functions. Pure expression code (`decodeQuotedPrintable`, `parseBoxes`, `hasFlag`,
the preview, the filter) is written as functions and lemmas.

Clocks, randomness and the network become parameters:
- `now` stands for `Date.now()` and `new Date()`;
- `random` stands for the text of `Math.random()`;
- `parseDate` stands for `new Date(s).getTime()`;
- `oneMonthAgo` is the fallback date;
- each network call is replaced by its reply: a `Thrown` value for a rejection, or the data
  returned.

## Model

| member | source | states |
|---|---|---|
| EmailParser.ParseEmail | app/lib/email/email-parser.ts:7-79 | Rejects, with `Failed to parse email: ` plus the error text, exactly when the message is `null` or `undefined`, `parts` cannot be iterated, or some part is `null` or `undefined`. A number, string or boolean message gets past `Object.keys` and resolves, with no parts and no body. Otherwise returns the message assembled from the header record, or from the fallback record when the header parse throws. |
| EmailParser.ScanParts | app/lib/email/email-parser.ts:17-28 | The part loop fails exactly when some part is `null`. Otherwise the header is the last header part's body and the text is the last `TEXT` part's string body. |
| EmailParser.LaterPartWins | app/lib/email/email-parser.ts:19-27 | Of two header parts the later one wins; the body comes from the `TEXT` part. |
| EmailParser.EmptyPartsIgnoreBody | app/lib/email/email-parser.ts:17-32 | An empty `parts` array is truthy, so a string `body` is ignored. Without `parts`, the string `body` is used. |
| EmailParser.Assemble | app/lib/email/email-parser.ts:57-74 | id `msg_<now>_<random>`; uid is `seqNo` or 0; an empty subject becomes `(No Subject)`; empty text or html becomes absent; no attachments; the flag list or `[]`; the four booleans are `hasFlag`. |
| EmailParser.FlagStates | app/lib/email/email-parser.ts:69-73 | `isRead`/`isFlagged`/`isAnswered`/`isDeleted` hold exactly when `\Seen`/`\Flagged`/`\Answered`/`\Deleted` is among the flags. Without a flags array all four are false and the list is empty. |
| EmailParser.HasFlag | app/lib/email/email-parser.ts:208-213 | False unless the flags are an array; then exact membership. |
| EmailParser.FlagList | app/lib/email/email-parser.ts:69 | The flags array, or `[]` when there is none. |
| EmailParser.ParseEmailFromHeaderObject | app/lib/email/email-parser.ts:84-157 | A `null` header throws a `TypeError`. An object gives the record of subject, sender, recipient lists, date, cleaned text and empty html. The addresses follow line 108 as written, so `{mailbox: 'joe'}` becomes `joe@undefined`. |
| EmailParser.HeaderData | app/lib/email/email-parser.ts:147-156 | Each field of the record is the corresponding rule applied to its header field; the addresses use the as-written object address of line 108. |
| EmailParser.Fallback | app/lib/email/email-parser.ts:45-54 | `(No Subject)`, sender `unknown@example.com`, no recipients, the current time, the body or `No content available`, empty html. |
| EmailParser.NullHeaderFallsBack | app/lib/email/email-parser.ts:40-55 | A `null` header leads to the fallback record, whose text is the raw body or `No content available`. |
| EmailParser.MessageTextShape | app/lib/email/email-parser.ts:117-126 | The message text is tagless and trimmed. It is obtained by deleting characters from the body, or from its decoding when the body contains `=0A` or `=20`. |
| EmailParser.SubjectOf | app/lib/email/email-parser.ts:129-132 | The first element of a non-empty subject array when it is a non-empty string, else `(No Subject)`; never empty. |
| EmailParser.DateOf | app/lib/email/email-parser.ts:135-145 | The parsed first element of a non-empty date array when it is a non-empty string, else the current time. |
| EmailParser.ParsedDefaults | app/lib/email/email-parser.ts:129-149 | The subject is never empty. A missing, empty or falsy subject gives `(No Subject)`. A non-array `from` gives `unknown@example.com`. A missing date gives the current time. |
| EmailParser.FromOf | app/lib/email/email-parser.ts:149 | The first address of a non-empty `from` array, mapped as the code writes it, else `unknown@example.com` with no name. |
| EmailParser.ParseAddressArray | app/lib/email/email-parser.ts:95-114 | A non-array field gives `[]`. An array gives one address per element, in order. |
| EmailParser.MapAddresses | app/lib/email/email-parser.ts:98-113 | Same length as the input, element `k` mapped from element `k`. |
| EmailParser.MapAddress | app/lib/email/email-parser.ts:98-113 | A string keeps itself as address and gets a name without `@`. An object gets the address of line 108 as written (`address` when truthy, else `mailbox + '@' + host`, which contains `@`) and the name `name \|\| personal \|\| mailbox \|\| 'Unknown'`, never empty. Anything else gets `unknown@example.com` and no name. |
| EmailParser.MapAddressIntended | app/lib/email/email-parser.ts:108 | The corrected mapping: an object's address is the intended, non-empty one and its name is `name \|\| personal \|\| mailbox \|\| 'Unknown'`; strings and other values map as before. |
| EmailParser.MappingsAgree | app/lib/email/email-parser.ts:108 | The two mappings give the same name always, and the same address unless the object lacks both an `address` and a full `mailbox`/`host` pair. `{mailbox: 'joe'}` gives `joe@undefined` as written and `unknown@example.com` as intended. |
| EmailParser.AddressListsKeepShape | app/lib/email/email-parser.ts:150-152 | `to`, `cc` and `bcc` keep the length and order of their arrays. |
| EmailParser.StringAddressName | app/lib/email/email-parser.ts:99-104 | A string address keeps the whole string. Its name is the text before the first `@`, which contains no `@`, or the whole string when there is no `@`. |
| EmailParser.ObjectName | app/lib/email/email-parser.ts:109 | `name`, else `personal`, else `mailbox`, else `Unknown`; never empty. |
| EmailParser.ObjectAddressAsWritten | app/lib/email/email-parser.ts:108 | The address as the expression is written: `address` when truthy, else `mailbox + '@' + host` with absent parts printed as `undefined`. |
| EmailParser.AsWrittenDefaultUnreached | app/lib/email/email-parser.ts:108 | Without an `address`, the as-written address always contains `@`, so its default is never reached. |
| EmailParser.EmptyObjectAddressAsWritten | app/lib/email/email-parser.ts:108 | An object with no properties gets `undefined@undefined`. |
| EmailParser.ObjectAddress | app/lib/email/email-parser.ts:108 | The intended address: `address`, else `mailbox@host` when both are present, else `unknown@example.com`. |
| EmailParser.ObjectAddressFromParts | app/lib/email/email-parser.ts:108 | The intended address is never empty; it is built only from text the object supplies, or is the default. |
| EmailBody.DecodeIsSinglePass | app/lib/email/email-parser.ts:162-175 | The four literal passes and the general `=XX` pass give the same text as one left-to-right decoding of the original, so the order of the passes never matters. |
| EmailBody.LiteralPassAbsorbed | app/lib/email/email-parser.ts:164-167 | A literal pass such as `=0A` to a line feed is invisible to the later general pass. |
| EmailBody.DecodeExample | app/lib/email/email-parser.ts:162-175 | `A=0AB=20C` decodes to `A`, line feed, `B C`. |
| EmailBody.EscapesExample | app/lib/email/email-parser.ts:168-174 | The general pass alone decodes `A=0AB=20C` the same way. |
| EmailBody.LowerCaseEscapeKept | app/lib/email/email-parser.ts:168 | `=0a` (lower-case hex) is left as it is. |
| EmailBody.DecodeWithoutEscapes | app/lib/email/email-parser.ts:162-175 | Text with no `=` followed by two upper-case hex digits is not changed. |
| EmailBody.DecodeEncode | app/lib/email/email-parser.ts:162-175 | Decoding inverts encoding every character below 256 as `=XX`. |
| EmailBody.HexDigit | app/lib/email/email-parser.ts:168-170 | Every value below 16 has an upper-case hex digit that reads back as it. |
| EmailBody.RemoveAllSubseq | app/lib/email/email-parser.ts:182-194 | Each `replace(/p/g, '')` of the cleaning only deletes characters. |
| EmailBody.RemoveTagsFromTagless | app/lib/email/email-parser.ts:194 | After removing `<[^>]*>` no `<` is followed later by a `>`. |
| EmailBody.TaglessMeans | app/lib/email/email-parser.ts:194 | Taglessness is exactly "no `<` before a `>`". |
| EmailBody.TaglessSubseq | app/lib/email/email-parser.ts:194-202 | Deleting characters from tagless text keeps it tagless, so the later steps keep the result tagless. |
| EmailBody.StripTags | app/lib/email/email-parser.ts:194 | The tag removal gives tagless text obtained by deleting characters. |
| EmailBody.TagAt | app/lib/email/email-parser.ts:194 | A `<` with no later `>` starts no match. |
| EmailBody.CloseAngle | app/lib/email/email-parser.ts:194 | The first `>` at or after a position, or the end. |
| EmailBody.KeepLinesShape | app/lib/email/email-parser.ts:198-200 | Every kept line is non-empty, trimmed and free of line feeds. |
| EmailBody.KeepLinesSubseq | app/lib/email/email-parser.ts:198-201 | Joining the kept lines only deletes characters of the joined input lines. |
| EmailBody.JoinOfTrimmedLines | app/lib/email/email-parser.ts:201-202 | A join of non-empty trimmed lines is trimmed, and non-empty when there is a line. |
| EmailBody.NormalizeLinesShape | app/lib/email/email-parser.ts:197-202 | The normalised text is trimmed, every one of its lines is non-empty and trimmed, and it only deletes characters of its input. |
| EmailBody.CleanedBodyShape | app/lib/email/email-parser.ts:180-203 | The cleaned body is tagless and trimmed, its lines are non-empty and trimmed, and it is its input with characters deleted. |
| EmailBody.CleanEmailBody | app/lib/email/email-parser.ts:180-203 | The step-by-step rewriting returns the cleaned body, with the properties above. |
| EmailBody.ExtractTextContent | app/lib/email/email-parser.ts:218-229 | The trimmed `text` when it is non-empty. Otherwise the trimmed, tag-stripped `html` when that is non-empty, which is tagless and a subsequence of the html. Otherwise `''`. Always trimmed. |
| EmailBody.ExtractTextStable | app/lib/email/email-parser.ts:218-229 | Putting a non-empty extraction back as the message's text and extracting again gives it unchanged. |
| EmailBody.GetEmailPreview | app/lib/email/email-parser.ts:234-237 | Over 200 characters: the first 200 and `...`, 203 in all. Otherwise the text unchanged. |
| Text.TrimIsInfix | app/lib/email/email-parser.ts:199 | `trim` returns a contiguous piece with no white space at either end, and is empty only when the input is all white space. |
| Text.TrimSubseq | app/lib/email/email-parser.ts:199 | `trim` only deletes characters. |
| Text.TrimOfTrimmed | app/lib/email/email-parser.ts:202 | `trim` does nothing to trimmed text. |
| Text.ToLower | app/components/dashboard/ProjectGrid.tsx:28-30 | Same length, each ASCII letter lower-cased, every other character kept. |
| Text.ContainsAt | app/components/dashboard/ProjectGrid.tsx:28-30 | `includes` holds exactly when the substring occurs at some index. |
| Text.SplitFirst | app/lib/email/email-parser.ts:103 | The first piece of a split is the text before the first separator, or the whole text. |
| Text.JoinSplit | app/lib/email/email-parser.ts:198-201 | Joining the pieces of a split gives the text back. |
| Text.SplitJoin | app/lib/email/email-parser.ts:198-201 | Splitting a join of separator-free pieces gives the pieces back. |
| Text.NatToStringInjective | app/lib/email/exchange-imap.ts:144 | Different numbers have different decimal texts. |
| Text.DigitsValueOfNat | app/lib/email/exchange-imap.ts:14 | The decimal text of a number reads back as that number. |
| ImapFolders.FolderFor | app/lib/email/exchange-imap.ts:82-89 | Name, full path, the delimiter or `/`, and the attributes and flags or `[]`. |
| ImapFolders.FullPath | app/lib/email/exchange-imap.ts:82 | At top level the name; below, parent path, the entry's delimiter text, then the name. |
| ImapFolders.DelimiterOrSlash | app/lib/email/exchange-imap.ts:86 | A non-empty delimiter, else `/`. |
| ImapFolders.CountIsNodeCount | app/lib/email/exchange-imap.ts:79-95 | One folder per node of the tree. |
| ImapFolders.ParseBoxesAppend | app/lib/email/exchange-imap.ts:81 | `flatMap` distributes over concatenation of the entries. |
| ImapFolders.Preorder | app/lib/email/exchange-imap.ts:81-94 | Entry `k`'s folder comes right after the folders of the entries before it and is followed at once by its descendants. |
| ImapFolders.PreorderPosition | app/lib/email/exchange-imap.ts:81-94 | Entry `k`'s folder sits at the index counting every node before it. |
| ImapFolders.TopLevelPath | app/lib/email/exchange-imap.ts:82 | A top-level folder's path is its name. |
| ImapFolders.PathsExtendParent | app/lib/email/exchange-imap.ts:82-91 | Under a non-empty path every folder's path starts with that path. |
| ImapFolders.Defaults | app/lib/email/exchange-imap.ts:86-88 | No delimiter (absent, `null` or empty) gives `/`; no attributes or flags give `[]`. |
| ImapFolders.AbsentDelimiterInPath | app/lib/email/exchange-imap.ts:82-86 | An absent delimiter enters a child's path as `undefined`, while its record shows `/`. |
| ImapSearch.BuildSearchCriteria | app/lib/email/exchange-imap.ts:226-244 | `ALL` first. `UNSEEN` exactly when unread only. `SINCE` with the start date exactly when one is given; the one-month fallback is never sent. The subject/from/to `OR` exactly when the search text is non-empty. Always in that order, and no other criterion. |
| ImapSearch.PushedMembers | app/lib/email/exchange-imap.ts:227-241 | Which criteria the pushes put in the list, with their values. |
| ImapSearch.PushedOrder | app/lib/email/exchange-imap.ts:227-241 | The pushes keep the order ALL, UNSEEN, SINCE, OR. |
| ImapFetch.Placeholder | app/lib/email/exchange-imap.ts:144 | id `error_<seqno>`, uid the sequence number, subject `Error parsing email`, empty sender address, the current time, no recipients, attachments or flags, all booleans false. |
| ImapFetch.PlaceholderIdsDistinct | app/lib/email/exchange-imap.ts:144 | Two placeholders share an id exactly when they stand for the same sequence number. |
| ImapFetch.SettleAll | app/lib/email/exchange-imap.ts:161 | Fails exactly when some message's parse rejected, with that rejection. Otherwise one resolved message per delivered one, in order: a placeholder for a failed MIME parse. |
| ImapFetch.SortInPlace | app/lib/email/exchange-imap.ts:163 | Sorting the array in place leaves it equal to the stable newest-first order of its contents. |
| ImapFetch.InsertInPlace | app/lib/email/exchange-imap.ts:163 | One in-place insertion step equals the insertion of the specification. |
| ImapFetch.ShiftOlder | app/lib/email/exchange-imap.ts:163 | Shifts the older messages right by one and returns the free slot, after the last message not older than the one inserted. |
| ImapFetch.SortSorted | app/lib/email/exchange-imap.ts:163 | The sort orders by date, newest first. |
| ImapFetch.SortPermutes | app/lib/email/exchange-imap.ts:163 | The sort keeps every message as often as it occurs. |
| ImapFetch.SortStable | app/lib/email/exchange-imap.ts:163 | Messages of the same date keep their relative order. |
| ImapFetch.InsertSorted | app/lib/email/exchange-imap.ts:163 | Inserting into a sorted list keeps it sorted and adds only the new message. |
| ImapFetch.InsertPermutes | app/lib/email/exchange-imap.ts:163 | Insertion adds exactly the one message. |
| ImapFetch.InsertStable | app/lib/email/exchange-imap.ts:163 | Insertion puts a message after those of its own date and changes no other date's order. |
| ImapFetch.InsertAt | app/lib/email/exchange-imap.ts:163 | Insertion places the message right after the last one not older than it. |
| ImapFetch.SliceIndex | app/lib/email/exchange-imap.ts:166 | `slice` reads a negative index from the end, and clamps both indices to the length. |
| ImapFetch.NumberOr | app/lib/email/exchange-imap.ts:166 | `x \|\| d`: an absent or zero option gives the default. |
| ImapFetch.PageWindow | app/lib/email/exchange-imap.ts:166 | A non-negative offset and a positive limit select `[offset, offset + limit)`, clamped to the list. |
| ImapFetch.PageWithoutLimit | app/lib/email/exchange-imap.ts:166 | An absent or zero limit means everything from the offset on. |
| ImapFetch.PageAll | app/lib/email/exchange-imap.ts:166 | No offset and no limit give every message. |
| ImapFetch.PagePastEnd | app/lib/email/exchange-imap.ts:166 | An offset at or past the end gives nothing. |
| ImapFetch.PageAtMostLimit | app/lib/email/exchange-imap.ts:166 | With a positive limit, whatever the offset, a page never holds more than the limit. |
| ImapFetch.PageOfSorted | app/lib/email/exchange-imap.ts:163-166 | The page is newest first and holds nothing the fetched messages do not. |
| ImapFetch.CompleteFetch | app/lib/email/exchange-imap.ts:159-172 | Fails exactly when some parse rejected. Otherwise the page of the resolved messages sorted newest first. |
| ImapClient.ConfigFromEnv | app/lib/email/exchange-imap.ts:11-21 | Each variable, or its default when unset or empty: `mail.rwth-aachen.de`, `parseInt` of the port or `993`, empty user name and password. TLS on, certificates not checked. |
| ImapClient.ParseInt | app/lib/email/exchange-imap.ts:14 | `parseInt` gives no number exactly when no digit follows the leading white space and sign. |
| ImapClient.ParseIntOfNat | app/lib/email/exchange-imap.ts:14 | The decimal text of a number parses back to it. |
| ImapClient.DefaultConfig | app/lib/email/exchange-imap.ts:13-16 | With nothing set: TLS to `mail.rwth-aachen.de` on port 993. An empty variable counts as unset. |
| ImapClient.ConnectStep | app/lib/email/exchange-imap.ts:35-61 | An existing promise is returned unchanged. Otherwise a new promise is made for a new attempt. |
| ImapClient.ConnectMemoised | app/lib/email/exchange-imap.ts:36-38 | A second `connect` returns the same promise and starts no attempt. |
| ImapClient.ReconnectAfterFailure | app/lib/email/exchange-imap.ts:46-55 | After an `error` or `end` the next `connect` starts a fresh attempt with a different promise. |
| ImapClient.AwaitConnect | app/lib/email/exchange-imap.ts:35-61 | A failed `await this.connect()` leaves no promise held, because the rejection comes from the `error` handler, which clears it; a successful one is the connect step. |
| ImapClient.RetryAfterFailedConnect | app/lib/email/exchange-imap.ts:46-50 | After a failed connect the next one starts a new attempt; after a successful one it starts none. |
| ImapClient.ConnectAfterReady | app/lib/email/exchange-imap.ts:41-44 | `ready` keeps the promise, so connecting again starts nothing. |
| ImapClient.StepsKeepWellFormed | app/lib/email/exchange-imap.ts:35-70 | Every step keeps each held promise tied to an attempt already started. |
| ImapClient.DisconnectStep | app/lib/email/exchange-imap.ts:63-70 | `end()` is called only when the state is not disconnected. |
| ImapClient.DisconnectOnceEnded | app/lib/email/exchange-imap.ts:52-70 | After `end`, `disconnect` calls `end()` no more; while authenticated it calls it once. |
| ImapClient.AddFlag | app/lib/email/exchange-imap.ts:178-212 | Adds the flag to the uid's set only; the uids and other sets are unchanged. |
| ImapClient.RemoveFlag | app/lib/email/exchange-imap.ts:193 | Removes the flag from the uid's set only. |
| ImapClient.ReadThenUnread | app/lib/email/exchange-imap.ts:178-200 | Read then unread leaves `\Seen` cleared and the other flags as before. |
| ImapClient.SoftDelete | app/lib/email/exchange-imap.ts:202-212 | Deleting keeps the message and flags it `\Deleted`; deleting twice is deleting once. |
| ImapClient.OutcomeOf | app/lib/email/exchange-imap.ts:178-212 | A flag operation succeeds exactly when the server applied it; otherwise the connect or server error. |
| ImapClient.ExchangeImapService.constructor | app/lib/email/exchange-imap.ts:11-33 | The configuration from the environment; no promise, no attempt, disconnected. |
| ImapClient.ExchangeImapService.Connect | app/lib/email/exchange-imap.ts:35-61 | The service's state follows the connect step and the promise returned is the one held. |
| ImapClient.ExchangeImapService.OnReady | app/lib/email/exchange-imap.ts:41-44 | The `ready` event authenticates. |
| ImapClient.ExchangeImapService.OnError | app/lib/email/exchange-imap.ts:46-50 | The `error` event forgets the promise. |
| ImapClient.ExchangeImapService.OnEnd | app/lib/email/exchange-imap.ts:52-55 | The `end` event forgets the promise and disconnects. |
| ImapClient.ExchangeImapService.Disconnect | app/lib/email/exchange-imap.ts:63-70 | Never rejects; follows the disconnect step. |
| ImapClient.ExchangeImapService.IsConnected | app/lib/email/exchange-imap.ts:214-216 | True exactly when authenticated. |
| ImapClient.ExchangeImapService.GetServerInfo | app/lib/email/exchange-imap.ts:218-224 | Host, port and user name of the configuration; there is no password field. |
| ImapClient.ExchangeImapService.MarkAsRead | app/lib/email/exchange-imap.ts:178-188 | Connects, then adds `\Seen` to the uid's flags exactly when the server applies it; the outcome says which. A failed connect leaves no promise held. |
| ImapClient.ExchangeImapService.MarkAsUnread | app/lib/email/exchange-imap.ts:190-200 | Connects, then removes `\Seen` exactly when the server applies it. A failed connect leaves no promise held. |
| ImapClient.ExchangeImapService.DeleteEmail | app/lib/email/exchange-imap.ts:202-212 | Connects, then adds `\Deleted` exactly when the server applies it. A failed connect leaves no promise held. |
| ImapClient.ExchangeImapService.ListFolders | app/lib/email/exchange-imap.ts:72-99 | Connects, then the flattened box tree or the error. A failed connect leaves no promise held. |
| ImapClient.ExchangeImapService.FetchEmails | app/lib/email/exchange-imap.ts:101-176 | Connects. Opens `options.folder` or `INBOX`, read-only. Sends criteria as built by `buildSearchCriteria`. An empty search resolves with `[]`. Each stage's error rejects. At the end, rejects exactly when some parse rejected, else gives the page of the resolved messages sorted newest first. A failed connect leaves no promise held. |
| Cache.Lookup | app/lib/utils/cache.ts:2-25 | Data is returned exactly when there is a window, the key is present, its item decodes, and the item has not expired; the data is the stored data. |
| Cache.StoreAfterGet | app/lib/utils/cache.ts:15-18 | A read removes the key exactly when it finds the item expired; otherwise the store is unchanged. |
| Cache.StoreAfterSet | app/lib/utils/cache.ts:27-39 | With a window the key holds the data stamped with the current time and every other key is unchanged. Without one nothing changes. |
| Cache.StoreAfterInvalidate | app/lib/utils/cache.ts:41-49 | The key is gone; every other key is unchanged. |
| Cache.TtlCache.constructor | app/lib/utils/cache.ts:3 | A cache with or without a window over a given store. |
| Cache.TtlCache.Get | app/lib/utils/cache.ts:2-25 | Returns the lookup and leaves the store as the read does. |
| Cache.TtlCache.Set | app/lib/utils/cache.ts:27-39 | Leaves the store as the write does. |
| Cache.TtlCache.Invalidate | app/lib/utils/cache.ts:41-49 | Leaves the store as the removal does. |
| Cache.AbsentKeyMisses | app/lib/utils/cache.ts:6-9 | An absent key gives `null` and changes nothing. |
| Cache.HitWindow | app/lib/utils/cache.ts:12-20 | A dated item is returned exactly while `now <= timestamp + minutes * 60000`; the boundary still hits. |
| Cache.ExpiredStaysGone | app/lib/utils/cache.ts:15-18 | A read that finds an item expired removes it, so every later read misses, with any time to live. |
| Cache.SetThenGet | app/lib/utils/cache.ts:27-35 | A read right after a write, with a non-negative time to live, gives the data back and keeps the item. |
| Cache.InvalidateOnlyKey | app/lib/utils/cache.ts:41-46 | Invalidating one key leaves every other key's reads unchanged. |
| Cache.NoWindow | app/lib/utils/cache.ts:2-49 | Without a window reads miss and writes change nothing. |
| Cache.CorruptEntryKept | app/lib/utils/cache.ts:11-24 | An item that does not decode reads as `null` and stays. |
| Cache.UndatedEntryNeverExpires | app/lib/utils/cache.ts:13-15 | An item whose timestamp is not a date never expires. |
| EmailServiceFacade.ErrorMessage | app/lib/email/email-service.ts:44 | An `Error`'s message, else `Unknown error occurred`. |
| EmailServiceFacade.ErrorTextNonEmpty | app/lib/email/email-service.ts:44 | The error text is empty only for an `Error` whose own message is empty. |
| EmailServiceFacade.EmailsEnvelopeOf | app/lib/email/email-service.ts:30-46 | On success the messages, their count and no error. On failure no messages, count 0 and the error text. |
| EmailServiceFacade.EmailsEnvelopeConsistent | app/lib/email/email-service.ts:35-45 | The count is always the number of messages; an error comes with no messages. |
| EmailServiceFacade.EnvelopeRoundTrip | app/lib/email/email-service.ts:33-58 | On success the client's list is read back unchanged from the envelope. |
| EmailServiceFacade.FoldersEnvelopeOf | app/lib/email/email-service.ts:56-65 | The folders and no error, or no folders and the error text. |
| EmailServiceFacade.StatusEnvelopeOf | app/lib/email/email-service.ts:75-84 | `success` exactly when the call did not fail; an error text exactly on failure. |
| EmailServiceFacade.EmailService.constructor | app/lib/email/email-service.ts:8-10 | Builds a fresh client configured from the environment. |
| EmailServiceFacade.EmailService.GetEmails | app/lib/email/email-service.ts:25-47 | The fetch's envelope; count equals the messages, an error comes with none, each stage's error becomes the error text. When the fetch ends, there is an error exactly when some parse rejected, and then it is that rejection's text; otherwise the messages are the page of the resolved messages sorted newest first. |
| EmailServiceFacade.EmailService.GetFolders | app/lib/email/email-service.ts:52-66 | The flattened folders, or none and the error text. |
| EmailServiceFacade.EmailService.MarkAsRead | app/lib/email/email-service.ts:71-85 | Success exactly when the server applied the flag, and then `\Seen` is added. |
| EmailServiceFacade.EmailService.MarkAsUnread | app/lib/email/email-service.ts:90-104 | Success exactly when the server applied it, and then `\Seen` is removed. |
| EmailServiceFacade.EmailService.DeleteEmail | app/lib/email/email-service.ts:109-123 | Success exactly when the server applied it, and then `\Deleted` is added. |
| EmailServiceFacade.EmailService.GetConnectionStatus | app/lib/email/email-service.ts:128-136 | Connected exactly when the client is authenticated; the client's server info. |
| EmailServiceFacade.EmailService.TestConnection | app/lib/email/email-service.ts:141-155 | Connects; success exactly when the connection promise resolved, else its error text, and then no promise is held. |
| EmailServiceFacade.EmailService.Disconnect | app/lib/email/email-service.ts:160-166 | Never throws; the client follows the disconnect step. |
| EmailServiceFacade.ServiceRegistry.GetInstance | app/lib/email/email-service.ts:15-20 | Builds the service on the first call only; later calls return the same instance; at most one is ever built. |
| SmartMail.GetSmartMailAssistantSuggestions | app/lib/ai/smart-mail-agent.ts:9-50 | The loop and the closing pushes give exactly the specified important list and steps. |
| SmartMail.StepsOf | app/lib/ai/smart-mail-agent.ts:17-32 | An important message gives one review step, a meeting-only message one confirmation step, any other none. |
| SmartMail.ImportantOf | app/lib/ai/smart-mail-agent.ts:18-22 | Id, subject and the fixed summary prefix followed by the subject. |
| SmartMail.ReviewStep | app/lib/ai/smart-mail-agent.ts:23-26 | `Review and respond to "<subject>"`, related to the message id. |
| SmartMail.ConfirmStep | app/lib/ai/smart-mail-agent.ts:28-31 | `Confirm attendance for "<subject>"`, related to the message id. |
| SmartMail.ClosingSteps | app/lib/ai/smart-mail-agent.ts:36-44 | The "no urgent" step exactly when nothing is important, then always the "organize" step. |
| SmartMail.ImportantInOrder | app/lib/ai/smart-mail-agent.ts:16-22 | The important list keeps input order, is no longer than the input, and lists only important messages. |
| SmartMail.ImportantIff | app/lib/ai/smart-mail-agent.ts:17 | A message is listed exactly when its lower-cased subject contains `urgent` or `action required`. |
| SmartMail.LoopStepCount | app/lib/ai/smart-mail-agent.ts:16-33 | The loop gives one step per important and per meeting-only message, each related to a message. |
| SmartMail.StepCount | app/lib/ai/smart-mail-agent.ts:16-44 | Steps = important + meeting-only + (1 if nothing is important) + 1. |
| SmartMail.LastStepOrganize | app/lib/ai/smart-mail-agent.ts:42-44 | The last step is always the "organize" step with no related message. |
| SmartMail.NoUrgentIff | app/lib/ai/smart-mail-agent.ts:36-40 | The "no urgent" step is present exactly when nothing is important. |
| SmartMail.UrgentBeforeMeeting | app/lib/ai/smart-mail-agent.ts:17-31 | An urgent meeting gets a review step, not a confirmation. |
| SmartMail.NoMessages | app/lib/ai/smart-mail-agent.ts:36-44 | Without messages exactly the two general steps. |
| ProjectFilter.FilteredProjects | app/components/dashboard/ProjectGrid.tsx:26-37 | Never more projects than the input. |
| ProjectFilter.FilterShape | app/components/dashboard/ProjectGrid.tsx:27-35 | The result is an order-keeping subsequence of the projects and holds exactly the projects all three matches accept. |
| ProjectFilter.UnfilteredKeepsAll | app/components/dashboard/ProjectGrid.tsx:28-33 | The empty search with both filters `all` keeps every project. |
| ProjectFilter.FiltersHold | app/components/dashboard/ProjectGrid.tsx:32-33 | With a status filter other than `all` every result has that status; likewise priority. |
| ProjectFilter.FilterMonotone | app/components/dashboard/ProjectGrid.tsx:35 | A query that accepts more keeps a supersequence. |
| ProjectFilter.Narrowing | app/components/dashboard/ProjectGrid.tsx:32-35 | Changing a filter from `all` to a value can only shrink the result. |
| ProjectFilter.SearchIgnoresCase | app/components/dashboard/ProjectGrid.tsx:28-30 | A term and its lower-cased form find the same projects. |
| ProjectFilter.SameFilter | app/components/dashboard/ProjectGrid.tsx:27 | Queries that accept the same projects give the same result. |
| ProjectFilter.NameSearchFinds | app/components/dashboard/ProjectGrid.tsx:28-35 | A project whose name contains the term, in any case, is found when its status and priority match. |

## Left out

- Networking, TLS, time-outs and the event streams of the mailbox library are not modelled as
  concurrency. Each call is replaced by its reply, and each connection event by a method
  (`OnReady`, `OnError`, `OnEnd`). Messages arrive in one delivery order; parallel fetches and
  interleavings are not modelled.
- The MIME parser `simpleParser` is a foreign library. A fetched message is given by how its
  parse ended. The call `parseEmail(parsed, attrs)` passes two arguments to a one-argument
  parser. The parser is modelled on its own input shape, a raw message with `parts`, `body`,
  `seqNo` and flags.
- A rejection of `parseEmail` inside `resolveMessage` is not caught by the surrounding `try`, so it
  rejects `Promise.all` and the whole fetch. Only a failed MIME parse gives the placeholder.
  When several messages reject, the model takes the first in delivery order. In the source,
  the first to settle wins.
- `Date.now()`, `new Date()`, `Math.random()` and date parsing are parameters. An invalid date
  (`NaN`) is not modelled in message sorting. In the cache it is the `None` timestamp.
- EmailParser.ParseEmail: every `TypeError` has one abstract message, and the text of the
  runtime's message is not modelled.
- Header values of types other than those declared (for example a number as the subject) are
  not modelled. A subject or date element is a string or absent.
- A flags value that is present but not an array is recorded as `[]`. The source would copy
  that value into `flags`.
- `Object.entries` lists integer-like keys first, in numeric order. The model takes the entries
  in the order given. A `null` box info, which makes the source throw, is not modelled. A falsy
  or non-object `children` is the same as no children.
- ImapClient.ParseInt: only decimal text is modelled. The `0x` prefix that `parseInt` accepts
  without a radix is not.
- The replies are not tied to the connection state. For example, a connect failure is
  accepted while a resolved promise is held, which the source cannot produce.
- Each `connect` registers new `once` handlers. The accumulation of handlers on the one
  connection object is not modelled.
- The flag operations take the server's reply as a parameter. Whether a read-only mailbox
  refuses the change is part of that reply.
- Text.ToLower: lower-cases the ASCII letters only, where `toLowerCase` maps every cased
  letter.
- EmailBody.GetEmailPreview: counts characters as code points. The source's `text.length` and
  `substring(0, 200)` count UTF-16 units, so with characters outside the Basic Multilingual
  Plane its cut comes earlier and can split such a character in half.
- The cache stores values, so the JSON round trip is not modelled (for example, dates becoming
  strings). A `localStorage` that throws on write is not modelled. A fractional time to live is
  not modelled; minutes are integers.
- EmailServiceFacade.ErrorTextNonEmpty: states that the error text is non-empty except for an
  `Error` whose own message is empty. That is weaker than "always non-empty", because the
  source passes such a message on unchanged.
- The configured port is `Option<int>`, with `None` for the `NaN` of unparsable text.
  `getServerInfo` returns that value.
- The server-action wrapper, the React hook and all components other than the project filter
  are not part of this model.

## Findings

The parse pipeline (`MapAddress` and everything built on it) follows line 108 as written.
`MapAddressIntended` is the corrected mapping, and `MappingsAgree` states where the two differ.

| source | as written | input that shows it | evidently intended | confidence | as-written member | corrected member |
|---|---|---|---|---|---|---|
| app/lib/email/email-parser.ts:108 | `addr.address \|\| addr.mailbox + '@' + addr.host \|\| 'unknown@example.com'` parses as `address \|\| (mailbox + '@' + host) \|\| default`. The middle operand is never empty, so the default is unreachable and missing parts print as `undefined`. | an address object with no properties gives `undefined@undefined` | `address`, else `mailbox@host` when both are present, else `unknown@example.com` | not executed | EmailParser.ObjectAddressAsWritten, EmailParser.MappingsAgree | EmailParser.ObjectAddress, EmailParser.MapAddressIntended |
