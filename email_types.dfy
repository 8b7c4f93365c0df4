/** The records the email subsystem passes around. Dates are milliseconds since the epoch
    (what `Date.getTime()` returns); optional properties are `Option`s. */
module EmailTypes {
  import opened Wrappers

  /** The server's flag vocabulary for the four message states. */
  const SEEN := "\\Seen"
  const FLAGGED := "\\Flagged"
  const ANSWERED := "\\Answered"
  const DELETED := "\\Deleted"

  /** `{address, name?}`. */
  datatype EmailAddress = EmailAddress(address: string, name: Option<string>)

  datatype Attachment = Attachment(filename: string, contentType: string, size: nat)

  /** A retrieved message. `cc` and `bcc` are optional because the placeholder record built
      for a message that could not be parsed has neither. */
  datatype EmailMessage = EmailMessage(
    id: string,
    uid: int,
    subject: string,
    from: EmailAddress,
    to: seq<EmailAddress>,
    cc: Option<seq<EmailAddress>>,
    bcc: Option<seq<EmailAddress>>,
    date: int,
    text: Option<string>,
    html: Option<string>,
    attachments: seq<Attachment>,
    flags: seq<string>,
    isRead: bool,
    isFlagged: bool,
    isAnswered: bool,
    isDeleted: bool)

  /** One node of the server's folder hierarchy, flattened. */
  datatype EmailFolder = EmailFolder(
    name: string,
    path: string,
    delimiter: string,
    attributes: seq<string>,
    flags: seq<string>)

  /** The options of a fetch. Every field may be left out; `unreadOnly` left out is `false`. */
  datatype EmailFetchOptions = EmailFetchOptions(
    folder: Option<string>,
    limit: Option<int>,
    offset: Option<int>,
    unreadOnly: bool,
    search: Option<string>,
    startDate: Option<int>)

  /** `{}`: every option left out. */
  const NoOptions := EmailFetchOptions(None, None, None, false, None, None)
}
