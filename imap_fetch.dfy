/** The deterministic part of `ExchangeImapService.fetchEmails`: settling the per-message
    promises, the placeholder for a message that could not be parsed, the stable sort by date
    (newest first) done in place on the array, and the `slice` that applies offset and limit. */
module ImapFetch {
  import opened Wrappers
  import opened Text
  import opened EmailTypes

  const ErrorSubject := "Error parsing email"

  // ---------------------------------------------------------------------------
  // Per-message outcomes
  // ---------------------------------------------------------------------------

  /** How one fetched message ends: the MIME parser threw (caught, placeholder), or the promise
      `parseEmail` returned settled with this result (not caught: `resolveMessage` adopts it). */
  datatype MessageOutcome = MimeParseFailed | Parsed(result: Result<EmailMessage>)

  /** A message as the fetch delivered it: its sequence number and how its parse ended. */
  datatype Delivered = Delivered(seqno: nat, outcome: MessageOutcome)

  /** The record resolved for a message whose MIME parse threw; `now` is `new Date()`. */
  function Placeholder(seqno: nat, now: int): (m: EmailMessage)
    ensures m.id == "error_" + NatToString(seqno) && m.uid == seqno
    ensures m.subject == ErrorSubject && m.from == EmailAddress("", None)
    ensures m.to == [] && m.cc == None && m.bcc == None && m.date == now
    ensures m.text == None && m.html == None && m.attachments == [] && m.flags == []
    ensures !m.isRead && !m.isFlagged && !m.isAnswered && !m.isDeleted
  {
    EmailMessage("error_" + NatToString(seqno), seqno, ErrorSubject, EmailAddress("", None), [],
                 None, None, now, None, None, [], [], false, false, false, false)
  }

  predicate Rejected(d: Delivered) {
    d.outcome.Parsed? && d.outcome.result.Err?
  }

  /** The value one message's promise resolves to, when it does not reject. */
  function Resolved(d: Delivered, now: int): EmailMessage
    requires !Rejected(d)
  {
    match d.outcome
    case MimeParseFailed => Placeholder(d.seqno, now)
    case Parsed(r) => r.value
  }

  /** A placeholder id names its sequence number and nothing else: two placeholders have the
      same id exactly when they stand for the same sequence number. */
  lemma {:induction false} PlaceholderIdsDistinct(a: nat, b: nat, now: int)
    ensures Placeholder(a, now).id == Placeholder(b, now).id <==> a == b
  {
    if Placeholder(a, now).id == Placeholder(b, now).id {
      var p := "error_";
      assert (p + NatToString(a))[|p|..] == NatToString(a);
      assert (p + NatToString(b))[|p|..] == NatToString(b);
      NatToStringInjective(a, b);
    }
  }

  /** `Promise.all(fetchPromises)`: every message resolved, in delivery order, or the first
      rejection. */
  method SettleAll(delivered: seq<Delivered>, now: int) returns (r: Result<seq<EmailMessage>>)
    ensures r.Err? <==> exists k :: 0 <= k < |delivered| && Rejected(delivered[k])
    ensures r.Err? ==> exists k :: 0 <= k < |delivered| && delivered[k].outcome == Parsed(Err(r.thrown))
    ensures r.Ok? ==> |r.value| == |delivered| && forall k :: 0 <= k < |delivered| ==> r.value[k] == Resolved(delivered[k], now)
  {
    var emails := [];
    var i := 0;
    while i < |delivered|
      invariant 0 <= i <= |delivered|
      invariant forall k :: 0 <= k < i ==> !Rejected(delivered[k])
      invariant |emails| == i && forall k :: 0 <= k < i ==> emails[k] == Resolved(delivered[k], now)
    {
      var d := delivered[i];
      if Rejected(d) {
        return Err(d.outcome.result.thrown);
      }
      emails := emails + [Resolved(d, now)];
      i := i + 1;
    }
    return Ok(emails);
  }

  // ---------------------------------------------------------------------------
  // emails.sort((a, b) => b.date.getTime() - a.date.getTime())
  // ---------------------------------------------------------------------------

  predicate SortedByDate(s: seq<EmailMessage>) {
    forall i, j :: 0 <= i < j < |s| ==> s[i].date >= s[j].date
  }

  /** Insert `x` after every element, counted from the end, whose date is not older than it. */
  function Insert(t: seq<EmailMessage>, x: EmailMessage): (r: seq<EmailMessage>)
    ensures |r| == |t| + 1
    decreases |t|
  {
    if t == [] then [x]
    else if t[|t| - 1].date >= x.date then t + [x]
    else Insert(t[..|t| - 1], x) + [t[|t| - 1]]
  }

  /** The order a stable sort, newest first, gives: insertion of each element in turn. */
  function SortByDate(s: seq<EmailMessage>): (r: seq<EmailMessage>)
    ensures |r| == |s|
    decreases |s|
  {
    if s == [] then [] else Insert(SortByDate(s[..|s| - 1]), s[|s| - 1])
  }

  /** The messages of `s` with date `d`, in order. */
  function WithDate(s: seq<EmailMessage>, d: int): seq<EmailMessage>
    decreases |s|
  {
    if s == [] then []
    else WithDate(s[..|s| - 1], d) + Dated(s[|s| - 1], d)
  }

  lemma {:induction false} InsertSorted(t: seq<EmailMessage>, x: EmailMessage)
    requires SortedByDate(t)
    ensures SortedByDate(Insert(t, x))
    ensures forall k :: 0 <= k < |Insert(t, x)| ==> Insert(t, x)[k] == x || Insert(t, x)[k] in t
    decreases |t|
  {
    if t != [] && t[|t| - 1].date < x.date {
      var init := t[..|t| - 1];
      assert SortedByDate(init);
      InsertSorted(init, x);
      var r := Insert(init, x) + [t[|t| - 1]];
      forall k | 0 <= k < |Insert(init, x)|
        ensures Insert(init, x)[k].date >= t[|t| - 1].date
      {
        if Insert(init, x)[k] != x {
          assert Insert(init, x)[k] in init;
        }
      }
      forall k | 0 <= k < |r|
        ensures r[k] == x || r[k] in t
      {
        if k < |r| - 1 && r[k] != x {
          assert r[k] in init;
        }
      }
    }
  }

  /** The sort orders by date, newest first. */
  lemma {:induction false} SortSorted(s: seq<EmailMessage>)
    ensures SortedByDate(SortByDate(s))
    decreases |s|
  {
    if s != [] {
      SortSorted(s[..|s| - 1]);
      InsertSorted(SortByDate(s[..|s| - 1]), s[|s| - 1]);
    }
  }

  lemma {:induction false} InsertPermutes(t: seq<EmailMessage>, x: EmailMessage)
    ensures multiset(Insert(t, x)) == multiset(t) + multiset{x}
    decreases |t|
  {
    if t != [] && t[|t| - 1].date < x.date {
      InsertPermutes(t[..|t| - 1], x);
      SnocMultiset(t);
    }
  }

  /** A sequence's elements are those of all but its last, and the last. */
  lemma SnocMultiset<T>(s: seq<T>)
    requires s != []
    ensures multiset(s) == multiset(s[..|s| - 1]) + multiset{s[|s| - 1]}
  {
    assert s == s[..|s| - 1] + [s[|s| - 1]];
  }

  /** The sort keeps every message, each as many times as it occurs. */
  lemma {:induction false} SortPermutes(s: seq<EmailMessage>)
    ensures multiset(SortByDate(s)) == multiset(s)
    decreases |s|
  {
    if s != [] {
      SortPermutes(s[..|s| - 1]);
      InsertPermutes(SortByDate(s[..|s| - 1]), s[|s| - 1]);
      SnocMultiset(s);
    }
  }

  lemma {:induction false} WithDateAppend(a: seq<EmailMessage>, b: seq<EmailMessage>, d: int)
    ensures WithDate(a + b, d) == WithDate(a, d) + WithDate(b, d)
    decreases |b|
  {
    if b == [] {
      assert a + b == a;
    } else {
      assert (a + b)[..|a + b| - 1] == a + b[..|b| - 1];
      WithDateAppend(a, b[..|b| - 1], d);
    }
  }

  /** The messages of date `d` among `[y]`. */
  function Dated(y: EmailMessage, d: int): seq<EmailMessage> {
    if y.date == d then [y] else []
  }

  /** Appending one message appends it to its own date's list. */
  lemma WithDateSnoc(a: seq<EmailMessage>, y: EmailMessage, d: int)
    ensures WithDate(a + [y], d) == WithDate(a, d) + Dated(y, d)
  {
    assert (a + [y])[..|a|] == a;
  }

  /** Inserting `x` leaves the messages of every other date as they were and puts `x` after
      the messages of its own date. */
  lemma {:induction false} InsertStable(t: seq<EmailMessage>, x: EmailMessage, d: int)
    ensures WithDate(Insert(t, x), d) == WithDate(t, d) + Dated(x, d)
    decreases |t|
  {
    if t == [] {
      assert WithDate([x], d) == WithDate([], d) + Dated(x, d) by {
        WithDateSnoc([], x, d);
        assert [] + [x] == [x];
      }
    } else if t[|t| - 1].date >= x.date {
      WithDateSnoc(t, x, d);
    } else {
      var init, last := t[..|t| - 1], t[|t| - 1];
      InsertStable(init, x, d);
      WithDateSnoc(Insert(init, x), last, d);
      var a := WithDate(init, d);
      assert Dated(x, d) == [] || Dated(last, d) == [];
      assert a + Dated(x, d) + Dated(last, d) == a + Dated(last, d) + Dated(x, d);
    }
  }

  /** Stability: messages with the same date keep their relative order. */
  lemma {:induction false} SortStable(s: seq<EmailMessage>, d: int)
    ensures WithDate(SortByDate(s), d) == WithDate(s, d)
    decreases |s|
  {
    if s != [] {
      SortStable(s[..|s| - 1], d);
      InsertStable(SortByDate(s[..|s| - 1]), s[|s| - 1], d);
    }
  }

  /** Inserting into a prefix that ends with the first message not older than `x`. */
  lemma {:induction false} InsertAt(t: seq<EmailMessage>, x: EmailMessage, j: nat)
    requires j <= |t|
    requires forall k :: j <= k < |t| ==> t[k].date < x.date
    requires j == 0 || t[j - 1].date >= x.date
    ensures Insert(t, x) == t[..j] + [x] + t[j..]
    decreases |t|
  {
    if j < |t| {
      var init := t[..|t| - 1];
      InsertAt(init, x, j);
      assert init[..j] == t[..j];
      assert init[j..] + [t[|t| - 1]] == t[j..];
    } else {
      assert t[..j] == t;
    }
  }

  /** One step of insertion sort: shift the older messages of `a[..i]` one slot right and put
      `a[i]` in the gap. */
  method InsertInPlace(a: array<EmailMessage>, i: nat)
    requires i < a.Length
    modifies a
    ensures a[..i + 1] == Insert(old(a[..i]), old(a[i]))
    ensures a[i + 1..] == old(a[i + 1..])
  {
    ghost var t := a[..i];
    var x := a[i];
    var j := ShiftOlder(a, i, x);
    a[j] := x;
    InsertAt(t, x, j);
    ShiftedShape(a[..], t, x, i, j);
  }

  /** Move the messages of `a[..i]` older than `x`, from the end, one slot right; `j` is the
      slot left free. */
  method ShiftOlder(a: array<EmailMessage>, i: nat, x: EmailMessage) returns (j: nat)
    requires i < a.Length
    modifies a
    ensures j <= i
    ensures forall k {:trigger a[k]} :: 0 <= k < j ==> a[k] == old(a[k])
    ensures forall k {:trigger a[k]} :: j < k <= i ==> a[k] == old(a[k - 1])
    ensures forall k {:trigger a[k]} :: i < k < a.Length ==> a[k] == old(a[k])
    ensures forall k :: j <= k < i ==> old(a[k]).date < x.date
    ensures j == 0 || old(a[j - 1]).date >= x.date
  {
    j := i;
    while j > 0 && a[j - 1].date < x.date
      invariant 0 <= j <= i
      invariant forall k {:trigger a[k]} :: 0 <= k < j ==> a[k] == old(a[k])
      invariant forall k {:trigger a[k]} :: j < k <= i ==> a[k] == old(a[k - 1])
      invariant forall k {:trigger a[k]} :: i < k < a.Length ==> a[k] == old(a[k])
      invariant forall k :: j <= k < i ==> old(a[k]).date < x.date
    {
      a[j] := a[j - 1];
      j := j - 1;
    }
  }

  /** The array after the shift, read as a sequence: the prefix of `t`, then `x`, then the rest
      of `t`. */
  lemma ShiftedShape(s: seq<EmailMessage>, t: seq<EmailMessage>, x: EmailMessage, i: nat, j: nat)
    requires j <= i < |s| && |t| == i
    requires forall k :: 0 <= k < j ==> s[k] == t[k]
    requires s[j] == x
    requires forall k :: j < k <= i ==> s[k] == t[k - 1]
    ensures s[..i + 1] == t[..j] + [x] + t[j..]
  {
  }

  /** The sort, in place on the array, as insertion sort. */
  method SortInPlace(a: array<EmailMessage>)
    modifies a
    ensures a[..] == SortByDate(old(a[..]))
  {
    ghost var input := a[..];
    var i := 0;
    while i < a.Length
      invariant 0 <= i <= a.Length
      invariant a[..i] == SortByDate(input[..i])
      invariant a[i..] == input[i..]
    {
      assert a[i] == input[i];
      InsertInPlace(a, i);
      assert input[..i + 1][..i] == input[..i];
      i := i + 1;
    }
    assert input[..a.Length] == input;
  }

  // ---------------------------------------------------------------------------
  // emails.slice(offset || 0, (offset || 0) + (limit || emails.length))
  // ---------------------------------------------------------------------------

  /** How `Array.prototype.slice` reads an index: negative counts from the end; both clamp to
      `[0, len]`. */
  function SliceIndex(i: int, len: nat): (r: nat)
    ensures r <= len
    ensures 0 <= i <= len ==> r == i
    ensures i > len ==> r == len
    ensures i < 0 ==> r == if len + i < 0 then 0 else len + i
  {
    if i < 0 then (if len + i < 0 then 0 else len + i) else if i > len then len else i
  }

  function JsSlice<T>(s: seq<T>, start: int, end: int): (r: seq<T>)
    ensures |r| <= |s|
  {
    var b, e := SliceIndex(start, |s|), SliceIndex(end, |s|);
    if b < e then s[b..e] else []
  }

  /** `options.x || d` for a numeric option: absent and `0` give `d`. */
  function NumberOr(x: Option<int>, d: int): (r: int)
    ensures x.Some? && x.value != 0 ==> r == x.value
    ensures !(x.Some? && x.value != 0) ==> r == d
  {
    if x.Some? && x.value != 0 then x.value else d
  }

  /** The page of the sorted messages that a fetch resolves with. */
  function Paginate(emails: seq<EmailMessage>, options: EmailFetchOptions): seq<EmailMessage> {
    var start := NumberOr(options.offset, 0);
    JsSlice(emails, start, start + NumberOr(options.limit, |emails|))
  }

  function Min(a: int, b: int): int {
    if a <= b then a else b
  }

  /** A non-negative offset and a positive limit select `[offset, offset + limit)`, clamped. */
  lemma PageWindow(emails: seq<EmailMessage>, offset: nat, limit: nat)
    requires limit > 0
    ensures Min(offset, |emails|) <= Min(offset + limit, |emails|) <= |emails|
    ensures Paginate(emails, NoOptions.(offset := Some(offset), limit := Some(limit)))
         == emails[Min(offset, |emails|)..Min(offset + limit, |emails|)]
  {
  }

  /** No limit (absent or `0`) means all messages from the offset on. */
  lemma PageWithoutLimit(emails: seq<EmailMessage>, options: EmailFetchOptions)
    requires NumberOr(options.limit, 0) == 0
    requires NumberOr(options.offset, 0) >= 0
    ensures Min(NumberOr(options.offset, 0), |emails|) <= |emails|
    ensures Paginate(emails, options) == emails[Min(NumberOr(options.offset, 0), |emails|)..]
  {
  }

  /** No offset and no limit give every message. */
  lemma PageAll(emails: seq<EmailMessage>)
    ensures Paginate(emails, NoOptions) == emails
  {
  }

  /** An offset at or past the end gives nothing. */
  lemma PagePastEnd(emails: seq<EmailMessage>, options: EmailFetchOptions)
    requires NumberOr(options.offset, 0) >= |emails|
    ensures Paginate(emails, options) == []
  {
  }

  /** A page never holds more than the limit. */
  lemma PageAtMostLimit(emails: seq<EmailMessage>, options: EmailFetchOptions)
    requires NumberOr(options.limit, |emails|) > 0
    ensures |Paginate(emails, options)| <= NumberOr(options.limit, |emails|)
  {
  }

  // ---------------------------------------------------------------------------
  // The fetch once its messages have arrived
  // ---------------------------------------------------------------------------

  /** After the fetch's `end` event: settle the messages, sort them in place, take the page. */
  method CompleteFetch(delivered: seq<Delivered>, options: EmailFetchOptions, now: int)
    returns (r: Result<seq<EmailMessage>>)
    ensures r.Err? <==> exists k :: 0 <= k < |delivered| && Rejected(delivered[k])
    ensures r.Err? ==> exists k :: 0 <= k < |delivered| && delivered[k].outcome == Parsed(Err(r.thrown))
    ensures r.Ok? ==> exists emails: seq<EmailMessage> ::
      && |emails| == |delivered|
      && (forall k :: 0 <= k < |delivered| ==> emails[k] == Resolved(delivered[k], now))
      && r.value == Paginate(SortByDate(emails), options)
  {
    var settled := SettleAll(delivered, now);
    if settled.Err? {
      return Err(settled.thrown);
    }
    var emails := new EmailMessage[|settled.value|];
    forall k | 0 <= k < emails.Length {
      emails[k] := settled.value[k];
    }
    assert emails[..] == settled.value;
    SortInPlace(emails);
    r := Ok(Paginate(emails[..], options));
  }

  /** Every message of a fetched page is one of the settled messages, and the page is newest first. */
  lemma PageOfSorted(emails: seq<EmailMessage>, options: EmailFetchOptions)
    ensures SortedByDate(Paginate(SortByDate(emails), options))
    ensures multiset(Paginate(SortByDate(emails), options)) <= multiset(emails)
  {
    SortSorted(emails);
    SortPermutes(emails);
    PageOfSortedList(SortByDate(emails), options);
  }

  /** A page of a newest-first list is newest first and takes nothing the list does not hold. */
  lemma PageOfSortedList(s: seq<EmailMessage>, options: EmailFetchOptions)
    requires SortedByDate(s)
    ensures SortedByDate(Paginate(s, options))
    ensures multiset(Paginate(s, options)) <= multiset(s)
  {
    var start := NumberOr(options.offset, 0);
    var b, e := SliceIndex(start, |s|), SliceIndex(start + NumberOr(options.limit, |s|), |s|);
    if b < e {
      SliceMultiset(s, b, e);
      SliceSorted(s, b, e);
    }
  }

  /** A slice holds no element more often than the whole. */
  lemma SliceMultiset<T>(s: seq<T>, b: nat, e: nat)
    requires b <= e <= |s|
    ensures multiset(s[b..e]) <= multiset(s)
  {
    assert s == s[..b] + s[b..e] + s[e..];
  }

  /** A slice of a newest-first list is newest first. */
  lemma SliceSorted(s: seq<EmailMessage>, b: nat, e: nat)
    requires b <= e <= |s| && SortedByDate(s)
    ensures SortedByDate(s[b..e])
  {
    forall i, j | 0 <= i < j < e - b
      ensures s[b..e][i].date >= s[b..e][j].date
    {
      assert s[b..e][i] == s[b + i] && s[b..e][j] == s[b + j];
    }
  }
}
