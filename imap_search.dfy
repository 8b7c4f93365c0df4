/** `ExchangeImapService.buildSearchCriteria`: the IMAP SEARCH criteria a fetch sends. */
module ImapSearch {
  import opened Wrappers
  import opened EmailTypes

  /** The criteria the service can send: `'ALL'`, `'UNSEEN'`, `['SINCE', date]`,
      `['SUBJECT', text]`, `['FROM', text]`, `['TO', text]` and `['OR', ...]`. */
  datatype Criterion =
    | All
    | Unseen
    | Since(date: int)
    | Subject(text: string)
    | From(text: string)
    | To(text: string)
    | Or(alternatives: seq<Criterion>)

  /** `['OR', ['SUBJECT', s], ['FROM', s], ['TO', s]]`. */
  function TextSearch(s: string): Criterion {
    Or([Subject(s), From(s), To(s)])
  }

  /** The position each kind of criterion takes in the list. */
  function Rank(c: Criterion): nat {
    match c
    case All => 0
    case Unseen => 1
    case Since(_) => 2
    case _ => 3
  }

  /** What the criteria for `options` are: `ALL` first, then `UNSEEN` exactly when unread
      messages only are asked for, `SINCE` with the start date exactly when one is given, and
      the text search exactly when the search text is non-empty, in that order. */
  predicate CriteriaFor(options: EmailFetchOptions, criteria: seq<Criterion>) {
    && |criteria| >= 1 && criteria[0] == All
    && (Unseen in criteria <==> options.unreadOnly)
    && ((exists k :: 0 <= k < |criteria| && criteria[k].Since?) <==> options.startDate.Some?)
    && (forall k :: 0 <= k < |criteria| && criteria[k].Since? ==> Some(criteria[k].date) == options.startDate)
    && ((exists k :: 0 <= k < |criteria| && criteria[k].Or?) <==> Truthy(options.search))
    && (forall k :: 0 <= k < |criteria| && criteria[k].Or? ==> criteria[k] == TextSearch(options.search.value))
    && (forall i, j :: 0 <= i < j < |criteria| ==> Rank(criteria[i]) < Rank(criteria[j]))
    && (forall k :: 0 <= k < |criteria| ==> criteria[k].All? || criteria[k].Unseen? || criteria[k].Since? || criteria[k].Or?)
  }

  /** `buildSearchCriteria`: starts from `['ALL']` and pushes `UNSEEN`, `SINCE` and the text
      search when the corresponding option is set. A `Date` is always truthy, so the one-month
      fallback `oneMonthAgo` (computed from the clock in the source) is never sent. */
  method BuildSearchCriteria(options: EmailFetchOptions, oneMonthAgo: int) returns (criteria: seq<Criterion>)
    ensures CriteriaFor(options, criteria)
  {
    criteria := [All];
    if options.unreadOnly {
      criteria := criteria + [Unseen];
    }
    if options.startDate.Some? {
      var since := if options.startDate.Some? then options.startDate.value else oneMonthAgo;
      criteria := criteria + [Since(since)];
    }
    if Truthy(options.search) {
      criteria := criteria + [TextSearch(options.search.value)];
    }
    assert criteria == Pushed(options);
    PushedMembers(options);
    PushedOrder(options);
  }

  /** The list the pushes build. */
  function Pushed(options: EmailFetchOptions): seq<Criterion> {
    [All] + UnseenPart(options) + SincePart(options) + SearchPart(options)
  }

  function UnseenPart(options: EmailFetchOptions): seq<Criterion> {
    if options.unreadOnly then [Unseen] else []
  }

  function SincePart(options: EmailFetchOptions): seq<Criterion> {
    if options.startDate.Some? then [Since(options.startDate.value)] else []
  }

  function SearchPart(options: EmailFetchOptions): seq<Criterion> {
    if Truthy(options.search) then [TextSearch(options.search.value)] else []
  }

  /** Which criteria the pushed list holds. */
  lemma PushedMembers(options: EmailFetchOptions)
    ensures |Pushed(options)| >= 1 && Pushed(options)[0] == All
    ensures Unseen in Pushed(options) <==> options.unreadOnly
    ensures (exists k :: 0 <= k < |Pushed(options)| && Pushed(options)[k].Since?) <==> options.startDate.Some?
    ensures forall k :: 0 <= k < |Pushed(options)| && Pushed(options)[k].Since? ==> Some(Pushed(options)[k].date) == options.startDate
    ensures (exists k :: 0 <= k < |Pushed(options)| && Pushed(options)[k].Or?) <==> Truthy(options.search)
    ensures forall k :: 0 <= k < |Pushed(options)| && Pushed(options)[k].Or? ==> Pushed(options)[k] == TextSearch(options.search.value)
  {
    var c := Pushed(options);
    var n := |[All] + UnseenPart(options)|;
    if options.startDate.Some? {
      assert c[n].Since?;
    }
    if Truthy(options.search) {
      assert c[|c| - 1].Or?;
    }
  }

  /** The pushed list is in rank order and holds only the four kinds the service sends. */
  lemma PushedOrder(options: EmailFetchOptions)
    ensures forall i, j :: 0 <= i < j < |Pushed(options)| ==> Rank(Pushed(options)[i]) < Rank(Pushed(options)[j])
    ensures forall k :: 0 <= k < |Pushed(options)| ==> Pushed(options)[k].All? || Pushed(options)[k].Unseen? || Pushed(options)[k].Since? || Pushed(options)[k].Or?
  {
  }
}
