/** The mailbox side of the gateway: the items the remote store holds, the
    abstract backend the session talks to, the per-handle cache of unread
    items (`o365.inbox_all`), sequence-number resolution, and the DELE policy
    for meeting requests. */
module Mailbox {
  import opened Py

  /** The kind of a remote item: ordinary mail, or a meeting request with the
      two attributes the DELE policy reads. */
  datatype ItemKind =
    | Message
    | MeetingRequest(requestType: string, conflictingMeetingCount: int)

  /** One remote item, reduced to what the session logic inspects: an
      identity, its kind, the optional plain-text body, and the declared MIME
      content type of each attachment. */
  datatype Item = Item(id: string, kind: ItemKind, textBody: Option<string>, attachmentTypes: seq<string>)

  /** The calls the session makes that change or authenticate against the
      remote store, in the order it makes them. */
  datatype Action =
    | Login(username: string, password: string)
    | Accept(item: Item)
    | TentativelyAccept(item: Item, body: string)
    | MarkRead(item: Item)
    | Save(item: Item)

  /** The remote store as the session sees it at one moment. `None` from a
      query is the exception the query raises; `render` is the library's
      textual rendering of an item (`as_string()` of the rebuilt message). */
  datatype Backend = Backend(
    authenticates: (string, string) -> bool,
    unreadCount: string -> Option<nat>,
    unreadItems: string -> Option<seq<Item>>,
    render: Item -> string)

  /** An authenticated `o365` object: the account it was opened for and its
      cached unread list, empty until a query returns something. */
  datatype Handle = Handle(account: string, inboxAll: seq<Item>)

  /** A handle fresh from a successful login: nothing cached yet. */
  function Open(account: string): (h: Handle)
    ensures h.account == account && h.inboxAll == []
  {
    Handle(account, [])
  }

  /** `inbox_all`: the cached list while it is non-empty, otherwise a new
      query whose result is stored; `None` when that query fails. */
  function InboxAll(h: Handle, backend: Backend): (r: Option<Handle>)
    ensures r.Some? ==> r.value.account == h.account
    ensures h.inboxAll != [] ==> r == Some(h)
    ensures h.inboxAll == [] ==> (r.Some? <==> backend.unreadItems(h.account).Some?)
    ensures h.inboxAll == [] && r.Some? ==> r.value.inboxAll == backend.unreadItems(h.account).value
  {
    if h.inboxAll != [] then Some(h)
    else match backend.unreadItems(h.account)
      case None => None
      case Some(items) => Some(Handle(h.account, items))
  }

  /** Once a query has returned a non-empty list, every later access returns
      that list and consults the store no more, whatever the store now holds. */
  lemma InboxAllSticky(h: Handle, first: Backend, later: Backend)
    requires InboxAll(h, first).Some? && InboxAll(h, first).value.inboxAll != []
    ensures InboxAll(InboxAll(h, first).value, later) == InboxAll(h, first)
  {
  }

  /** An empty result is not kept: the next access queries the store again. */
  lemma InboxAllRequeriesEmpty(h: Handle, first: Backend, later: Backend)
    requires InboxAll(h, first) == Some(Handle(h.account, []))
    ensures InboxAll(InboxAll(h, first).value, later) == InboxAll(Open(h.account), later)
  {
  }

  /** `inbox_all[n - 1]`: the 1-based sequence number `n` resolved with
      Python's indexing, so `0` and other small negatives count from the end. */
  function Resolve(snapshot: seq<Item>, n: int): (r: Option<Item>)
    ensures 1 <= n <= |snapshot| ==> r == Some(snapshot[n - 1])
    ensures 1 - |snapshot| <= n <= 0 ==> r == Some(snapshot[|snapshot| + n - 1])
    ensures r.Some? <==> 1 - |snapshot| <= n <= |snapshot|
    ensures r.Some? ==> r.value in snapshot
  {
    Index(snapshot, n - 1)
  }

  /** Whether the RETR rebuild can run on the item: it reads `text_body`
      with no fallback, and splits every attachment type at its first `/`. */
  predicate Renderable(item: Item) {
    && item.textBody.Some?
    && forall i :: 0 <= i < |item.attachmentTypes| ==> '/' in item.attachmentTypes[i]
  }

  const TentativeComment: string := "Meeting conflict, will review"

  /** Whether DELE answers the item's invitation before marking it read. */
  predicate AnswersInvitation(item: Item) {
    item.kind.MeetingRequest? && item.kind.requestType != "InformationalUpdate"
  }

  /** The store calls DELE makes for one item: a calendar reply for a
      meeting request that is not an informational update (accept when it
      conflicts with another meeting, tentative otherwise), then always the
      read flag and the save. */
  function DeleteActions(item: Item): (r: seq<Action>)
    ensures |r| == (if AnswersInvitation(item) then 3 else 2)
    ensures r[|r| - 2..] == [MarkRead(item), Save(item)]
    ensures AnswersInvitation(item) && item.kind.conflictingMeetingCount > 0 ==> r[0] == Accept(item)
    ensures AnswersInvitation(item) && item.kind.conflictingMeetingCount <= 0 ==>
              r[0] == TentativelyAccept(item, TentativeComment)
    ensures forall i :: 0 <= i < |r| ==> r[i].item == item
  {
    var reply :=
      if AnswersInvitation(item) then
        if item.kind.conflictingMeetingCount > 0 then [Accept(item)]
        else [TentativelyAccept(item, TentativeComment)]
      else [];
    reply + [MarkRead(item), Save(item)]
  }

  /** An address as `formataddr` receives it. `Address`, `MapSeq` and
      `RecipientHeader` only illustrate what `assurelist` is for in the
      To/Cc/Bcc headers of the RETR rebuild; the session itself renders an
      item through the `render` oracle of `Backend`. */
  datatype Address = Address(name: string, emailAddress: string)

  /** `assurelist`: an absent list is the empty list, any other is itself. */
  function AssureList<T>(obj: Option<seq<T>>): (r: seq<T>)
    ensures obj.None? ==> r == []
    ensures obj.Some? ==> r == obj.value
  {
    match obj
    case None => []
    case Some(xs) => xs
  }

  function MapSeq<A, B>(f: A -> B, xs: seq<A>): (r: seq<B>)
    ensures |r| == |xs| && forall i :: 0 <= i < |xs| ==> r[i] == f(xs[i])
  {
    seq(|xs|, i requires 0 <= i < |xs| => f(xs[i]))
  }

  /** A To/Cc/Bcc header value: the formatted addresses joined by ", ",
      with `format` standing for the library's `formataddr`. */
  function RecipientHeader(format: Address -> string, recipients: Option<seq<Address>>): string {
    Join(", ", MapSeq(format, AssureList(recipients)))
  }

  /** An absent recipient list and an empty one give the same, empty header. */
  lemma AbsentRecipientsAreEmpty(format: Address -> string)
    ensures RecipientHeader(format, None) == RecipientHeader(format, Some([])) == ""
  {
  }
}
