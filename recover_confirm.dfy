/** The confirmation page of account recovery: the toast that answers each status message
    on the recovery channel, the redirect guard on the pending user operations, and the
    confirm submission. The router, the toaster, analytics and the recovery store are
    collaborators; what the page does to them is recorded as a sequence of effects. */
module RecoverConfirm {
  import Auth

  /** The statuses of a relayed transaction and their wire names. */
  datatype TxStatus = Pending | Succeeded | Failed

  function StatusText(t: TxStatus): string
  {
    match t
    case Pending => "pending"
    case Succeeded => "success"
    case Failed => "failed"
  }

  const SuccessText := StatusText(Succeeded)

  /** The three statuses have distinct wire names, so the page's comparison against the
      success name singles out exactly the succeeded status. */
  lemma StatusTextInjective(a: TxStatus, b: TxStatus)
    ensures StatusText(a) == StatusText(b) <==> a == b
  {
  }

  /** A message on the recovery channel: the status as sent, and the hash when present. */
  datatype ChannelMessage = ChannelMessage(status: string, transactionHash: Auth.Option<string>)

  datatype ToastKind = SuccessKind | ErrorKind | InfoKind

  /** A plain description, or the failure text with its link to the block explorer. */
  datatype Description = Plain(text: string) | ExplorerLink(href: string)

  datatype Toast = Toast(
    title: string,
    description: Description,
    kind: ToastKind,
    position: string,
    durationMs: nat,
    isClosable: bool,
    onCloseComplete: Auth.Option<Auth.Route>)

  datatype AnalyticsEvent = RecoverAccountConfirm | RecoverAccountConfirmSuccess

  datatype Effect =
    | ShowToast(toast: Toast)
    | LogEvent(event: AnalyticsEvent)
    | Complete
    | Navigate(route: Auth.Route)
    | SubmitConfirm(password: string)

  const ToastPosition := "top-right"
  const ToastDurationMs := 5000

  /** A template literal renders an absent hash as the text "undefined". */
  function HashText(h: Auth.Option<string>): (r: string)
    ensures h.Some? ==> r == h.value
    ensures h.None? ==> r == "undefined"
  {
    if h.Some? then h.value else "undefined"
  }

  function ExplorerTxUrl(explorer: string, h: Auth.Option<string>): string
  {
    explorer + "/tx/" + HashText(h)
  }

  /** The toast for one channel message. Only the success status announces success and
      closes into the login page; every other status, `pending` included, is shown as a
      failure with the link to the transaction. */
  function StatusToast(m: ChannelMessage, explorer: string): (t: Toast)
    ensures t.kind == SuccessKind <==> m.status == SuccessText
    ensures t.kind != InfoKind
    ensures t.onCloseComplete.Some? <==> m.status == SuccessText
    ensures t.onCloseComplete.Some? ==> t.onCloseComplete.value == Auth.Login
    ensures m.status == SuccessText ==>
              t.title == "Account recovery success" && t.description == Plain("Redirecting to login in 5 seconds.")
    ensures m.status != SuccessText ==>
              t.title == "Account recovery fail" && t.description == ExplorerLink(ExplorerTxUrl(explorer, m.transactionHash))
    ensures t.position == ToastPosition && t.durationMs == ToastDurationMs && t.isClosable
  {
    var success := m.status == SuccessText;
    Toast(
      if success then "Account recovery success" else "Account recovery fail",
      if success then Plain("Redirecting to login in 5 seconds.")
      else ExplorerLink(ExplorerTxUrl(explorer, m.transactionHash)),
      if success then SuccessKind else ErrorKind,
      ToastPosition,
      ToastDurationMs,
      true,
      if success then Auth.Some(Auth.Login) else Auth.None)
  }

  /** A pending status is reported as a failed recovery. */
  lemma PendingShowsFailure(h: Auth.Option<string>, explorer: string)
    ensures var t := StatusToast(ChannelMessage(StatusText(Pending), h), explorer);
      t.kind == ErrorKind && t.onCloseComplete == Auth.None
  {
    StatusTextInjective(Pending, Succeeded);
  }

  /** The effects of one channel message: the toast, the success event when it succeeded,
      and the store's completion, which always comes last. */
  function ChannelEffects(m: ChannelMessage, explorer: string): (r: seq<Effect>)
    ensures 2 <= |r| <= 3 && r[0] == ShowToast(StatusToast(m, explorer)) && r[|r| - 1] == Complete
    ensures LogEvent(RecoverAccountConfirmSuccess) in r <==> m.status == SuccessText
    ensures multiset(r)[Complete] == 1
    ensures forall route :: Navigate(route) !in r
  {
    [ShowToast(StatusToast(m, explorer))]
    + (if m.status == SuccessText then [LogEvent(RecoverAccountConfirmSuccess)] else [])
    + [Complete]
  }

  /** The channel does not deduplicate: a message delivered twice shows two toasts and
      completes twice. */
  lemma RedeliveryRepeatsEffects(m: ChannelMessage, explorer: string)
    ensures var r := ChannelEffects(m, explorer) + ChannelEffects(m, explorer);
      multiset(r)[Complete] == 2 && multiset(r)[ShowToast(StatusToast(m, explorer))] == 2
  {
    var e := ChannelEffects(m, explorer);
    assert multiset(e + e) == multiset(e) + multiset(e);
    assert multiset(e)[ShowToast(StatusToast(m, explorer))] == 1;
  }

  const InitiatedToast := Toast(
    "Recovery initiated",
    Plain("This might take a minute. Stay on this page for updates..."),
    InfoKind,
    ToastPosition,
    ToastDurationMs,
    true,
    Auth.None)

  /** The page's effects so far. */
  class ConfirmPage {
    const explorer: string
    var trace: seq<Effect>

    constructor (explorer: string)
      ensures this.explorer == explorer && trace == []
    {
      this.explorer := explorer;
      trace := [];
    }

    /** The channel callback. */
    method OnChannelMessage(m: ChannelMessage)
      modifies this`trace
      ensures trace == old(trace) + ChannelEffects(m, explorer)
    {
      var t := StatusToast(m, explorer);
      trace := trace + [ShowToast(t)];
      if m.status == SuccessText {
        trace := trace + [LogEvent(RecoverAccountConfirmSuccess)];
      }
      trace := trace + [Complete];
    }

    /** The toaster has finished closing `t`. */
    method OnToastClosed(t: Toast)
      modifies this`trace
      ensures t.onCloseComplete.Some? ==> trace == old(trace) + [Navigate(t.onCloseComplete.value)]
      ensures t.onCloseComplete.None? ==> trace == old(trace)
    {
      if t.onCloseComplete.Some? {
        trace := trace + [Navigate(t.onCloseComplete.value)];
      }
    }

    /** The effect on `[userOperations]`: without pending user operations (`null` or
        `undefined`) the page sends the visitor back to the lookup page. Any array counts
        as present, an empty one included. */
    method OnUserOperationsChange<T>(userOperations: Auth.Option<seq<T>>)
      modifies this`trace
      ensures userOperations.None? ==> trace == old(trace) + [Navigate(Auth.RecoverLookup)]
      ensures userOperations.Some? ==> trace == old(trace)
    {
      if userOperations.None? {
        trace := trace + [Navigate(Auth.RecoverLookup)];
      }
    }

    /** `onConfirmTrasaction`: the confirm call first; only when it resolves are the event
        logged and the "initiated" toast shown. A rejection propagates as `threw`. */
    method OnConfirmTransaction(password: string, confirmThrows: bool) returns (threw: bool)
      modifies this`trace
      ensures threw == confirmThrows
      ensures confirmThrows ==> trace == old(trace) + [SubmitConfirm(password)]
      ensures !confirmThrows ==>
                trace == old(trace) + [SubmitConfirm(password), LogEvent(RecoverAccountConfirm), ShowToast(InitiatedToast)]
    {
      trace := trace + [SubmitConfirm(password)];
      if confirmThrows {
        return true;
      }
      trace := trace + [LogEvent(RecoverAccountConfirm)];
      trace := trace + [ShowToast(InitiatedToast)];
      threw := false;
    }
  }
}
