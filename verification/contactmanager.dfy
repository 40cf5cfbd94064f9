/** The contact-message inbox (src/components/admin/ContactManager.tsx):
    the status actions offered for a message, the status a message moves
    to, the badge colour of a status, and deletion of the selected
    message. REST calls are responses passed in. */
module ContactInbox {
  import opened Common
  import Api

  const Unread := "unread"
  const Read := "read"
  const Replied := "replied"

  /** The three statuses a stored message can have: the `status` union of
      the message type, which the component itself never tests. */
  predicate KnownStatus(s: string) {
    s == Unread || s == Read || s == Replied
  }

  /** The two buttons of the message dialog. */
  datatype Action = MarkRead | MarkReplied

  /** The status an action asks the API to store. */
  function Target(a: Action): (s: string)
    ensures s == Read || s == Replied
  {
    match a
    case MarkRead => Read
    case MarkReplied => Replied
  }

  /** The buttons shown for a message: "Mark as Read" only while it is
      unread, "Mark as Replied" until it is replied. */
  function Offered(status: string): (acts: seq<Action>)
    ensures MarkRead in acts <==> status == Unread
    ensures MarkReplied in acts <==> status != Replied
  {
    (if status == Unread then [MarkRead] else []) + (if status != Replied then [MarkReplied] else [])
  }

  /** How far along a message is. A device for stating that actions move
      forward; the component has no such ranking. */
  function Rank(status: string): nat
    requires KnownStatus(status)
  {
    if status == Unread then 0 else if status == Read then 1 else 2
  }

  /** Every offered action moves a message strictly forward, so no action
      sets a message back to unread and a replied message has none. */
  lemma OfferedAdvances(status: string, a: Action)
    requires KnownStatus(status) && a in Offered(status)
    ensures Target(a) != Unread
    ensures Rank(Target(a)) > Rank(status)
    ensures status != Replied
  {
  }

  /** A replied message is offered nothing. */
  lemma RepliedIsFinal()
    ensures Offered(Replied) == []
  {
  }

  /** `getStatusColor`: the badge variant of a status. */
  function StatusColor(status: string): (v: string)
    ensures status == Unread ==> v == "destructive"
    ensures status == Replied ==> v == "default"
    ensures status != Unread && status != Replied ==> v == "secondary"
  {
    if status == Unread then "destructive"
    else if status == Read then "secondary"
    else if status == Replied then "default"
    else "secondary"
  }

  /** What an awaited API call gave: thrown, or a response with its
      `success` flag. */
  datatype Response = Failed | Answered(success: bool)

  /** The update `handleUpdateStatus` sends for an offered action. */
  datatype StatusUpdate = StatusUpdate(id: string, status: string)

  function UpdateFor(id: string, a: Action): (u: StatusUpdate)
    ensures u.id == id && u.status != Unread
  {
    StatusUpdate(id, Target(a))
  }

  datatype ContactMessage = ContactMessage(
    id: string, name: string, email: string, subject: string, message: string, status: string)

  /** The delete call as written: `deleteContactMessage` is not a method
      of the API's default export, so the call throws whatever the server
      would have answered. */
  function DeleteCallAsWritten(server: Response): (r: Response)
    ensures r == Failed
  {
    Api.EditorCallsMissing();
    if Api.Invoke("deleteContactMessage", Resolved) == Threw then Failed else server
  }

  class ContactManager {
    var selected: Option<ContactMessage>

    constructor()
      ensures selected.None?
    {
      selected := None;
    }

    /** `handleDelete`: nothing is sent unless the user confirms; the
        dialog closes only when the API answers with success. */
    method HandleDelete(id: string, confirmed: bool, response: Response) returns (sent: Option<string>)
      modifies this`selected
      ensures sent == (if confirmed then Some(id) else None)
      ensures confirmed && response == Answered(true) ==> selected.None?
      ensures !(confirmed && response == Answered(true)) ==> selected == old(selected)
    {
      if !confirmed {
        return None;
      }
      sent := Some(id);
      if response == Answered(true) {
        selected := None;
      }
    }

    /** `handleDelete` as written: a confirmed delete calls a method the
        default export lacks, which throws, so the dialog never closes. */
    method HandleDeleteAsWritten(id: string, confirmed: bool, server: Response) returns (call: Option<Response>)
      modifies this`selected
      ensures !confirmed ==> call.None?
      ensures confirmed ==> call == Some(Failed)
      ensures selected == old(selected)
    {
      if !confirmed {
        return None;
      }
      var r := DeleteCallAsWritten(server);
      var sent := HandleDelete(id, confirmed, r);
      call := Some(r);
    }
  }
}
