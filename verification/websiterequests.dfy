/** The website-request board (src/components/admin/WebsiteRequestsManager.tsx):
    the statuses a request can be moved to, the badge colour and label of
    a status, and the guarded status write. */
module WebsiteRequests {
  import opened Common
  import opened Text
  import Auth

  const Pending := "pending"
  const InProgress := "in-progress"
  const Completed := "completed"
  const Rejected := "rejected"

  /** The four statuses, in the order the menu lists them. */
  const AllStatuses: seq<string> := [Pending, InProgress, Completed, Rejected]

  const Grey := "bg-gray-100 text-gray-800"

  /** `xs.filter(x => x !== drop)` */
  function Without(xs: seq<string>, drop: string): (r: seq<string>)
    ensures forall y :: y in r <==> y in xs && y != drop
    ensures |r| <= |xs|
  {
    if xs == [] then []
    else if xs[0] == drop then Without(xs[1..], drop)
    else [xs[0]] + Without(xs[1..], drop)
  }

  /** Removing a value that is absent changes nothing. */
  lemma {:induction false} WithoutAbsent(xs: seq<string>, drop: string)
    requires drop !in xs
    ensures Without(xs, drop) == xs
  {
    if xs != [] {
      WithoutAbsent(xs[1..], drop);
      assert xs == [xs[0]] + xs[1..];
    }
  }

  /** Removing a value that occurs once, between `a` and `b`, leaves `a`
      followed by `b`. */
  lemma {:induction false} WithoutOne(a: seq<string>, drop: string, b: seq<string>)
    requires drop !in a && drop !in b
    ensures Without(a + [drop] + b, drop) == a + b
  {
    if a == [] {
      assert a + [drop] + b == [drop] + b;
      assert ([drop] + b)[1..] == b;
      WithoutAbsent(b, drop);
    } else {
      assert (a + [drop] + b)[1..] == a[1..] + [drop] + b;
      WithoutOne(a[1..], drop, b);
      assert a + b == [a[0]] + (a[1..] + b);
    }
  }

  /** `getStatusOptions`: every status except the current one, in menu order. */
  function StatusOptions(current: string): (r: seq<string>)
    ensures current !in r
    ensures forall s :: s in r <==> s in AllStatuses && s != current
  {
    Without(AllStatuses, current)
  }

  /** A known status is offered the three others in menu order; an
      unknown one all four. */
  lemma StatusOptionsSpec(current: string)
    ensures forall k :: 0 <= k < |AllStatuses| && AllStatuses[k] == current ==>
      StatusOptions(current) == AllStatuses[..k] + AllStatuses[k + 1..]
    ensures current !in AllStatuses ==> StatusOptions(current) == AllStatuses
  {
    if current !in AllStatuses {
      WithoutAbsent(AllStatuses, current);
    }
    forall k | 0 <= k < |AllStatuses| && AllStatuses[k] == current
      ensures StatusOptions(current) == AllStatuses[..k] + AllStatuses[k + 1..]
    {
      assert AllStatuses == AllStatuses[..k] + [current] + AllStatuses[k + 1..];
      WithoutOne(AllStatuses[..k], current, AllStatuses[k + 1..]);
    }
  }

  /** `getStatusColor`: one class per known status, grey for anything else. */
  function StatusColor(status: string): (c: string)
    ensures c == Grey <==> status !in AllStatuses
  {
    if status == Pending then "bg-yellow-100 text-yellow-800"
    else if status == InProgress then "bg-blue-100 text-blue-800"
    else if status == Completed then "bg-green-100 text-green-800"
    else if status == Rejected then "bg-red-100 text-red-800"
    else Grey
  }

  /** Distinct known statuses get distinct colours. */
  lemma StatusColorDistinct(a: string, b: string)
    requires a in AllStatuses && b in AllStatuses && a != b
    ensures StatusColor(a) != StatusColor(b)
  {
  }

  /** The badge text: the first '-' becomes a blank, then upper case, so
      it is as long as the status and has no lower-case letter. */
  function StatusLabel(status: string): (r: string)
    ensures |r| == |status|
    ensures forall i :: 0 <= i < |r| ==> !('a' <= r[i] <= 'z')
  {
    ToUpper(ReplaceFirst(status, '-', " "))
  }

  /** A status without '-' is only upper-cased; one with it has its first
      '-' turned into a blank. */
  lemma StatusLabelSpec(status: string)
    ensures '-' !in status ==> StatusLabel(status) == ToUpper(status)
    ensures forall k :: 0 <= k < |status| && status[k] == '-' && '-' !in status[..k] ==>
      StatusLabel(status) == ToUpper(status[..k] + " " + status[k + 1..])
  {
    if '-' !in status {
      ReplaceFirstAbsent(status, '-', " ");
    }
    forall k | 0 <= k < |status| && status[k] == '-' && '-' !in status[..k]
      ensures StatusLabel(status) == ToUpper(status[..k] + " " + status[k + 1..])
    {
      ReplaceFirstAt(status, '-', " ", k);
    }
  }

  /** The badge of "in-progress" reads "IN PROGRESS". */
  lemma InProgressLabel()
    ensures StatusLabel(InProgress) == "IN PROGRESS"
  {
    assert InProgress[2] == '-' && '-' !in InProgress[..2];
    ReplaceFirstAt(InProgress, '-', " ", 2);
    assert ReplaceFirst(InProgress, '-', " ") == "in progress";
  }

  /** The other three badges are their status in upper case. */
  lemma PendingLabel()
    ensures StatusLabel(Pending) == "PENDING"
  {
    ReplaceFirstAbsent(Pending, '-', " ");
  }

  lemma CompletedLabel()
    ensures StatusLabel(Completed) == "COMPLETED"
  {
    ReplaceFirstAbsent(Completed, '-', " ");
  }

  lemma RejectedLabel()
    ensures StatusLabel(Rejected) == "REJECTED"
  {
    ReplaceFirstAbsent(Rejected, '-', " ");
  }

  /** The `updateDoc` of `handleStatusUpdate`; the timestamp is left out. */
  datatype StatusWrite = StatusWrite(id: string, status: string, updatedBy: string)

  /** `handleStatusUpdate`: nothing without a profile, otherwise the new
      status with the editor's uid. The local list is only re-fetched. */
  function StatusUpdate(user: Option<Auth.UserData>, id: string, newStatus: string): (w: Option<StatusWrite>)
    requires newStatus in AllStatuses
    ensures w.Some? <==> user.Some?
    ensures w.Some? ==> w.value.id == id && w.value.status == newStatus && w.value.updatedBy == user.value.uid
  {
    if user.None? then None else Some(StatusWrite(id, newStatus, user.value.uid))
  }
}
