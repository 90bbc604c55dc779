/** The landlord's maintenance page: the actions a request card offers for its
    status, the note prompted before a status update, and the relative age shown on
    each card. */
module MaintenancePage {
  import opened Common
  import opened Store
  import Maintenance

  // ---------------------------------------------------------------------------
  // The action area of a request card

  /** What the card shows under a request: buttons moving it to new statuses, the
      resolution of a closed request, or nothing. */
  datatype ActionArea = Buttons(targets: seq<string>) | Resolution(heading: string, note: string) | NoActions

  /** The action area for a request with `status` and `resolutionNote`. */
  function Actions(status: string, resolutionNote: Option<string>): (r: ActionArea)
    ensures r.Buttons? <==> status == "New" || status == "InProgress"
    ensures status == "New" ==> r == Buttons(["InProgress", "Cancelled"])
    ensures status == "InProgress" ==> r == Buttons(["Completed"])
    ensures r.Resolution? <==> Maintenance.Closes(status)
    ensures r.Resolution? ==> r.note == if Truthy(resolutionNote) then resolutionNote.value else "Không có ghi chú"
  {
    if status == "New" then Buttons(["InProgress", "Cancelled"])
    else if status == "InProgress" then Buttons(["Completed"])
    else if status == "Completed" || status == "Cancelled" then
      Resolution(if status == "Completed" then "Giải pháp:" else "Lý do hủy:",
                 if Truthy(resolutionNote) then resolutionNote.value else "Không có ghi chú")
    else NoActions
  }

  /** The buttons only move a request forward in the list's status order, and a
      completed or cancelled request offers none; the page therefore never reopens
      a request, although the server would accept it. */
  lemma ActionsMoveForward(status: string, note: Option<string>)
    ensures var r := Actions(status, note);
      r.Buttons? ==>
        && |r.targets| >= 1
        && forall i :: 0 <= i < |r.targets| ==>
             Maintenance.StatusRank(status) < Maintenance.StatusRank(r.targets[i])
    ensures Maintenance.StatusRank(status) >= 3 ==> !Actions(status, note).Buttons?
  {
  }

  // ---------------------------------------------------------------------------
  // updateStatus

  /** The request body of a status update. */
  datatype StatusUpdate = StatusUpdate(status: string, note: string)

  /** `updateStatus(id, status)`: a closing status prompts for a note, and
      dismissing the prompt (None) sends nothing; any other status is sent with an
      empty note. */
  function UpdateStatus(status: string, answer: Option<string>): (r: Option<StatusUpdate>)
    ensures r.None? <==> Maintenance.Closes(status) && answer.None?
    ensures r.Some? ==> r.value.status == status
    ensures r.Some? && Maintenance.Closes(status) ==> r.value.note == answer.value
    ensures !Maintenance.Closes(status) ==> r == Some(StatusUpdate(status, ""))
  {
    if Maintenance.Closes(status) then
      match answer
      case None => None
      case Some(note) => Some(StatusUpdate(status, note))
    else Some(StatusUpdate(status, ""))
  }

  /** Following a button with an answered prompt, the server stores exactly the
      answer as the resolution note (an empty answer included), together with the
      resolution instant; the other button changes the status alone. */
  lemma ButtonUpdateStored(m: MaintenanceRequest, i: nat, answer: string, now: int)
    requires Actions(m.status, m.resolutionNote).Buttons? && i < |Actions(m.status, m.resolutionNote).targets|
    ensures var target := Actions(m.status, m.resolutionNote).targets[i];
      var sent := UpdateStatus(target, Some(answer));
      && sent.Some?
      && var stored := Maintenance.ApplyStatus(m, sent.value.status, Some(sent.value.note), now);
      && stored.status == target
      && (Maintenance.Closes(target) ==> stored.resolutionNote == Some(answer) && stored.resolvedDate == Some(now))
      && (!Maintenance.Closes(target) ==> stored == m.(status := target))
  {
  }

  // ---------------------------------------------------------------------------
  // timeAgo

  datatype Unit = Year | Month | Day | Hour | Minute

  function UnitSeconds(u: Unit): nat {
    match u
    case Year => 31536000
    case Month => 2592000
    case Day => 86400
    case Hour => 3600
    case Minute => 60
  }

  /** The relative age shown: a count of the largest unit whose ratio exceeds one, or
      "just now". */
  datatype Age = Ago(count: nat, unit: Unit) | JustNow

  /** `timeAgo` on the elapsed milliseconds: the whole seconds elapsed are compared
      with each unit from the year down to the minute; the first unit exceeded
      strictly gives the floor of the ratio. */
  function TimeAgo(elapsedMillis: int): (r: Age)
    ensures var seconds := elapsedMillis / 1000;
      && (r == JustNow <==> seconds <= 60)
      && (r.Ago? ==> seconds > UnitSeconds(r.unit) && r.count == seconds / UnitSeconds(r.unit))
      && (r.Ago? && r.unit != Year ==> seconds <= UnitSeconds(Larger(r.unit)))
  {
    var seconds := elapsedMillis / 1000;
    if seconds > 31536000 then Ago(seconds / 31536000, Year)
    else if seconds > 2592000 then Ago(seconds / 2592000, Month)
    else if seconds > 86400 then Ago(seconds / 86400, Day)
    else if seconds > 3600 then Ago(seconds / 3600, Hour)
    else if seconds > 60 then Ago(seconds / 60, Minute)
    else JustNow
  }

  /** The next unit up. */
  function Larger(u: Unit): Unit
    requires u != Year
  {
    match u
    case Month => Year
    case Day => Month
    case Hour => Day
    case Minute => Hour
  }

  /** A displayed count is at least one, and below the year it stays within the next
      unit up: at most 12 months, 30 days, 24 hours or 60 minutes. */
  lemma TimeAgoCountBounds(elapsedMillis: int)
    ensures var r := TimeAgo(elapsedMillis);
      r.Ago? ==> && r.count >= 1
                 && (r.unit == Month ==> r.count <= 12)
                 && (r.unit == Day ==> r.count <= 30)
                 && (r.unit == Hour ==> r.count <= 24)
                 && (r.unit == Minute ==> r.count <= 60)
  {
  }

  /** The words after the count. */
  function UnitText(u: Unit): (r: string)
    ensures |r| > 2 && r[0] == ' '
  {
    match u
    case Year => " năm trước"
    case Month => " tháng trước"
    case Day => " ngày trước"
    case Hour => " giờ trước"
    case Minute => " phút trước"
  }

  /** The text shown on the card: "Vừa xong" exactly when no unit is exceeded. */
  function TimeAgoText(a: Age): (r: string)
    ensures r == "Vừa xong" <==> a.JustNow?
  {
    match a
    case JustNow => "Vừa xong"
    case Ago(n, u) =>
      assert IsDigit(NatToString(n)[0]);
      NatToString(n) + UnitText(u)
  }

  /** Different ages are shown as different texts, so the text determines the age:
      the count is the longest run of leading digits, and the unit words differ. */
  lemma TimeAgoTextInjective(a: Age, b: Age)
    requires TimeAgoText(a) == TimeAgoText(b)
    ensures a == b
  {
    if a.Ago? && b.Ago? {
      var da, db := NatToString(a.count), NatToString(b.count);
      DigitsBeforeSpace(da, UnitText(a.unit), db, UnitText(b.unit));
      NatToStringInjective(a.count, b.count);
      var ua, ub := UnitText(a.unit), UnitText(b.unit);
      assert ua[1] == ub[1] && ua[2] == ub[2];
    }
  }

  lemma ConcatAt(x: string, y: string, i: int)
    requires 0 <= i < |x| + |y|
    ensures (x + y)[i] == if i < |x| then x[i] else y[i - |x|]
  {
  }

  /** A run of digits followed by a space splits a text in one way only. */
  lemma DigitsBeforeSpace(d1: string, u1: string, d2: string, u2: string)
    requires AllDigits(d1) && AllDigits(d2) && u1 != [] && u2 != [] && u1[0] == ' ' && u2[0] == ' '
    requires d1 + u1 == d2 + u2
    ensures d1 == d2 && u1 == u2
  {
    var t := d1 + u1;
    if |d1| < |d2| {
      ConcatAt(d1, u1, |d1|);
      ConcatAt(d2, u2, |d1|);
      assert false;
    } else if |d2| < |d1| {
      ConcatAt(d1, u1, |d2|);
      ConcatAt(d2, u2, |d2|);
      assert false;
    }
    assert d1 == t[..|d1|] && d2 == t[..|d2|];
    assert u1 == t[|d1|..] && u2 == t[|d2|..];
  }
}
