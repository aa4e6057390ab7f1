/**
 * The event detail page: the attendee table with a coloured status badge per
 * attendee, the event status badge, the capitalised labels, and the "Quick
 * Stats" card that counts attendees by status.
 */
module EventDetail {
  import opened Wrappers
  import opened Text
  import opened Seqs

  /** The three values an attendee's status may take. */
  datatype AttendeeStatus = Confirmed | Pending | Cancelled

  datatype Attendee = Attendee(
    id: int,
    name: string,
    email: string,
    registrationDate: string,
    ticketType: string,
    status: AttendeeStatus,
    avatar: Option<string>)

  /** The string literal each status is written as. */
  function StatusName(s: AttendeeStatus): string {
    match s
    case Confirmed => "confirmed"
    case Pending => "pending"
    case Cancelled => "cancelled"
  }

  const GreenBadge := "bg-green-100 text-green-800"
  const YellowBadge := "bg-yellow-100 text-yellow-800"
  const RedBadge := "bg-red-100 text-red-800"
  const BlueBadge := "bg-blue-100 text-blue-800"
  const GrayBadge := "bg-gray-100 text-gray-800"

  /** `getStatusColor`: confirmed is green, pending yellow, cancelled red, and
      any other string gray. */
  function StatusColor(status: string): (r: string)
    ensures r == GreenBadge <==> status == "confirmed"
    ensures r == YellowBadge <==> status == "pending"
    ensures r == RedBadge <==> status == "cancelled"
    ensures r == GrayBadge <==> status !in {"confirmed", "pending", "cancelled"}
  {
    match status
    case "confirmed" => GreenBadge
    case "pending" => YellowBadge
    case "cancelled" => RedBadge
    case _ => GrayBadge
  }

  /** No attendee gets the fallback colour, and different statuses get
      different colours. */
  lemma StatusColorsDistinguishStatuses(s: AttendeeStatus, t: AttendeeStatus)
    ensures StatusColor(StatusName(s)) != GrayBadge
    ensures StatusColor(StatusName(s)) == StatusColor(StatusName(t)) ==> s == t
  {
  }

  /** The event status badge: upcoming is green, ongoing blue, cancelled red;
      everything else, "past" included, is gray. */
  function EventStatusBadge(status: string): (r: string)
    ensures r == GreenBadge <==> status == "upcoming"
    ensures r == BlueBadge <==> status == "ongoing"
    ensures r == RedBadge <==> status == "cancelled"
    ensures r == GrayBadge <==> status !in {"upcoming", "ongoing", "cancelled"}
    ensures status == "past" ==> r == GrayBadge
  {
    if status == "upcoming" then GreenBadge
    else if status == "ongoing" then BlueBadge
    else if status == "cancelled" then RedBadge
    else GrayBadge
  }

  /** The status and category labels: only the first letter changes. */
  lemma StatusLabels()
    ensures Capitalize(StatusName(Confirmed)) == "Confirmed"
    ensures Capitalize(StatusName(Pending)) == "Pending"
    ensures Capitalize(StatusName(Cancelled)) == "Cancelled"
    ensures Capitalize("past") == "Past"
    ensures Capitalize("") == ""
  {
    CapitalizeWord('c', "onfirmed");
    CapitalizeWord('p', "ending");
    CapitalizeWord('c', "ancelled");
    CapitalizeWord('p', "ast");
  }

  /** A word starting with a lower-case letter gains a capital. */
  lemma CapitalizeWord(first: char, rest: string)
    requires IsLower(first)
    ensures Capitalize([first] + rest) == [(first as int - 32) as char] + rest
  {
    assert ([first] + rest)[1..] == rest;
  }

  function HasStatus(status: AttendeeStatus): Attendee -> bool {
    (a: Attendee) => a.status == status
  }

  /** `attendees.filter(a => a.status === status).length`. */
  function Tally(attendees: seq<Attendee>, status: AttendeeStatus): nat {
    |Filter(attendees, HasStatus(status))|
  }

  /** The attendee positions that hold `status`. */
  ghost function PositionsWith(attendees: seq<Attendee>, status: AttendeeStatus): set<nat> {
    set i: nat | i < |attendees| && attendees[i].status == status
  }

  lemma TallyAppend(attendees: seq<Attendee>, a: Attendee, status: AttendeeStatus)
    ensures Tally(attendees + [a], status) == Tally(attendees, status) + if a.status == status then 1 else 0
  {
    FilterConcat(attendees, [a], HasStatus(status));
  }

  /** Each badge shows the number of attendees whose status is exactly that one. */
  lemma {:induction false} TallyCountsAttendees(attendees: seq<Attendee>, status: AttendeeStatus)
    ensures Tally(attendees, status) == |PositionsWith(attendees, status)|
  {
    if attendees == [] {
      assert PositionsWith(attendees, status) == {};
    } else {
      var n := |attendees| - 1;
      var init, last := attendees[..n], attendees[n];
      assert attendees == init + [last];
      TallyCountsAttendees(init, status);
      TallyAppend(init, last, status);
      PositionsAppend(init, last, status);
      if last.status == status {
        assert n !in PositionsWith(init, status);
      }
    }
  }

  lemma PositionsAppend(init: seq<Attendee>, last: Attendee, status: AttendeeStatus)
    ensures PositionsWith(init + [last], status)
         == PositionsWith(init, status) + if last.status == status then {|init|} else {}
  {
    var all := init + [last];
    forall i: nat
      ensures i in PositionsWith(all, status) <==>
              i in PositionsWith(init, status) || (i == |init| && last.status == status)
    {
      if i < |init| {
        assert all[i] == init[i];
      }
    }
  }

  /** The three badges together account for every attendee. */
  lemma {:induction false} TalliesCoverAttendees(attendees: seq<Attendee>)
    ensures Tally(attendees, Confirmed) + Tally(attendees, Pending) + Tally(attendees, Cancelled) == |attendees|
  {
    if attendees != [] {
      var n := |attendees| - 1;
      assert attendees == attendees[..n] + [attendees[n]];
      TalliesCoverAttendees(attendees[..n]);
      TallyAppend(attendees[..n], attendees[n], Confirmed);
      TallyAppend(attendees[..n], attendees[n], Pending);
      TallyAppend(attendees[..n], attendees[n], Cancelled);
    }
  }
}
