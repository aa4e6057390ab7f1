/**
 * The edit-event form schema. Each field rule yields at most one issue on the
 * field's own path, and the form is accepted exactly when every rule holds.
 */
module EditEvent {
  import opened Schema

  /** A value after `z.coerce.number()`: a real number, or NaN when the input
      did not read as a number. */
  datatype JsNumber = NaN | Num(value: real)

  datatype EventField = Title | Description | Date | Time | EndTime | Location
                      | Capacity | Category | TicketPrice | Status

  /** The schema's keys, in declaration order. */
  const Fields: seq<EventField> :=
    [Title, Description, Date, Time, EndTime, Location, Capacity, Category, TicketPrice, Status]

  datatype EventForm = EventForm(
    title: string,
    description: string,
    date: string,
    time: string,
    endTime: string,
    location: string,
    capacity: JsNumber,
    category: string,
    ticketPrice: JsNumber,
    status: string)

  /** The values `z.enum([...])` admits for `status`. */
  const Statuses: seq<string> := ["upcoming", "ongoing", "past", "cancelled"]

  predicate AtLeast(n: JsNumber, least: real) {
    n.Num? && n.value >= least
  }

  /** The rule each field must meet, stated on its own. */
  predicate Rule(v: EventForm, f: EventField) {
    match f
    case Title => |v.title| >= 3
    case Description => |v.description| >= 10
    case Date => v.date != ""
    case Time => v.time != ""
    case EndTime => v.endTime != ""
    case Location => |v.location| >= 3
    case Capacity => AtLeast(v.capacity, 1.0)
    case Category => v.category != ""
    case TicketPrice => AtLeast(v.ticketPrice, 0.0)
    case Status => v.status in Statuses
  }

  /** The messages `formSchema` reports; `MessageText` gives each one's wording. */
  datatype EventMessage =
    | TitleTooShort | DescriptionTooShort | DateRequired | TimeRequired | EndTimeRequired
    | LocationTooShort | CapacityTooSmall | CategoryRequired | TicketPriceNegative
    | ExpectedNumber | InvalidStatus(received: string)

  type EventIssue = Issue<EventField, EventMessage>

  function MessageText(m: EventMessage): string {
    match m
    case TitleTooShort => "Title must be at least 3 characters"
    case DescriptionTooShort => "Description must be at least 10 characters"
    case DateRequired => "Date is required"
    case TimeRequired => "Time is required"
    case EndTimeRequired => "End time is required"
    case LocationTooShort => "Location must be at least 3 characters"
    case CapacityTooSmall => "Capacity must be at least 1"
    case CategoryRequired => "Please select a category"
    case TicketPriceNegative => "Ticket price must be a positive number"
    case ExpectedNumber => "Expected number, received nan"
    case InvalidStatus(received) =>
      "Invalid enum value. Expected 'upcoming' | 'ongoing' | 'past' | 'cancelled', received '" + received + "'"
  }

  /** `z.coerce.number().min(least, { message })`: NaN is not a number, and a
      number below `least` is too small. */
  function NumberAtLeast(path: EventField, n: JsNumber, least: real, message: EventMessage): (r: seq<EventIssue>)
    ensures r == [] <==> AtLeast(n, least)
    ensures r == [] || r == [Issue(path, if n.NaN? then ExpectedNumber else message)]
  {
    match n
    case NaN => [Issue(path, ExpectedNumber)]
    case Num(v) => if v < least then [Issue(path, message)] else []
  }

  /** `z.enum(options)`: a value outside the options is reported together
      with the value received. */
  function OneOf(path: EventField, value: string, options: seq<string>): (r: seq<EventIssue>)
    ensures r == [] <==> value in options
    ensures r == [] || r == [Issue(path, InvalidStatus(value))]
  {
    Check(value in options, path, InvalidStatus(value))
  }

  /** The issues of one field of `formSchema`; a field's issue is reported on
      that field and exactly when its rule fails. */
  function FieldIssues(v: EventForm, f: EventField): (r: seq<EventIssue>)
    ensures r == [] <==> Rule(v, f)
    ensures ReportsOn(r, f)
  {
    match f
    case Title => MinLength(f, v.title, 3, TitleTooShort)
    case Description => MinLength(f, v.description, 10, DescriptionTooShort)
    case Date => MinLength(f, v.date, 1, DateRequired)
    case Time => MinLength(f, v.time, 1, TimeRequired)
    case EndTime => MinLength(f, v.endTime, 1, EndTimeRequired)
    case Location => MinLength(f, v.location, 3, LocationTooShort)
    case Capacity => NumberAtLeast(f, v.capacity, 1.0, CapacityTooSmall)
    case Category => MinLength(f, v.category, 1, CategoryRequired)
    case TicketPrice => NumberAtLeast(f, v.ticketPrice, 0.0, TicketPriceNegative)
    case Status => OneOf(f, v.status, Statuses)
  }

  function FieldCheck(v: EventForm): EventField -> seq<EventIssue> {
    (f: EventField) => FieldIssues(v, f)
  }

  /** Every field's rule, spelled out. */
  predicate MeetsRules(v: EventForm) {
    && |v.title| >= 3 && |v.description| >= 10 && v.date != "" && v.time != "" && v.endTime != ""
    && |v.location| >= 3 && AtLeast(v.capacity, 1.0) && v.category != "" && AtLeast(v.ticketPrice, 0.0)
    && v.status in Statuses
  }

  lemma RulesSpelledOut(v: EventForm)
    ensures (forall f :: Rule(v, f)) <==> MeetsRules(v)
  {
    if forall f :: Rule(v, f) {
      assert Rule(v, Title) && Rule(v, Description) && Rule(v, Date) && Rule(v, Time) && Rule(v, EndTime);
      assert Rule(v, Location) && Rule(v, Capacity) && Rule(v, Category) && Rule(v, TicketPrice);
      assert Rule(v, Status);
    }
  }

  /** `formSchema`'s issues, in field order: a field carries an issue exactly
      when its rule fails, so the form is accepted exactly when every rule
      holds. */
  function Issues(v: EventForm): (r: seq<EventIssue>)
    ensures forall f :: f in Paths(r) <==> !Rule(v, f)
    ensures r == [] <==> MeetsRules(v)
  {
    IssuesOverFields(v);
    RulesSpelledOut(v);
    IssuesOver(Fields, FieldCheck(v))
  }

  lemma IssuesOverFields(v: EventForm)
    ensures forall f :: f in Paths(IssuesOver(Fields, FieldCheck(v))) <==> !Rule(v, f)
    ensures IssuesOver(Fields, FieldCheck(v)) == [] <==> forall f :: Rule(v, f)
  {
    PathsOver(Fields, FieldCheck(v));
    forall f
      ensures f in Fields && (FieldCheck(v)(f) == [] <==> Rule(v, f))
    {
      InFields(f);
    }
  }

  lemma InFields(f: EventField)
    ensures f in Fields
  {
    match f
    case Title => assert Fields[0] == f;
    case Description => assert Fields[1] == f;
    case Date => assert Fields[2] == f;
    case Time => assert Fields[3] == f;
    case EndTime => assert Fields[4] == f;
    case Location => assert Fields[5] == f;
    case Capacity => assert Fields[6] == f;
    case Category => assert Fields[7] == f;
    case TicketPrice => assert Fields[8] == f;
    case Status => assert Fields[9] == f;
  }

  /** What the rules do not check: any non-empty start and end times are
      accepted, in either order; any non-empty category is accepted, whether
      or not it is one of the select's options; a free event is accepted; and
      any of the four statuses may be chosen whatever the event's current
      status is. */
  lemma LooseRules(v: EventForm, time: string, endTime: string, category: string, status: string)
    requires Issues(v) == []
    requires time != "" && endTime != "" && category != "" && status in Statuses
    ensures Issues(v.(time := time, endTime := endTime)) == []
    ensures Issues(v.(category := category)) == []
    ensures Issues(v.(ticketPrice := Num(0.0))) == []
    ensures Issues(v.(status := status)) == []
  {
  }
}
