/**
 * The public drops page: the drops split by status, a countdown to each
 * upcoming drop, and the "notify me" email box.
 */
module Drops {
  import opened Wrappers
  import opened Seqs
  import opened Text

  /**
   * A drop as this page lists it.  The status is a plain string here, the
   * date a millisecond timestamp (absent on the available drop), and `sold` and
   * `remaining` are optional.
   */
  datatype PublicDrop = PublicDrop(
    id: int,
    image: string,
    title: string,
    edition: int,
    sold: Option<int>,
    price: int,
    status: string,
    dropDate: Option<int>,
    remaining: Option<int>,
    description: string)

  /** Milliseconds per second, minute, hour and day. */
  const Second: int := 1000
  const Minute: int := 60 * Second
  const Hour: int := 60 * Minute
  const Day: int := 24 * Hour

  /** The drops the page shows; their dates are computed from the clock at `loadTime` when the module loads. */
  function PageDrops(loadTime: int): seq<PublicDrop> {
    [
      PublicDrop(1, "sculpture-3.jpg", "The Awakening", 10, None, 2500, "upcoming",
        Some(loadTime + 7 * Day), None, "A limited series exploring consciousness and emergence."),
      PublicDrop(2, "sculpture-1.jpg", "Biomech Series I", 5, None, 4500, "upcoming",
        Some(loadTime + 14 * Day), None, "The first in a series of biomechanical explorations."),
      PublicDrop(3, "sculpture-4.jpg", "Shadow Fragment", 15, Some(15), 1800, "sold_out",
        Some(loadTime - 30 * Day), None, "Capturing the essence of darkness in sculptural form."),
      PublicDrop(4, "sculpture-2.jpg", "Vessel Collection", 8, Some(5), 3200, "available",
        None, Some(3), "Organic vessels that seem to breathe with life.")
    ]
  }

  /** The test `d.status === status`. */
  function HasStatus(status: string): PublicDrop -> bool {
    (d: PublicDrop) => d.status == status
  }

  /** A status other than the three the page has a section for. */
  function UnknownStatus(): PublicDrop -> bool {
    (d: PublicDrop) => d.status != "upcoming" && d.status != "available" && d.status != "sold_out"
  }

  /** The drops of one section: those with the given status, in page order. */
  function WithStatus(drops: seq<PublicDrop>, status: string): (r: seq<PublicDrop>)
    ensures |r| <= |drops|
    ensures forall i :: 0 <= i < |r| ==> r[i] in drops && r[i].status == status
    ensures forall i :: 0 <= i < |drops| && drops[i].status == status ==> drops[i] in r
  {
    Filter(drops, HasStatus(status))
  }

  function UpcomingDrops(drops: seq<PublicDrop>): seq<PublicDrop> { WithStatus(drops, "upcoming") }
  function AvailableDrops(drops: seq<PublicDrop>): seq<PublicDrop> { WithStatus(drops, "available") }
  function PastDrops(drops: seq<PublicDrop>): seq<PublicDrop> { WithStatus(drops, "sold_out") }

  /** A section keeps the page order: it distributes over concatenation. */
  lemma WithStatusAppend(a: seq<PublicDrop>, b: seq<PublicDrop>, status: string)
    ensures WithStatus(a + b, status) == WithStatus(a, status) + WithStatus(b, status)
  {
    FilterAppend(a, b, HasStatus(status));
  }

  /** Every drop of a section has that section's status. */
  lemma SectionStatus(drops: seq<PublicDrop>, status: string)
    ensures forall d :: d in WithStatus(drops, status) ==> d.status == status
  {
    var r := WithStatus(drops, status);
    forall d | d in r ensures d.status == status {
      var i :| 0 <= i < |r| && r[i] == d;
    }
  }

  /** No drop appears in two sections. */
  lemma SectionsDisjoint(drops: seq<PublicDrop>)
    ensures forall d :: d in UpcomingDrops(drops) ==> d !in AvailableDrops(drops) && d !in PastDrops(drops)
    ensures forall d :: d in AvailableDrops(drops) ==> d !in PastDrops(drops)
  {
    SectionStatus(drops, "upcoming");
    SectionStatus(drops, "available");
    SectionStatus(drops, "sold_out");
  }

  /** The three sections and the drops with any other status together count every drop once. */
  lemma {:induction false} SectionsCount(drops: seq<PublicDrop>)
    ensures |UpcomingDrops(drops)| + |AvailableDrops(drops)| + |PastDrops(drops)|
      + |Filter(drops, UnknownStatus())| == |drops|
  {
    if drops != [] {
      SectionsCount(drops[1..]);
    }
  }

  /** When every status is one of the three, the sections hold all the drops between them. */
  lemma SectionsCover(drops: seq<PublicDrop>)
    requires forall i :: 0 <= i < |drops| ==>
      drops[i].status == "upcoming" || drops[i].status == "available" || drops[i].status == "sold_out"
    ensures |UpcomingDrops(drops)| + |AvailableDrops(drops)| + |PastDrops(drops)| == |drops|
    ensures forall i :: 0 <= i < |drops| ==>
      drops[i] in UpcomingDrops(drops) || drops[i] in AvailableDrops(drops) || drops[i] in PastDrops(drops)
  {
    SectionsCount(drops);
    FilterDropsAll(drops, UnknownStatus());
  }

  /** Every drop on the page falls in one of the three sections, and none of them is empty. */
  lemma PageSections(loadTime: int)
    ensures var drops := PageDrops(loadTime);
      |UpcomingDrops(drops)| + |AvailableDrops(drops)| + |PastDrops(drops)| == |drops|
    ensures UpcomingDrops(PageDrops(loadTime)) != []
    ensures AvailableDrops(PageDrops(loadTime)) != []
    ensures PastDrops(PageDrops(loadTime)) != []
  {
    var drops := PageDrops(loadTime);
    SectionsCover(drops);
    assert drops[0].status == "upcoming" && drops[3].status == "available" && drops[2].status == "sold_out";
  }

  /** The countdown's state; each part counts whole units. */
  datatype TimeLeft = TimeLeft(days: nat, hours: nat, minutes: nat, seconds: nat)

  /** Division with remainder is unique: a quotient and a remainder in range are `x / b` and `x % b`. */
  lemma DivModUnique(x: int, b: int, q: int, r: int)
    requires b > 0 && 0 <= r < b && x == q * b + r
    ensures x / b == q && x % b == r
  {
    var d := q - x / b;
    assert d * b == x % b - r;
  }

  /** Taking the remainder by a multiple of `b` first does not change the remainder by `b`. */
  lemma ModOfMod(x: int, b: int, c: int)
    requires b > 0 && c > 0
    ensures (x % (b * c)) % b == x % b
  {
    var q, r := x / (b * c), x % (b * c);
    assert x == q * (b * c) + r;
    assert r == (r / b) * b + r % b;
    assert q * (b * c) == (q * c) * b;
    DivModUnique(x, b, q * c + r / b, r % b);
  }

  /**
   * The split of a positive distance in milliseconds into days, hours,
   * minutes and seconds, each rounded down.
   */
  function Decompose(distance: int): (t: TimeLeft)
    requires distance > 0
    ensures t.hours < 24 && t.minutes < 60 && t.seconds < 60
    ensures t.days * Day + t.hours * Hour + t.minutes * Minute + t.seconds * Second
      + distance % Second == distance
  {
    var t := TimeLeft(distance / Day, (distance % Day) / Hour, (distance % Hour) / Minute,
      (distance % Minute) / Second);
    ModOfMod(distance, Hour, 24);
    ModOfMod(distance, Minute, 60);
    ModOfMod(distance, Second, 60);
    t
  }

  /** The split is the only one with parts in range: any other reading of the same distance is it. */
  lemma DecomposeUnique(distance: int, t: TimeLeft, ms: int)
    requires distance > 0
    requires t.hours < 24 && t.minutes < 60 && t.seconds < 60 && 0 <= ms < Second
    requires t.days * Day + t.hours * Hour + t.minutes * Minute + t.seconds * Second + ms == distance
    ensures t == Decompose(distance)
  {
    var below := t.hours * Hour + t.minutes * Minute + t.seconds * Second + ms;
    assert 0 <= below < Day;
    assert t.days == distance / Day;
    var belowHour := t.minutes * Minute + t.seconds * Second + ms;
    assert below == distance % Day;
    assert t.hours == below / Hour && belowHour == below % Hour;
    var belowMinute := t.seconds * Second + ms;
    ModOfMod(distance, Hour, 24);
    assert t.minutes == belowHour / Minute && belowMinute == belowHour % Minute;
    ModOfMod(distance, Minute, 60);
    assert t.seconds == belowMinute / Second;
  }

  /** `String(value).padStart(2, "0")`. */
  function PadTwo(v: nat): string {
    PadStart(NatToDecimal(v), 2, '0')
  }

  /** A padded value is at least two digits long and reads back as the value. */
  lemma PadTwoValue(v: nat)
    ensures |PadTwo(v)| >= 2 && IsDigits(PadTwo(v))
    ensures DecimalValue(PadTwo(v)) == v
  {
    var s := NatToDecimal(v);
    DecimalRoundTrip(v);
    if |s| < 2 {
      LeadingZerosValue(2 - |s|, s);
    }
  }

  /** Values of two or more digits are shown unchanged; a one-digit value gets one leading zero. */
  lemma PadTwoShape(v: nat)
    ensures v >= 10 ==> PadTwo(v) == NatToDecimal(v)
    ensures v < 10 ==> PadTwo(v) == ['0'] + NatToDecimal(v)
  {
  }

  /** The countdown as displayed: each part, in the order the state lists them, with its label. */
  function Display(t: TimeLeft): seq<(string, string)> {
    [("days", PadTwo(t.days)), ("hours", PadTwo(t.hours)),
     ("minutes", PadTwo(t.minutes)), ("seconds", PadTwo(t.seconds))]
  }

  /** Every displayed part is at least two digits and reads back as the part it shows. */
  lemma DisplayReadsBack(t: TimeLeft)
    ensures |Display(t)| == 4
    ensures forall i :: 0 <= i < 4 ==> |Display(t)[i].1| >= 2 && IsDigits(Display(t)[i].1)
    ensures DecimalValue(Display(t)[0].1) == t.days && DecimalValue(Display(t)[1].1) == t.hours
    ensures DecimalValue(Display(t)[2].1) == t.minutes && DecimalValue(Display(t)[3].1) == t.seconds
  {
    var shown := Display(t);
    assert shown[0].1 == PadTwo(t.days) && shown[1].1 == PadTwo(t.hours);
    assert shown[2].1 == PadTwo(t.minutes) && shown[3].1 == PadTwo(t.seconds);
    PadTwoValue(t.days);
    PadTwoValue(t.hours);
    PadTwoValue(t.minutes);
    PadTwoValue(t.seconds);
    forall i | 0 <= i < 4 ensures |shown[i].1| >= 2 && IsDigits(shown[i].1) {
      assert i == 0 || i == 1 || i == 2 || i == 3;
    }
  }

  /** The countdown to one drop; the interval timer calls `Tick` with the current time each second. */
  class Countdown {
    const targetDate: int
    var timeLeft: TimeLeft

    constructor (targetDate: int)
      ensures this.targetDate == targetDate && timeLeft == TimeLeft(0, 0, 0, 0)
    {
      this.targetDate := targetDate;
      timeLeft := TimeLeft(0, 0, 0, 0);
    }

    /** Recomputes the parts while the target lies ahead; once it has passed, they freeze. */
    method Tick(now: int)
      modifies this
      ensures targetDate - now > 0 ==> timeLeft == Decompose(targetDate - now)
      ensures targetDate - now <= 0 ==> timeLeft == old(timeLeft)
    {
      var distance := targetDate - now;
      if distance > 0 {
        timeLeft := Decompose(distance);
      }
    }
  }

  /** What the notify button reports. */
  datatype Notice = EmailRequired | NotificationSet(message: string)

  /** The state of the drops page: the email box. */
  class DropsPage {
    var email: string

    constructor ()
      ensures email == ""
    {
      email := "";
    }

    method SetEmail(e: string)
      modifies this
      ensures email == e
    {
      email := e;
    }

    /** Without an email the request is refused and the box kept; otherwise it is confirmed and the box cleared. */
    method HandleNotify(dropTitle: string) returns (n: Notice)
      modifies this
      ensures old(email) == "" ==> n == EmailRequired && email == old(email)
      ensures old(email) != "" ==>
        n == NotificationSet("You'll be notified when \"" + dropTitle + "\" drops.") && email == ""
    {
      if email == "" {
        n := EmailRequired;
        return;
      }
      n := NotificationSet("You'll be notified when \"" + dropTitle + "\" drops.");
      email := "";
    }
  }
}
