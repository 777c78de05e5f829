/** Bookings as the bookings page, the booking-details modal and the notifications page show
    them: the date/time cell (24-hour server time shown on a 12-hour clock), the services
    cell, the price total and the customer-name search. */
module Bookings {
  import opened Wrappers
  import opened JsNum
  import opened JsText
  import opened Seqs

  /** A sub-service (add-on) as the server sends it. */
  datatype Subcategory = Subcategory(subcategoryName: Option<string>, subcategoryPrice: Option<int>)

  /** A catalogue service; `subcategory` is the catalogue's own add-on list. */
  datatype Service = Service(serviceName: Option<string>, price: Option<int>,
                             subcategory: Option<seq<Subcategory>>)

  /** One line of a booking: the booked service and the add-ons booked with it. */
  datatype ServiceItem = ServiceItem(service: Option<Service>, subcategories: Option<seq<Subcategory>>)

  datatype Customer = Customer(firstName: Option<string>)

  datatype Booking = Booking(customer: Option<Customer>, services: Option<seq<ServiceItem>>)

  // ---------------------------------------------------------------------------------
  // Date and time cell

  /** `dateString?.split("T")[0]`: the text before the first "T", missing when the date is. */
  function DatePart(dateString: Option<string>): (r: Option<string>)
    ensures dateString.None? <==> r.None?
    ensures r.Some? ==> 'T' !in r.value
    ensures r.Some? ==> |r.value| <= |dateString.value| && dateString.value[..|r.value|] == r.value
    ensures r.Some? && |r.value| < |dateString.value| ==> dateString.value[|r.value|] == 'T'
  {
    match dateString
    case None => None
    case Some(s) =>
      SplitHead(s, 'T');
      Some(Split(s, 'T')[0])
  }

  /** The first piece of a split is a prefix of the text, followed by the separator unless
      it is the whole text. */
  lemma SplitHead(s: string, c: char)
    ensures |Split(s, c)[0]| <= |s| && s[..|Split(s, c)[0]|] == Split(s, c)[0]
    ensures |Split(s, c)[0]| < |s| ==> s[|Split(s, c)[0]|] == c
  {
    var pieces := Split(s, c);
    JoinSplit(s, c);
    if |pieces| > 1 {
      JoinHeadSep(pieces, [c]);
    } else {
      assert Join(pieces, [c]) == pieces[0];
    }
  }

  /** The join of two or more parts starts with the first part and the separator. */
  lemma {:induction false} JoinHeadSep(parts: seq<string>, sep: string)
    requires |parts| > 1
    ensures |Join(parts, sep)| >= |parts[0]| + |sep|
    ensures Join(parts, sep)[..|parts[0]| + |sep|] == parts[0] + sep
    decreases |parts|
  {
    if |parts| == 2 {
      JoinSnoc([parts[0]], parts[1], sep);
      assert parts == [parts[0]] + [parts[1]];
    } else {
      var init := parts[..|parts| - 1];
      JoinHeadSep(init, sep);
      JoinSnoc(init, parts[|parts| - 1], sep);
      assert init + [parts[|parts| - 1]] == parts;
    }
  }

  /** `hour % 12 || 12`: NaN and multiples of 12 show as 12. */
  function Hour12(hour: Option<int>): (r: int)
    ensures hour.None? ==> r == 12
    ensures hour.Some? && hour.value >= 0 ==> 1 <= r <= 12 && r % 12 == hour.value % 12
    ensures hour.Some? && hour.value < 0 ==>
      (r == 12 <==> (-hour.value) % 12 == 0) && (r != 12 ==> r == -((-hour.value) % 12) && -11 <= r <= -1)
  {
    match hour
    case None => 12
    case Some(h) => if Rem(h, 12) == 0 then 12 else Rem(h, 12)
  }

  /** `hour >= 12 ? "PM" : "AM"`: NaN compares false, so it is morning. */
  function Period(hour: Option<int>): (r: string)
    ensures r == "PM" <==> hour.Some? && hour.value >= 12
    ensures r == "AM" <==> !(hour.Some? && hour.value >= 12)
  {
    if hour.Some? && hour.value >= 12 then "PM" else "AM"
  }

  /** The 12-hour clock reading of a 24-hour hour, stated independently: midnight is 12,
      the afternoon hours subtract 12. */
  function ClockHour(h: nat): nat
    requires h < 24
  {
    if h == 0 then 12 else if h <= 12 then h else h - 12
  }

  /** The formatter's hour agrees with the clock reading for every hour of the day, so
      0 and 12 both show as 12. */
  lemma Hour12IsClockHour(h: nat)
    requires h < 24
    ensures Hour12(Some(h)) == ClockHour(h)
    ensures Period(Some(h)) == (if h < 12 then "AM" else "PM")
  {
  }

  /** The time half of the cell: "N/A" without a start time, otherwise
      `${hour12}:${minutes} ${period}` from the pieces around the first ":". */
  function TimePart(startTime: Option<string>): (r: string)
    ensures startTime.None? || startTime.value == "" ==> r == "N/A"
    ensures startTime.Some? && startTime.value != "" ==>
      var hour := ParseInt(Split(startTime.value, ':')[0]);
      |r| >= 2 && (r[|r| - 2..] == "AM" || r[|r| - 2..] == "PM") &&
      (r[|r| - 2..] == "PM" <==> hour.Some? && hour.value >= 12)
  {
    if startTime.None? || startTime.value == "" then "N/A"
    else
      var pieces := Split(startTime.value, ':');
      var hour := ParseInt(pieces[0]);
      var minutes := if |pieces| >= 2 then Some(pieces[1]) else None;
      var r := IntToString(Hour12(hour)) + ":" + Show(minutes) + " " + Period(hour);
      assert r[|r| - 2..] == Period(hour);
      r
  }

  /** `formatDateTime(dateString, startTime)`: "date, time". */
  function FormatDateTime(dateString: Option<string>, startTime: Option<string>): (r: string)
    ensures |r| >= |Show(DatePart(dateString))| + 2
    ensures r[..|Show(DatePart(dateString))| + 2] == Show(DatePart(dateString)) + ", "
    ensures startTime.None? || startTime.value == "" ==> r == Show(DatePart(dateString)) + ", N/A"
  {
    Show(DatePart(dateString)) + ", " + TimePart(startTime)
  }

  /** Two decimal digits, as the server writes hours ("09"). */
  function TwoDigits(n: nat): (r: string)
    requires n < 100
    ensures |r| == 2 && IsDigit(r[0]) && IsDigit(r[1])
  {
    [DigitChar(n / 10), DigitChar(n % 10)]
  }

  lemma TwoDigitsValue(n: nat)
    requires n < 100
    ensures DigitsValue(TwoDigits(n)) == n
  {
    var s := TwoDigits(n);
    assert s[..1][..0] == [];
    assert DigitsValue(s[..1]) == n / 10;
  }

  /** An ISO timestamp's date part is the text before its "T". */
  lemma DatePartIso(day: string, rest: string)
    requires 'T' !in day
    ensures DatePart(Some(day + "T" + rest)) == Some(day)
  {
    SplitAround(day, 'T', rest);
    assert day + "T" + rest == day + ['T'] + rest;
  }

  /** An "HH:mm" start time reads as "h:mm AM|PM" on the 12-hour clock, with the minutes
      copied verbatim. */
  lemma TimePartWellFormed(h: nat, minutes: string)
    requires h < 24 && ':' !in minutes
    ensures TimePart(Some(TwoDigits(h) + ":" + minutes)) ==
      IntToString(ClockHour(h)) + ":" + minutes + " " + (if h < 12 then "AM" else "PM")
  {
    var hh := TwoDigits(h);
    SplitAround(hh, ':', minutes);
    assert hh + ":" + minutes == hh + [':'] + minutes;
    SplitAbsent(minutes, ':');
    assert Split(hh + ":" + minutes, ':') == [hh, minutes];
    TwoDigitsValue(h);
    ParseIntDigitsThenOther(hh, "");
    assert hh + "" == hh;
    Hour12IsClockHour(h);
  }

  /** For a well-formed ISO date and an "HH:mm" start time the cell reads
      "date, h:mm AM|PM". */
  lemma FormatDateTimeWellFormed(day: string, rest: string, h: nat, minutes: string)
    requires 'T' !in day && h < 24 && ':' !in minutes
    ensures FormatDateTime(Some(day + "T" + rest), Some(TwoDigits(h) + ":" + minutes)) ==
      day + ", " + (IntToString(ClockHour(h)) + ":" + minutes + " " + (if h < 12 then "AM" else "PM"))
  {
    DatePartIso(day, rest);
    TimePartWellFormed(h, minutes);
  }

  // ---------------------------------------------------------------------------------
  // Services cell

  /** Where a page reads a line's add-on names: the bookings page reads the add-ons booked
      on the line, the notifications page reads the catalogue service's add-on list. */
  datatype SubSource = BookedAddOns | CatalogueAddOns

  /** `?.map((sub) => sub.subcategoryName).join(", ")`: missing when the list is; a missing
      name joins as empty text. */
  function SubNames(item: ServiceItem, source: SubSource): (r: Option<string>)
    ensures r.None? <==> (match source
                          case BookedAddOns => item.subcategories.None?
                          case CatalogueAddOns => item.service.None? || item.service.value.subcategory.None?)
  {
    var subs := match source
      case BookedAddOns => item.subcategories
      case CatalogueAddOns => if item.service.None? then None else item.service.value.subcategory;
    match subs
    case None => None
    case Some(ss) => Some(Join(seq(|ss|, i requires 0 <= i < |ss| => ss[i].subcategoryName.GetOr("")), ", "))
  }

  /** The line's name: `service?.serviceName || "Unknown Service"`. */
  function MainName(item: ServiceItem): (r: string)
    ensures r == "Unknown Service" || (item.service.Some? && item.service.value.serviceName == Some(r))
    ensures r != "Unknown Service" ==> r != ""
    ensures item.service.None? ==> r == "Unknown Service"
  {
    OrElse(if item.service.None? then None else item.service.value.serviceName, "Unknown Service")
  }

  /** One line: "name (add-ons)" when the joined add-on text is non-empty, else "name". */
  function ItemText(item: ServiceItem, source: SubSource): (r: string)
    ensures |r| >= |MainName(item)| && r[..|MainName(item)|] == MainName(item)
    ensures r == MainName(item) <==> (SubNames(item, source).None? || SubNames(item, source).value == "")
    ensures r != MainName(item) ==> r == MainName(item) + " (" + SubNames(item, source).value + ")"
  {
    var main := MainName(item);
    var subs := SubNames(item, source);
    if subs.Some? && subs.value != "" then
      assert |main + " (" + subs.value + ")"| > |main|;
      main + " (" + subs.value + ")"
    else main
  }

  function ItemTexts(items: seq<ServiceItem>, source: SubSource): (r: seq<string>)
    ensures |r| == |items|
    ensures forall i :: 0 <= i < |items| ==> r[i] == ItemText(items[i], source)
  {
    seq(|items|, i requires 0 <= i < |items| => ItemText(items[i], source))
  }

  /** `formatServices(services)`: "N/A" for a missing or empty list, otherwise the lines
      joined with " | ". */
  function FormatServices(services: Option<seq<ServiceItem>>, source: SubSource): (r: string)
    ensures services.None? || |services.value| == 0 ==> r == "N/A"
    ensures services.Some? && |services.value| == 1 ==> r == ItemText(services.value[0], source)
    ensures services.Some? && |services.value| >= 1 ==>
      |r| >= |ItemText(services.value[0], source)| &&
      r[..|ItemText(services.value[0], source)|] == ItemText(services.value[0], source)
  {
    if services.None? || |services.value| == 0 then "N/A"
    else Join(ItemTexts(services.value, source), " | ")
  }

  /** Adding a line to a non-empty booking appends " | " and that line's text. */
  lemma FormatServicesSnoc(items: seq<ServiceItem>, item: ServiceItem, source: SubSource)
    requires |items| >= 1
    ensures FormatServices(Some(items + [item]), source) ==
      FormatServices(Some(items), source) + " | " + ItemText(item, source)
  {
    assert ItemTexts(items + [item], source) == ItemTexts(items, source) + [ItemText(item, source)];
    JoinSnoc(ItemTexts(items, source), ItemText(item, source), " | ");
  }

  // ---------------------------------------------------------------------------------
  // Price total

  /** `x || 0` on a price. */
  function PriceOr0(p: Option<int>): int {
    p.GetOr(0)
  }

  /** The add-on prices of a list, missing ones counted as 0. */
  function AddOnsTotal(subs: seq<Subcategory>): int {
    if |subs| == 0 then 0 else PriceOr0(subs[0].subcategoryPrice) + AddOnsTotal(subs[1..])
  }

  /** One line's price: the service price plus its booked add-ons. */
  function ItemTotal(item: ServiceItem): int {
    PriceOr0(if item.service.None? then None else item.service.value.price) +
    (if item.subcategories.None? then 0 else AddOnsTotal(item.subcategories.value))
  }

  /** The sum over the booking's lines. */
  function ItemsTotal(items: seq<ServiceItem>): int {
    if |items| == 0 then 0 else ItemTotal(items[0]) + ItemsTotal(items[1..])
  }

  lemma {:induction false} AddOnsTotalSnoc(subs: seq<Subcategory>, s: Subcategory)
    ensures AddOnsTotal(subs + [s]) == AddOnsTotal(subs) + PriceOr0(s.subcategoryPrice)
  {
    if |subs| > 0 {
      assert (subs + [s])[1..] == subs[1..] + [s];
      AddOnsTotalSnoc(subs[1..], s);
    }
  }

  /** Adding a line raises the total by exactly that line's service and add-on prices. */
  lemma {:induction false} ItemsTotalSnoc(items: seq<ServiceItem>, item: ServiceItem)
    ensures ItemsTotal(items + [item]) == ItemsTotal(items) + ItemTotal(item)
  {
    if |items| > 0 {
      assert (items + [item])[1..] == items[1..] + [item];
      ItemsTotalSnoc(items[1..], item);
    }
  }

  /** Every price present in the booking is non-negative. */
  predicate PricesNonNegative(items: seq<ServiceItem>) {
    forall i :: 0 <= i < |items| ==> ItemPricesNonNegative(items[i])
  }

  predicate ItemPricesNonNegative(item: ServiceItem) {
    (item.service.Some? ==> PriceOr0(item.service.value.price) >= 0) &&
    (item.subcategories.Some? ==> forall j :: 0 <= j < |item.subcategories.value| ==>
      PriceOr0(item.subcategories.value[j].subcategoryPrice) >= 0)
  }

  lemma {:induction false} AddOnsTotalNonNegative(subs: seq<Subcategory>)
    requires forall j :: 0 <= j < |subs| ==> PriceOr0(subs[j].subcategoryPrice) >= 0
    ensures AddOnsTotal(subs) >= 0
  {
    if |subs| > 0 {
      AddOnsTotalNonNegative(subs[1..]);
    }
  }

  /** Missing prices count as 0, so with no negative price present the total is not
      negative. */
  lemma {:induction false} ItemsTotalNonNegative(items: seq<ServiceItem>)
    requires PricesNonNegative(items)
    ensures ItemsTotal(items) >= 0
  {
    if |items| > 0 {
      if items[0].subcategories.Some? {
        AddOnsTotalNonNegative(items[0].subcategories.value);
      }
      ItemsTotalNonNegative(items[1..]);
    }
  }

  /** `calculateTotal()`: 0 without lines; otherwise walk the lines, adding the service
      price or 0 and then each add-on price or 0. */
  method CalculateTotal(services: Option<seq<ServiceItem>>) returns (total: int)
    ensures services.None? || |services.value| == 0 ==> total == 0
    ensures services.Some? ==> total == ItemsTotal(services.value)
  {
    if services.None? || |services.value| == 0 {
      return 0;
    }
    var items := services.value;
    total := 0;
    var i := 0;
    while i < |items|
      invariant 0 <= i <= |items|
      invariant total == ItemsTotal(items[..i])
    {
      var item := items[i];
      var lineStart := total;
      total := total + PriceOr0(if item.service.None? then None else item.service.value.price);
      if item.subcategories.Some? && |item.subcategories.value| > 0 {
        var subs := item.subcategories.value;
        var j := 0;
        while j < |subs|
          invariant 0 <= j <= |subs|
          invariant total == lineStart + PriceOr0(if item.service.None? then None else item.service.value.price)
                             + AddOnsTotal(subs[..j])
        {
          AddOnsTotalSnoc(subs[..j], subs[j]);
          assert subs[..j + 1] == subs[..j] + [subs[j]];
          total := total + PriceOr0(subs[j].subcategoryPrice);
          j := j + 1;
        }
        assert subs[..j] == subs;
      }
      ItemsTotalSnoc(items[..i], item);
      assert items[..i + 1] == items[..i] + [item];
      i := i + 1;
    }
    assert items[..i] == items;
  }

  /** The details modal renders nothing when closed or without a booking; otherwise it
      shows the booking's total. */
  function DetailsTotal(isOpen: bool, booking: Option<Booking>): (shown: Option<int>)
    ensures shown.Some? <==> isOpen && booking.Some?
    ensures shown.Some? && (booking.value.services.None? || |booking.value.services.value| == 0) ==>
      shown.value == 0
    ensures shown.Some? && booking.value.services.Some? ==> shown.value == ItemsTotal(booking.value.services.value)
  {
    if !isOpen || booking.None? then None
    else if booking.value.services.None? then Some(0)
    else Some(ItemsTotal(booking.value.services.value))
  }

  // ---------------------------------------------------------------------------------
  // Customer-name search

  /** The outcome of `bookings?.filter(...)`: no list, the kept bookings, or the TypeError
      thrown by `.toLowerCase()` on a customer without a first name. */
  datatype SearchOutcome = NoList | Kept(bookings: seq<Booking>) | TypeError

  /** `b.customer?.firstName.toLowerCase().includes(search.toLowerCase())`: no customer is
      `undefined` (dropped); a customer without a first name throws (`None`). */
  function SearchMatch(b: Booking, search: string): (r: Option<bool>)
    ensures r.None? <==> b.customer.Some? && b.customer.value.firstName.None?
    ensures r == Some(true) <==> (b.customer.Some? && b.customer.value.firstName.Some? &&
                                  Includes(ToLower(b.customer.value.firstName.value), ToLower(search)))
  {
    match b.customer
    case None => Some(false)
    case Some(c) =>
      match c.firstName
      case None => None
      case Some(name) => Some(Includes(ToLower(name), ToLower(search)))
  }

  /** The filter over a present list. */
  function SearchList(bs: seq<Booking>, search: string): (r: SearchOutcome)
    ensures r != NoList
    ensures r == TypeError <==> exists i :: 0 <= i < |bs| && SearchMatch(bs[i], search).None?
    ensures r.Kept? ==> forall b :: b in r.bookings <==> b in bs && SearchMatch(b, search) == Some(true)
    ensures r.Kept? ==> Subseq(r.bookings, bs)
    ensures r.Kept? ==> r.bookings == Filter(bs, b => SearchMatch(b, search) == Some(true))
    ensures r.Kept? ==> forall b :: multiset(r.bookings)[b] == if SearchMatch(b, search) == Some(true) then multiset(bs)[b] else 0
  {
    SearchScan(bs, search)
  }

  /** The scan behind `SearchList`, booking by booking: the first booking whose customer
      has no first name throws, and otherwise the matching bookings are kept. */
  function SearchScan(bs: seq<Booking>, search: string): (r: SearchOutcome)
    ensures r != NoList
    ensures r == TypeError <==> exists i :: 0 <= i < |bs| && SearchMatch(bs[i], search).None?
    ensures r.Kept? ==> r.bookings == Filter(bs, b => SearchMatch(b, search) == Some(true))
  {
    if |bs| == 0 then Kept([])
    else
      match SearchMatch(bs[0], search)
      case None => TypeError
      case Some(keep) =>
        var rest := SearchScan(bs[1..], search);
        if rest == TypeError then
          var i :| 0 <= i < |bs[1..]| && SearchMatch(bs[1..][i], search).None?;
          assert SearchMatch(bs[i + 1], search).None?;
          TypeError
        else
          assert forall i :: 1 <= i < |bs| ==> bs[i] == bs[1..][i - 1];
          var hit := b => SearchMatch(b, search) == Some(true);
          assert Filter(bs, hit) == if keep then [bs[0]] + Filter(bs[1..], hit) else Filter(bs[1..], hit);
          if keep then Kept([bs[0]] + rest.bookings) else Kept(rest.bookings)
  }

  /** `filteredBookings`: missing when the page has no list. */
  function SearchFilter(bookings: Option<seq<Booking>>, search: string): (r: SearchOutcome)
    ensures bookings.None? <==> r == NoList
    ensures bookings.Some? ==> r == SearchList(bookings.value, search)
  {
    if bookings.None? then NoList else SearchList(bookings.value, search)
  }

  /** An empty search keeps exactly the bookings that have a customer, in order. */
  lemma EmptySearchKeepsCustomers(bs: seq<Booking>)
    requires forall i :: 0 <= i < |bs| && bs[i].customer.Some? ==> bs[i].customer.value.firstName.Some?
    ensures SearchList(bs, "").Kept?
    ensures forall b :: b in SearchList(bs, "").bookings <==> b in bs && b.customer.Some?
  {
    forall b | b in bs && b.customer.Some?
      ensures SearchMatch(b, "") == Some(true)
    {
      IncludesTrivial(ToLower(b.customer.value.firstName.value));
    }
  }
}
