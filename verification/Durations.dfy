/** Durations as text, and back: paywall/src/utils/durations.js. */
module Durations {
  import opened Prelude

  datatype Unit = Days | Hours | Minutes | Seconds

  function SecondsIn(u: Unit): nat {
    match u
    case Days => 86400
    case Hours => 3600
    case Minutes => 60
    case Seconds => 1
  }

  /** An amount of a unit, in seconds. */
  function InSeconds(amount: real, u: Unit): real {
    match u
    case Days => amount * 86400.0
    case Hours => amount * 3600.0
    case Minutes => amount * 60.0
    case Seconds => amount
  }

  function WholeInSeconds(n: int, u: Unit): int {
    match u
    case Days => n * 86400
    case Hours => n * 3600
    case Minutes => n * 60
    case Seconds => n
  }

  /** The name of a property of the intervals object. */
  function Name(u: Unit): string {
    match u
    case Days => "days"
    case Hours => "hours"
    case Minutes => "minutes"
    case Seconds => "seconds"
  }

  /** An interval; the object's properties are listed in the order in which they were added. */
  datatype Interval = Interval(unit: Unit, amount: real)

  function Durations(seconds: real, intervals: seq<Interval>): seq<Interval>
    decreases seconds.Floor
  {
    if seconds == 0.0 then intervals
    else if seconds < 60.0 then intervals + [Interval(Seconds, seconds)]
    else if seconds < 3600.0 then
      var minutes := (seconds / 60.0).Floor;
      Durations(seconds - (minutes * 60) as real, intervals + [Interval(Minutes, minutes as real)])
    else if seconds < 86400.0 then
      var hours := (seconds / 3600.0).Floor;
      Durations(seconds - (hours * 3600) as real, intervals + [Interval(Hours, hours as real)])
    else
      var days := (seconds / 86400.0).Floor;
      Durations(seconds - (days * 86400) as real, intervals + [Interval(Days, days as real)])
  }

  /** A nonnegative whole number in decimal. */
  function Digits(n: nat): string {
    if n < 10 then [Digit(n)] else Digits(n / 10) + [Digit(n % 10)]
  }

  function Digit(d: nat): char
    requires d < 10
  {
    ('0' as int + d) as char
  }

  function Show(n: int): string {
    if n < 0 then "-" + Digits(-n) else Digits(n)
  }

  /** The word for a whole number of units. */
  function Word(unit: Unit, n: int): string {
    if n != 1 then Name(unit) else Name(unit)[..|Name(unit)| - 1]
  }

  /** "3 hours", or "1 hour" for exactly one. */
  function Label(i: Interval): string {
    Show(i.amount.Floor) + " " + Word(i.unit, i.amount.Floor)
  }

  /** The labels of the intervals whose whole part is not zero. */
  function Labels(intervals: seq<Interval>): seq<string> {
    if intervals == [] then []
    else (if intervals[0].amount.Floor != 0 then [Label(intervals[0])] else []) + Labels(intervals[1..])
  }

  function AsArray(seconds: real): seq<string> {
    Labels(Durations(seconds, []))
  }

  function Join(parts: seq<string>, separator: string): string {
    if parts == [] then "" else if |parts| == 1 then parts[0] else parts[0] + separator + Join(parts[1..], separator)
  }

  function Phrase(parts: seq<string>): string {
    if parts == [] then ""
    else if |parts| == 1 then parts[0]
    else Join(parts[..|parts| - 1], ", ") + " and " + parts[|parts| - 1]
  }

  function AsText(seconds: real): string {
    Phrase(AsArray(seconds))
  }

  // ---------------------------------------------------------------- the mixed-radix form

  /** The largest amount of a unit below which it stays within the next larger unit. */
  predicate WithinUnit(i: Interval) {
    match i.unit
    case Days => true
    case Hours => i.amount < 24.0
    case Minutes => i.amount < 60.0
    case Seconds => i.amount < 60.0
  }

  /** Positive, whole except for seconds, and within the next larger unit. */
  predicate WellSized(i: Interval) {
    && i.amount > 0.0 && WithinUnit(i)
    && (!i.unit.Seconds? ==> i.amount == i.amount.Floor as real)
  }

  ghost predicate MixedRadix(intervals: seq<Interval>) {
    && (forall k :: 0 <= k < |intervals| ==> WellSized(intervals[k]))
    && (forall j, k :: 0 <= j < k < |intervals| ==> SecondsIn(intervals[j].unit) > SecondsIn(intervals[k].unit))
  }

  function Total(intervals: seq<Interval>): real {
    if intervals == [] then 0.0
    else InSeconds(intervals[0].amount, intervals[0].unit) + Total(intervals[1..])
  }

  /** The largest unit that fits into the seconds, and how often it does. */
  function Largest(seconds: real): (r: (Unit, nat))
    requires 60.0 <= seconds
    ensures var whole := WholeInSeconds(r.1, r.0) as real; 0.0 <= seconds - whole < SecondsIn(r.0) as real
    ensures r.1 > 0 && WithinUnit(Interval(r.0, r.1 as real)) && !r.0.Seconds?
  {
    if seconds < 3600.0 then (Minutes, (seconds / 60.0).Floor)
    else if seconds < 86400.0 then (Hours, (seconds / 3600.0).Floor)
    else (Days, (seconds / 86400.0).Floor)
  }

  function Rest(seconds: real): (r: real)
    requires 60.0 <= seconds
    ensures 0.0 <= r < SecondsIn(Largest(seconds).0) as real && r.Floor < seconds.Floor
  {
    var (unit, amount) := Largest(seconds);
    seconds - WholeInSeconds(amount, unit) as real
  }

  function First(seconds: real): Interval
    requires 60.0 <= seconds
  {
    Interval(Largest(seconds).0, Largest(seconds).1 as real)
  }

  /** The accumulator is only ever extended. */
  lemma {:induction false} DurationsAppend(seconds: real, intervals: seq<Interval>)
    requires 0.0 <= seconds
    ensures Durations(seconds, intervals) == intervals + Durations(seconds, [])
    decreases seconds.Floor
  {
    if seconds >= 60.0 {
      assert Durations(seconds, intervals) == Durations(Rest(seconds), intervals + [First(seconds)]);
      assert Durations(seconds, []) == Durations(Rest(seconds), [] + [First(seconds)]);
      DurationsAppend(Rest(seconds), intervals + [First(seconds)]);
      DurationsAppend(Rest(seconds), [] + [First(seconds)]);
    }
  }

  lemma DurationsStep(seconds: real)
    requires 60.0 <= seconds
    ensures Durations(seconds, []) == [First(seconds)] + Durations(Rest(seconds), [])
  {
    assert Durations(seconds, []) == Durations(Rest(seconds), [] + [First(seconds)]);
    DurationsAppend(Rest(seconds), [] + [First(seconds)]);
  }

  /** Fewer seconds than a unit has are made up of smaller units. */
  lemma {:induction false} SmallerUnits(seconds: real, unit: Unit)
    requires 0.0 <= seconds < SecondsIn(unit) as real && !unit.Seconds?
    ensures forall k :: 0 <= k < |Durations(seconds, [])| ==>
      SecondsIn(Durations(seconds, [])[k].unit) < SecondsIn(unit)
    decreases seconds.Floor
  {
    if seconds >= 60.0 {
      DurationsStep(seconds);
      SmallerUnits(Rest(seconds), First(seconds).unit);
    }
  }

  lemma FirstIsLargest(seconds: real)
    requires 60.0 <= seconds
    ensures WellSized(First(seconds)) && !First(seconds).unit.Seconds?
    ensures InSeconds(First(seconds).amount, First(seconds).unit) + Rest(seconds) == seconds
  {
  }

  /** The intervals are in mixed-radix form and add up to the seconds. */
  lemma {:induction false} DurationsAreMixedRadix(seconds: real)
    requires 0.0 <= seconds
    ensures MixedRadix(Durations(seconds, [])) && Total(Durations(seconds, [])) == seconds
    decreases seconds.Floor
  {
    if seconds >= 60.0 {
      DurationsStep(seconds);
      FirstIsLargest(seconds);
      DurationsAreMixedRadix(Rest(seconds));
      SmallerUnits(Rest(seconds), First(seconds).unit);
    }
  }

  /** Nothing comes after seconds. */
  lemma SecondsComeLast(intervals: seq<Interval>)
    requires MixedRadix(intervals) && intervals != [] && intervals[0].unit.Seconds?
    ensures intervals == [intervals[0]]
  {
    assert |intervals| > 1 ==> SecondsIn(intervals[0].unit) > SecondsIn(intervals[1].unit);
  }

  /** Intervals below a unit add up to less than the unit. */
  lemma {:induction false} SmallTotal(intervals: seq<Interval>, unit: Unit)
    requires MixedRadix(intervals)
    requires forall k :: 0 <= k < |intervals| ==> SecondsIn(intervals[k].unit) < SecondsIn(unit)
    ensures 0.0 <= Total(intervals) < SecondsIn(unit) as real
    decreases |intervals|
  {
    if intervals != [] {
      var first := intervals[0];
      assert WellSized(first);
      if first.unit.Seconds? {
        SecondsComeLast(intervals);
      } else {
        SmallTotal(intervals[1..], first.unit);
      }
    }
  }

  /** Division with remainder has one answer. */
  lemma QuotientIs(unit: Unit, a: int, rest: real, b: int, other: real)
    requires 0.0 <= rest < SecondsIn(unit) as real && 0.0 <= other < SecondsIn(unit) as real
    requires WholeInSeconds(a, unit) as real + rest == WholeInSeconds(b, unit) as real + other
    ensures a == b && rest == other
  {
  }

  lemma UnitIs(seconds: real, first: Interval, rest: real)
    requires WellSized(first) && !first.unit.Seconds? && 0.0 <= rest < SecondsIn(first.unit) as real
    requires seconds == WholeInSeconds(first.amount.Floor, first.unit) as real + rest
    ensures 60.0 <= seconds && Largest(seconds).0 == first.unit
  {
    assert first.amount.Floor >= 1;
  }

  lemma FirstIs(seconds: real, first: Interval, rest: real)
    requires WellSized(first) && !first.unit.Seconds? && 0.0 <= rest < SecondsIn(first.unit) as real
    requires seconds == InSeconds(first.amount, first.unit) + rest
    ensures 60.0 <= seconds && First(seconds) == first && Rest(seconds) == rest
  {
    var n := first.amount.Floor;
    assert InSeconds(first.amount, first.unit) == WholeInSeconds(n, first.unit) as real;
    UnitIs(seconds, first, rest);
    var (unit, amount) := Largest(seconds);
    QuotientIs(unit, n, rest, amount, Rest(seconds));
  }

  /** Each nonnegative number of seconds has one mixed-radix form only. */
  lemma {:induction false} MixedRadixIsUnique(seconds: real, intervals: seq<Interval>)
    requires MixedRadix(intervals) && Total(intervals) == seconds
    ensures 0.0 <= seconds && intervals == Durations(seconds, [])
    decreases |intervals|
  {
    if intervals != [] {
      var first := intervals[0];
      assert WellSized(first);
      if first.unit.Seconds? {
        SecondsComeLast(intervals);
      } else {
        SmallTotal(intervals[1..], first.unit);
        FirstIs(seconds, first, Total(intervals[1..]));
        MixedRadixIsUnique(Rest(seconds), intervals[1..]);
        DurationsStep(seconds);
      }
    }
  }

  // ---------------------------------------------------------------- reading the text back

  predicate IsDigit(c: char) {
    '0' <= c <= '9'
  }

  function DigitsLength(t: string): (n: nat)
    ensures n <= |t|
  {
    if t == "" || !IsDigit(t[0]) then 0 else 1 + DigitsLength(t[1..])
  }

  function LettersLength(t: string): (n: nat)
    ensures n <= |t|
  {
    if t == "" || !('a' <= t[0] <= 'z') then 0 else 1 + LettersLength(t[1..])
  }

  function DigitValue(c: char): nat {
    if IsDigit(c) then c as int - '0' as int else 0
  }

  function Number(digits: string): nat {
    if digits == "" then 0
    else Number(digits[..|digits| - 1]) * 10 + DigitValue(digits[|digits| - 1])
  }

  const UNITS := [Days, Hours, Minutes, Seconds]

  /** The word for a number of units: the singular for exactly one. */
  function UnitWord(unit: Unit, n: nat): string {
    match unit
    case Days => if n == 1 then "day" else "days"
    case Hours => if n == 1 then "hour" else "hours"
    case Minutes => if n == 1 then "minute" else "minutes"
    case Seconds => if n == 1 then "second" else "seconds"
  }

  /** The first of the units that the word names after the number n. */
  function UnitNamed(units: seq<Unit>, word: string, n: nat): Option<Unit> {
    if units == [] then None
    else if word == UnitWord(units[0], n) then Some(units[0])
    else UnitNamed(units[1..], word, n)
  }

  /** A positive number without leading zeros and the word after it, which a text begins with, and what follows. */
  datatype Token = Token(number: nat, word: string, rest: string)

  function Splitting(number: nat, t: string): (r: Token)
    ensures |r.rest| <= |t|
  {
    Token(number, t[..LettersLength(t)], t[LettersLength(t)..])
  }

  function NextToken(t: string): (r: Option<Token>)
    ensures r.Some? ==> |r.value.rest| < |t|
  {
    var d := DigitsLength(t);
    if d == 0 || d == |t| || t[d] != ' ' || t[0] == '0' then None else Some(Splitting(Number(t[..d]), t[d + 1..]))
  }

  function Plus(n: nat, rest: Option<nat>): Option<nat> {
    if rest.None? then None else Some(n + rest.value)
  }

  /** Where in the text an interval stands: anything may follow the first, "and" must come, or nothing may. */
  datatype Place = Start | Middle | Last

  /**
   * The seconds of a list of intervals: units get smaller, commas separate all but the
   * last two, and "and" separates those.
   */
  function Read(t: string, place: Place, below: int): Option<nat>
    decreases |t|, 1
  {
    var token := NextToken(t);
    if token.None? then None
    else
      var unit := UnitNamed(UNITS, token.value.word, token.value.number);
      if unit.None? || SecondsIn(unit.value) >= below then None
      else
        Plus(WholeInSeconds(token.value.number, unit.value), ReadRest(token.value.rest, place, SecondsIn(unit.value)))
  }

  /** What follows an interval. */
  function ReadRest(t: string, place: Place, below: int): Option<nat>
    decreases |t|, 0
  {
    if t == "" then if place.Middle? then None else Some(0)
    else if place.Last? then None
    else if |t| >= 2 && t[0] == ',' && t[1] == ' ' then Read(t[2..], Middle, below)
    else if |t| >= 5 && t[0] == ' ' && t[1] == 'a' && t[2] == 'n' && t[3] == 'd' && t[4] == ' ' then
      Read(t[5..], Last, below)
    else None
  }

  /** The seconds that a text stands for. */
  function Parse(t: string): Option<nat> {
    if t == "" then Some(0) else Read(t, Start, SecondsIn(Days) + 1)
  }

  lemma {:induction false} NumberOfDigits(n: nat)
    ensures Digits(n) != "" && forall k :: 0 <= k < |Digits(n)| ==> IsDigit(Digits(n)[k])
    ensures Number(Digits(n)) == n
    ensures n > 0 ==> Digits(n)[0] != '0'
  {
    if n >= 10 {
      NumberOfDigits(n / 10);
      assert Digits(n)[..|Digits(n)| - 1] == Digits(n / 10);
    }
  }

  lemma {:induction false} DigitsPrefix(digits: string, rest: string)
    requires forall k :: 0 <= k < |digits| ==> IsDigit(digits[k])
    requires rest != "" && !IsDigit(rest[0])
    ensures DigitsLength(digits + rest) == |digits|
    ensures (digits + rest)[..|digits|] == digits && (digits + rest)[|digits|..] == rest
  {
    if digits == "" {
      assert digits + rest == rest;
    } else {
      assert (digits + rest)[1..] == digits[1..] + rest;
      DigitsPrefix(digits[1..], rest);
    }
  }

  lemma {:induction false} LettersPrefix(word: string, rest: string)
    requires forall k :: 0 <= k < |word| ==> 'a' <= word[k] <= 'z'
    requires rest == "" || !('a' <= rest[0] <= 'z')
    ensures LettersLength(word + rest) == |word|
    ensures (word + rest)[..|word|] == word && (word + rest)[|word|..] == rest
  {
    if word == "" {
      assert word + rest == rest;
    } else {
      assert (word + rest)[1..] == word[1..] + rest;
      LettersPrefix(word[1..], rest);
    }
  }

  /** A number, a blank and something else. */
  lemma NumberFirst(digits: string, more: string)
    requires digits != "" && digits[0] != '0' && forall k :: 0 <= k < |digits| ==> IsDigit(digits[k])
    ensures NextToken(digits + (" " + more)) == Some(Splitting(Number(digits), more))
  {
    DigitsPrefix(digits, " " + more);
    var t := digits + (" " + more);
    assert t[|digits| + 1..] == more && t[|digits|] == ' ';
  }

  function Initial(unit: Unit): char {
    match unit
    case Days => 'd'
    case Hours => 'h'
    case Minutes => 'm'
    case Seconds => 's'
  }

  lemma WordsAre(unit: Unit, n: nat)
    ensures Word(unit, n) == UnitWord(unit, n)
    ensures Word(unit, n) != "" && Word(unit, n)[0] == Initial(unit)
    ensures forall k :: 0 <= k < |Word(unit, n)| ==> 'a' <= Word(unit, n)[k] <= 'z'
  {
  }

  /** A unit is found among others by its word, since their initials differ. */
  lemma {:induction false} FoundAmong(units: seq<Unit>, unit: Unit, n: nat)
    requires unit in units
    ensures UnitNamed(units, Word(unit, n), n) == Some(unit)
  {
    WordsAre(unit, n);
    WordsAre(units[0], n);
    if units[0] != unit {
      assert Initial(units[0]) != Initial(unit);
      FoundAmong(units[1..], unit, n);
    }
  }

  lemma WordsNameUnits(unit: Unit, n: nat)
    ensures UnitNamed(UNITS, Word(unit, n), n) == Some(unit)
    ensures forall k :: 0 <= k < |Word(unit, n)| ==> 'a' <= Word(unit, n)[k] <= 'z'
  {
    WordsAre(unit, n);
    assert unit == UNITS[0] || unit == UNITS[1] || unit == UNITS[2] || unit == UNITS[3];
    FoundAmong(UNITS, unit, n);
  }

  /** A text that begins with a label begins with its token. */
  lemma LabelToken(i: Interval, rest: string)
    requires i.amount.Floor >= 1
    requires rest == "" || rest[0] == ',' || rest[0] == ' '
    ensures NextToken(Label(i) + rest) == Some(Token(i.amount.Floor, Word(i.unit, i.amount.Floor), rest))
  {
    var n := i.amount.Floor;
    var word := Word(i.unit, n);
    NumberOfDigits(n);
    WordsNameUnits(i.unit, n);
    NumberFirst(Digits(n), word + rest);
    LettersPrefix(word, rest);
    LabelParts(i, rest);
  }

  lemma LabelParts(i: Interval, rest: string)
    requires i.amount.Floor >= 1
    ensures Label(i) + rest == Digits(i.amount.Floor) + (" " + (Word(i.unit, i.amount.Floor) + rest))
  {
  }

  lemma PhraseStep(first: string, parts: seq<string>)
    requires parts != []
    ensures Phrase([first] + parts) == first + (if |parts| == 1 then " and " else ", ") + Phrase(parts)
  {
    var all := [first] + parts;
    var front := all[..|all| - 1];
    if |parts| > 1 {
      assert front[1..] == parts[..|parts| - 1];
    }
  }

  /** The whole seconds in intervals. */
  function Whole(intervals: seq<Interval>): int {
    if intervals == [] then 0 else WholeInSeconds(intervals[0].amount.Floor, intervals[0].unit) + Whole(intervals[1..])
  }

  lemma {:induction false} WholeIsFloor(intervals: seq<Interval>)
    requires MixedRadix(intervals)
    ensures Whole(intervals) == Total(intervals).Floor
    decreases |intervals|
  {
    if intervals != [] {
      assert WellSized(intervals[0]);
      WholeIsFloor(intervals[1..]);
      if intervals[0].unit.Seconds? {
        SecondsComeLast(intervals);
      }
    }
  }

  /** A text that begins with a label reads as its seconds and what follows. */
  lemma ReadLabel(i: Interval, rest: string, place: Place, below: int)
    requires i.amount.Floor >= 1 && SecondsIn(i.unit) < below
    requires rest == "" || rest[0] == ',' || rest[0] == ' '
    ensures Read(Label(i) + rest, place, below) ==
      Plus(WholeInSeconds(i.amount.Floor, i.unit), ReadRest(rest, place, SecondsIn(i.unit)))
  {
    LabelToken(i, rest);
    WordsNameUnits(i.unit, i.amount.Floor);
  }

  lemma ReadComma(more: string, place: Place, below: int)
    requires !place.Last?
    ensures ReadRest(", " + more, place, below) == Read(more, Middle, below)
  {
    assert (", " + more)[2..] == more;
  }

  lemma ReadAnd(more: string, place: Place, below: int)
    requires !place.Last?
    ensures ReadRest(" and " + more, place, below) == Read(more, Last, below)
  {
    var t := " and " + more;
    assert t[5..] == more && t[0] == ' ' && t[1] == 'a' && t[2] == 'n' && t[3] == 'd' && t[4] == ' ';
  }

  /** A phrase of so many labels can stand at a place. */
  predicate Fits(place: Place, count: nat) {
    count > 0 && (place.Middle? ==> count > 1) && (place.Last? ==> count == 1)
  }

  function NextPlace(count: nat): Place {
    if count == 1 then Last else Middle
  }

  /** The phrase of several labels reads as the first one's seconds and the others'. */
  lemma PhraseOfLabel(i: Interval, rest: seq<string>, place: Place, below: int)
    requires i.amount.Floor >= 1 && SecondsIn(i.unit) < below && Fits(place, 1 + |rest|)
    ensures Read(Phrase([Label(i)] + rest), place, below) ==
      Plus(WholeInSeconds(i.amount.Floor, i.unit),
           if rest == [] then Some(0) else Read(Phrase(rest), NextPlace(|rest|), SecondsIn(i.unit)))
  {
    hide NextToken;
    var front, more := Label(i), Phrase(rest);
    if rest == [] {
      ReadLabel(i, "", place, below);
      assert front + "" == front && [front] + rest == [front];
    } else if |rest| == 1 {
      PhraseStep(front, rest);
      Regroup(front, " and ", more);
      ReadLabel(i, " and " + more, place, below);
      ReadAnd(more, place, SecondsIn(i.unit));
    } else {
      PhraseStep(front, rest);
      Regroup(front, ", ", more);
      ReadLabel(i, ", " + more, place, below);
      ReadComma(more, place, SecondsIn(i.unit));
    }
  }

  /** One more interval in front, labelled or not. */
  lemma LabelsStep(intervals: seq<Interval>)
    requires intervals != [] && WellSized(intervals[0])
    ensures var n, rest := intervals[0].amount.Floor, Labels(intervals[1..]);
      && n >= 0
      && Labels(intervals) == (if n == 0 then rest else [Label(intervals[0])] + rest)
      && Whole(intervals) == WholeInSeconds(n, intervals[0].unit) + Whole(intervals[1..])
  {
  }

  /** Intervals without labels have no whole seconds. */
  lemma {:induction false} NoLabels(intervals: seq<Interval>)
    requires MixedRadix(intervals)
    ensures Labels(intervals) == [] ==> Whole(intervals) == 0
    decreases |intervals|
  {
    if intervals != [] {
      assert WellSized(intervals[0]);
      LabelsStep(intervals);
      NoLabels(intervals[1..]);
    }
  }

  /** The phrase of the intervals below a unit reads as their whole seconds. */
  ghost predicate ReadsBack(intervals: seq<Interval>, place: Place, below: int) {
    0 <= Whole(intervals) && Read(Phrase(Labels(intervals)), place, below) == Some(Whole(intervals))
  }

  lemma {:induction false} ReadsBackStep(intervals: seq<Interval>, place: Place, below: int)
    requires MixedRadix(intervals) && intervals != [] && intervals[0].amount.Floor >= 1
    requires SecondsIn(intervals[0].unit) < below && Fits(place, |Labels(intervals)|)
    requires var rest := Labels(intervals[1..]);
      rest != [] ==> ReadsBack(intervals[1..], NextPlace(|rest|), SecondsIn(intervals[0].unit))
    ensures ReadsBack(intervals, place, below)
  {
    hide Read, Label, Labels, Phrase, Whole;
    assert WellSized(intervals[0]);
    LabelsStep(intervals);
    NoLabels(intervals[1..]);
    PhraseOfLabel(intervals[0], Labels(intervals[1..]), place, below);
  }

  lemma {:induction false} ReadPhrase(intervals: seq<Interval>, place: Place, below: int)
    requires MixedRadix(intervals) && Fits(place, |Labels(intervals)|)
    requires forall k :: 0 <= k < |intervals| ==> SecondsIn(intervals[k].unit) < below
    ensures ReadsBack(intervals, place, below)
    decreases |intervals|
  {
    hide ReadsBack;
    var rest := Labels(intervals[1..]);
    assert WellSized(intervals[0]);
    LabelsStep(intervals);
    if intervals[0].unit.Seconds? {
      SecondsComeLast(intervals);
    }
    assert intervals[0].amount.Floor != 0;
    if rest != [] {
      ReadPhrase(intervals[1..], NextPlace(|rest|), SecondsIn(intervals[0].unit));
    }
    ReadsBackStep(intervals, place, below);
  }

  /** The printed duration can be read back: it stands for the whole seconds. */
  lemma TextReadsBack(seconds: real)
    requires 0.0 <= seconds
    ensures Parse(AsText(seconds)) == Some(seconds.Floor)
  {
    hide NextToken;
    var intervals := Durations(seconds, []);
    DurationsAreMixedRadix(seconds);
    WholeIsFloor(intervals);
    NoLabels(intervals);
    if Labels(intervals) != [] {
      ReadPhrase(intervals, Start, SecondsIn(Days) + 1);
      PhraseNotEmpty(intervals);
    }
  }

  lemma PhraseNotEmpty(intervals: seq<Interval>)
    requires ReadsBack(intervals, Start, SecondsIn(Days) + 1)
    ensures Phrase(Labels(intervals)) != ""
  {
  }

  /** So equal texts stand for equal whole seconds. */
  lemma TextsAreDistinct(seconds: real, others: real)
    requires 0.0 <= seconds && 0.0 <= others && AsText(seconds) == AsText(others)
    ensures seconds.Floor == others.Floor
  {
    TextReadsBack(seconds);
    TextReadsBack(others);
  }

  /** A negative number of seconds is one interval of seconds, rounded down and always plural. */
  lemma NegativeDurations(seconds: real, n: nat)
    requires seconds < 0.0 && n == -seconds.Floor
    ensures Durations(seconds, []) == [Interval(Seconds, seconds)]
    ensures AsText(seconds) == "-" + Digits(n) + " seconds"
  {
    assert Labels([Interval(Seconds, seconds)]) == [Label(Interval(Seconds, seconds))];
  }
}
