/**
 The identifier every generated text carries, `ML1:<run>:<sequence>:` and padding, its
 parser, and the admission check on the payload size. Texts are ASCII here, so one
 character is one byte.
 */
module Identifier {
  import Schedule
  import opened Wrappers

  const PREFIX := "ML1"
  const MAX_MESSAGES_PER_RUN: nat := 10000

  datatype SizeError = PayloadTooSmall(markerSize: nat) | TooManyMessages

  function Digit(d: nat): char
    requires d < 10
  {
    '0' + d as char
  }

  function Decimal(n: nat): string {
    if n < 10 then [Digit(n)] else Decimal(n / 10) + [Digit(n % 10)]
  }

  predicate IsDigit(c: char) {
    '0' <= c <= '9'
  }

  /** Digits, with single underscores allowed between them. */
  function ParseDigits(s: string): Option<nat>
    decreases |s|
  {
    if s == [] || !IsDigit(s[|s| - 1]) then None
    else
      var d := s[|s| - 1] as int - '0' as int;
      if |s| == 1 then Some(d)
      else
        var higher := ParseDigits(if s[|s| - 2] == '_' then s[..|s| - 2] else s[..|s| - 1]);
        if higher.None? then None else Some(higher.value * 10 + d)
  }

  /** ASCII white space and the four information separators. */
  predicate IsSpace(c: char) {
    c == ' ' || '\t' <= c <= '\r' || 0x1c <= c as int <= 0x1f
  }

  function Strip(s: string): string
    decreases |s|
  {
    if s != [] && IsSpace(s[0]) then Strip(s[1..])
    else if s != [] && IsSpace(s[|s| - 1]) then Strip(s[..|s| - 1])
    else s
  }

  function ParseInt(text: string): Option<int> {
    var s := Strip(text);
    if s != [] && s[0] in "+-" then
      match ParseDigits(s[1..])
      case None => None
      case Some(n) =>
        var value: int := n;
        Some(if s[0] == '-' then -value else value)
    else
      match ParseDigits(s)
      case None => None
      case Some(n) => Some(n)
  }

  /** Parts between colons, splitting at most `max` times. */
  function Split(s: string, max: nat): seq<string>
    decreases max, |s|
  {
    if max == 0 || ':' !in s then [s]
    else if s[0] == ':' then [""] + Split(s[1..], max - 1)
    else
      var rest := Split(s[1..], max);
      [[s[0]] + rest[0]] + rest[1..]
  }

  function ParseIdentifier(payload: string): Option<(string, int)> {
    var parts := Split(payload, 3);
    if |parts| != 4 || parts[0] != PREFIX then None
    else
      match ParseInt(parts[2])
      case None => None
      case Some(n) => Some((parts[1], n))
  }

  function Marker(runId: string, sequence: nat): string {
    PREFIX + ":" + runId + ":" + Decimal(sequence) + ":"
  }

  function Padding(n: nat): string {
    seq(n, _ => 'x')
  }

  function PayloadFor(runId: string, sequence: nat, size: nat): Result<string, SizeError> {
    var marker := Marker(runId, sequence);
    if |marker| > size then Err(PayloadTooSmall(|marker|)) else Ok(marker + Padding(size - |marker|))
  }

  /** The part of `start` that decides whether a run's identifiers will fit. */
  function Admit(runId: string, maxSequence: nat, payloadBytes: nat): Result<(), SizeError> {
    if maxSequence > MAX_MESSAGES_PER_RUN then Err(TooManyMessages)
    else if payloadBytes < |Marker(runId, maxSequence)| then Err(PayloadTooSmall(|Marker(runId, maxSequence)|))
    else Ok(())
  }

  lemma {:induction false} DecimalParses(n: nat)
    ensures Decimal(n) != [] && forall c <- Decimal(n) :: IsDigit(c)
    ensures ParseDigits(Decimal(n)) == Some(n)
  {
    if n < 10 {
    } else {
      DecimalParses(n / 10);
      var s, init := Decimal(n), Decimal(n / 10);
      assert s[..|s| - 1] == init && s[|s| - 2] in init;
    }
  }

  lemma {:induction false} DecimalLengthIsMonotone(m: nat, n: nat)
    requires m <= n
    ensures |Decimal(m)| <= |Decimal(n)|
  {
    if m < 10 {
    } else {
      DecimalLengthIsMonotone(m / 10, n / 10);
    }
  }

  lemma {:induction false} SplitFirst(head: string, tail: string, max: nat)
    requires ':' !in head && max > 0
    ensures Split(head + ":" + tail, max) == [head] + Split(tail, max - 1)
    decreases |head|
  {
    var s := head + ":" + tail;
    if head == [] {
      assert s[0] == ':' && s[1..] == tail;
    } else {
      assert s[|head|] == ':';
      assert s[1..] == head[1..] + ":" + tail;
      SplitFirst(head[1..], tail, max);
      assert s[0] == head[0] != ':' by { assert head[0] in head; }
      assert [head[0]] + head[1..] == head;
    }
  }

  lemma SplitMarker(runId: string, digits: string, padding: string)
    requires ':' !in runId && ':' !in digits
    ensures Split(PREFIX + ":" + runId + ":" + digits + ":" + padding, 3) == [PREFIX, runId, digits, padding]
  {
    var rest2 := digits + ":" + padding;
    var rest1 := runId + ":" + rest2;
    assert PREFIX + ":" + runId + ":" + digits + ":" + padding == PREFIX + ":" + rest1;
    SplitFirst(PREFIX, rest1, 3);
    SplitFirst(runId, rest2, 2);
    SplitFirst(digits, padding, 1);
  }

  lemma DigitsParse(sequence: nat)
    ensures ParseInt(Decimal(sequence)) == Some(sequence)
  {
    var digits := Decimal(sequence);
    DecimalParses(sequence);
    assert digits[0] in digits && digits[|digits| - 1] in digits;
    assert Strip(digits) == digits;
  }

  /** The parser recovers run and sequence from any padded payload, whatever the padding. */
  lemma RoundTrip(runId: string, sequence: nat, padding: string)
    requires ':' !in runId
    ensures ParseIdentifier(Marker(runId, sequence) + padding) == Some((runId, sequence))
  {
    DecimalParses(sequence);
    DigitsParse(sequence);
    SplitMarker(runId, Decimal(sequence), padding);
  }

  /** Digits are accepted exactly when they start and end the text and underscores between them are single. */
  lemma {:induction false} DigitsAccepted(s: string)
    ensures ParseDigits(s).Some?
       <==> s != [] && '0' <= s[0] <= '9' && '0' <= s[|s| - 1] <= '9'
            && (forall i :: 0 <= i < |s| ==> s[i] == '_' || '0' <= s[i] <= '9')
            && (forall i :: 0 <= i < |s| - 1 ==> s[i] != '_' || s[i + 1] != '_')
    decreases |s|
  {
    if |s| <= 1 {
    } else {
      var init := if s[|s| - 2] == '_' then s[..|s| - 2] else s[..|s| - 1];
      DigitsAccepted(init);
      assert forall i :: 0 <= i < |init| ==> init[i] == s[i];
      if init == [] {
        assert s[0] == '_';
      } else {
        assert init[0] == s[0];
      }
    }
  }

  /** Each digit counts ten times the one behind it, '0' to '9' for zero to nine; underscores count nothing. */
  lemma DigitsCount(s: string, c: char)
    requires '0' <= c <= '9' && ParseDigits(s).Some?
    ensures ParseDigits([c]) == Some(c as int - '0' as int)
    ensures ParseDigits(s + [c]) == Some(ParseDigits(s).value * 10 + (c as int - '0' as int))
    ensures ParseDigits(s + ['_', c]) == ParseDigits(s + [c])
  {
    DigitsAccepted(s);
    assert (s + [c])[..|s|] == s && (s + ['_', c])[..|s|] == s;
    assert s[|s| - 1] != '_';
  }

  ghost predicate AllSpace(s: string) {
    forall c <- s :: c == ' ' || '\t' <= c <= '\r' || 0x1c <= c as int <= 0x1f
  }

  lemma SpacesAreSpace(s: string)
    requires AllSpace(s)
    ensures forall c <- s :: IsSpace(c)
  {}

  lemma NoSpace()
    ensures AllSpace([])
  {}

  lemma OneMoreSpace(s: string, c: char)
    requires AllSpace(s) && IsSpace(c)
    ensures AllSpace([c] + s) && AllSpace(s + [c])
  {}

  /** White space around a number is ignored, and a sign in front of its digits is its sign. */
  lemma SignsAndSpaces(before: string, sign: string, digits: string, after: string)
    requires AllSpace(before) && AllSpace(after)
    requires sign == "" || sign == "+" || sign == "-"
    requires ParseDigits(digits).Some?
    ensures var value: int := ParseDigits(digits).value;
            ParseInt(before + sign + digits + after) == Some(if sign == "-" then -value else value)
  {
    hide Strip, ParseDigits, ParseInt, IsSpace, AllSpace;
    SpacesAreSpace(before);
    SpacesAreSpace(after);
    DigitsAccepted(digits);
    CoreIsVisible(sign, digits);
    var core := sign + digits;
    assert before + sign + digits + after == before + core + after;
    StripSpaces(before, core, after);
    ParseSigned(before + core + after, sign, digits);
  }

  lemma CoreIsVisible(sign: string, digits: string)
    requires sign == "" || sign == "+" || sign == "-"
    requires digits != [] && '0' <= digits[0] <= '9' && '0' <= digits[|digits| - 1] <= '9'
    ensures var core := sign + digits; core != [] && !IsSpace(core[0]) && !IsSpace(core[|core| - 1])
  {}

  lemma ParseSigned(text: string, sign: string, digits: string)
    requires sign == "" || sign == "+" || sign == "-"
    requires digits != [] && '0' <= digits[0] <= '9' && ParseDigits(digits).Some?
    requires Strip(text) == sign + digits
    ensures var value: int := ParseDigits(digits).value;
            ParseInt(text) == Some(if sign == "-" then -value else value)
  {
    hide Strip, ParseDigits;
    if sign == "" {
      assert sign + digits == digits;
    } else {
      assert (sign + digits)[1..] == digits;
    }
  }

  lemma {:induction false} StripSpaces(before: string, core: string, after: string)
    requires (forall c <- before :: IsSpace(c)) && (forall c <- after :: IsSpace(c))
    requires core != [] && !IsSpace(core[0]) && !IsSpace(core[|core| - 1])
    ensures Strip(before + core + after) == core
    decreases |before|
  {
    if before == [] {
      assert before + core + after == core + after;
      StripTrailing(core, after);
    } else {
      var s := before + core + after;
      assert s[0] in before && s[1..] == before[1..] + core + after;
      StripSpaces(before[1..], core, after);
    }
  }

  lemma {:induction false} StripTrailing(core: string, after: string)
    requires forall c <- after :: IsSpace(c)
    requires core != [] && !IsSpace(core[0]) && !IsSpace(core[|core| - 1])
    ensures Strip(core + after) == core
    decreases |after|
  {
    var s := core + after;
    if after == [] {
      assert s == core;
    } else {
      var shorter := after[..|after| - 1];
      assert s[..|s| - 1] == core + shorter;
      assert s[|s| - 1] in after;
      StripTrailing(core, shorter);
    }
  }

  lemma {:induction false} StripTakesSpaces(s: string) returns (before: string, after: string)
    ensures AllSpace(before) && AllSpace(after) && s == before + Strip(s) + after
    decreases |s|
  {
    hide AllSpace, IsSpace;
    NoSpace();
    if s != [] && IsSpace(s[0]) {
      var rest;
      rest, after := StripTakesSpaces(s[1..]);
      OneMoreSpace(rest, s[0]);
      Around(s, [s[0]], rest, Strip(s[1..]), after, []);
      before := [s[0]] + rest;
    } else if s != [] && IsSpace(s[|s| - 1]) {
      var rest;
      before, rest := StripTakesSpaces(s[..|s| - 1]);
      OneMoreSpace(rest, s[|s| - 1]);
      Around(s, [], before, Strip(s[..|s| - 1]), rest, [s[|s| - 1]]);
      assert [] + before == before;
      after := rest + [s[|s| - 1]];
    } else {
      before, after := [], [];
      assert s == [] + s + [];
    }
  }

  lemma Around(s: string, x: string, before: string, core: string, after: string, y: string)
    requires s == x + (before + core + after) + y
    ensures s == (x + before) + core + (after + y)
  {}

  /** Nothing else is a number. */
  lemma NumbersHaveForm(text: string) returns (before: string, sign: string, digits: string, after: string)
    requires ParseInt(text).Some?
    ensures AllSpace(before) && AllSpace(after) && (sign == "" || sign == "+" || sign == "-")
    ensures ParseDigits(digits).Some? && text == before + sign + digits + after
  {
    hide Strip, ParseDigits;
    before, after := StripTakesSpaces(text);
    var core := Strip(text);
    if core != [] && core[0] in "+-" {
      sign, digits := [core[0]], core[1..];
      assert core == sign + digits;
    } else {
      sign, digits := "", core;
      assert core == sign + digits;
    }
    assert before + sign + digits + after == before + core + after;
  }

  /** The parts, put back together. */
  function Joined(parts: seq<string>): string {
    if parts == [] then "" else if |parts| == 1 then parts[0] else parts[0] + ":" + Joined(parts[1..])
  }

  /** `parts` are `s` taken apart at no more than `max` colons, and only the last part has colons left. */
  ghost predicate TakenApart(parts: seq<string>, s: string, max: nat) {
    && parts != [] && Joined(parts) == s && |parts| <= max + 1
    && forall i :: 0 <= i < |parts| - 1 ==> ':' !in parts[i]
  }

  lemma {:induction false} SplitTakesApart(s: string, max: nat)
    ensures TakenApart(Split(s, max), s, max)
    decreases max, |s|
  {
    if max == 0 || ':' !in s {
    } else {
      hide Split, TakenApart;
      SplitUnfold(s, max);
      if s[0] == ':' {
        SplitTakesApart(s[1..], max - 1);
        ColonInFront(Split(s[1..], max - 1), s[1..], max - 1);
        assert s == ":" + s[1..];
      } else {
        SplitTakesApart(s[1..], max);
        CharInFront(s[0], Split(s[1..], max), s[1..], max);
        assert s == [s[0]] + s[1..];
      }
    }
  }

  lemma SplitUnfold(s: string, max: nat)
    requires max > 0 && ':' in s
    ensures Split(s[1..], max) != []
    ensures Split(s, max) == if s[0] == ':' then [""] + Split(s[1..], max - 1)
                             else [[s[0]] + Split(s[1..], max)[0]] + Split(s[1..], max)[1..]
  {}

  lemma ColonInFront(parts: seq<string>, s: string, max: nat)
    requires TakenApart(parts, s, max)
    ensures TakenApart([""] + parts, ":" + s, max + 1)
  {
    assert ([""] + parts)[1..] == parts;
  }

  lemma CharInFront(c: char, parts: seq<string>, s: string, max: nat)
    requires TakenApart(parts, s, max) && c != ':'
    ensures TakenApart([[c] + parts[0]] + parts[1..], [c] + s, max)
  {
    var longer := [[c] + parts[0]] + parts[1..];
    assert longer[1..] == parts[1..];
    if |parts| > 1 {
      assert longer[0] + ":" + Joined(parts[1..]) == [c] + (parts[0] + ":" + Joined(parts[1..]));
    }
  }

  /**
     The identifiers that are accepted: `ML1`, a run without a colon, a number and anything else,
     separated by colons. Nothing else is.
   */
  lemma IdentifierForm(runId: string, number: string, rest: string)
    requires ':' !in runId && ':' !in number
    ensures ParseIdentifier("ML1:" + runId + ":" + number + ":" + rest)
         == if ParseInt(number).Some? then Some((runId, ParseInt(number).value)) else None
  {
    SplitMarker(runId, number, rest);
    assert "ML1:" + runId + ":" + number + ":" + rest == PREFIX + ":" + runId + ":" + number + ":" + rest;
  }

  lemma AcceptedHasForm(payload: string) returns (number: string, rest: string)
    requires ParseIdentifier(payload).Some?
    ensures var runId := ParseIdentifier(payload).value.0;
            && ':' !in runId && ':' !in number
            && payload == "ML1:" + runId + ":" + number + ":" + rest
            && ParseInt(number) == Some(ParseIdentifier(payload).value.1)
  {
    var parts := Split(payload, 3);
    SplitTakesApart(payload, 3);
    number, rest := parts[2], parts[3];
    assert Joined(parts[3..]) == parts[3];
    assert parts[2..][1..] == parts[3..] && parts[1..][1..] == parts[2..];
    assert Joined(parts[2..]) == parts[2] + ":" + parts[3];
    assert Joined(parts[1..]) == parts[1] + ":" + Joined(parts[2..]);
  }

  /** A payload has exactly the requested size: marker first, then padding. */
  lemma PayloadLayout(runId: string, sequence: nat, size: nat)
    ensures var marker := "ML1:" + runId + ":" + Decimal(sequence) + ":";
            && PayloadFor(runId, sequence, size)
               == (if |marker| > size then Err(PayloadTooSmall(|marker|))
                   else Ok(marker + seq(size - |marker|, _ => 'x')))
            && (|marker| <= size ==> |PayloadFor(runId, sequence, size).value| == size)
  {
    assert "ML1:" + runId + ":" + Decimal(sequence) + ":" == Marker(runId, sequence);
  }

  /** Decimal text: the digits of the quotient, then the one of the remainder. */
  lemma DecimalReads(n: nat, d: nat)
    requires d < 10
    ensures Decimal(d) == ["0123456789"[d]]
    ensures n > 0 ==> Decimal(10 * n + d) == Decimal(n) + ["0123456789"[d]]
  {}

  /** Different messages never share a payload. */
  lemma PayloadsIdentifyMessages(run1: string, n1: nat, run2: string, n2: nat, size1: nat, size2: nat)
    requires ':' !in run1 && ':' !in run2
    requires PayloadFor(run1, n1, size1).Ok? && PayloadFor(run1, n1, size1) == PayloadFor(run2, n2, size2)
    ensures run1 == run2 && n1 == n2
  {
    RoundTrip(run1, n1, Padding(size1 - |Marker(run1, n1)|));
    RoundTrip(run2, n2, Padding(size2 - |Marker(run2, n2)|));
  }

  /**
     A run is admitted exactly when it is not too long and every one of its submissions
     passes its own size check.
   */
  lemma AdmissionIsExact(runId: string, maxSequence: nat, payloadBytes: nat)
    ensures Admit(runId, maxSequence, payloadBytes).Ok?
       <==> maxSequence <= 10_000 && forall n: nat :: n <= maxSequence ==> PayloadFor(runId, n, payloadBytes).Ok?
    ensures Admit(runId, maxSequence, payloadBytes) == Err(TooManyMessages) <==> maxSequence > 10_000
  {
    forall n: nat | n <= maxSequence ensures |Marker(runId, n)| <= |Marker(runId, maxSequence)| {
      DecimalLengthIsMonotone(n, maxSequence);
    }
    assert PayloadFor(runId, maxSequence, payloadBytes).Ok? <==> payloadBytes >= |Marker(runId, maxSequence)|;
  }

  /**
     A run that was admitted under its own maximum sequence never fails a size check: the
     submissions of its schedule are numbered from 1, and every one of their payloads fits.
   */
  lemma AdmittedRunsFit(p: Schedule.Plan, order: seq<Schedule.Tick>, runId: string, payloadBytes: nat)
    requires Schedule.ValidPlan(p) && (forall t :: t in order <==> Schedule.Planned(p, t)) && Schedule.Sorted(p, order)
    requires Admit(runId, Schedule.MaximumSequence(p, |p.cadences|), payloadBytes).Ok?
    ensures |order| <= MAX_MESSAGES_PER_RUN
    ensures forall n: nat :: 1 <= n <= |order| ==> PayloadFor(runId, n, payloadBytes).Ok?
  {
    Schedule.ScheduleIsPermutation(p, order);
    AdmissionIsExact(runId, |order|, payloadBytes);
  }

  /** And one that was refused for its payload size would have failed at its last submission. */
  lemma RefusedRunsFail(p: Schedule.Plan, order: seq<Schedule.Tick>, runId: string, payloadBytes: nat)
    requires Schedule.ValidPlan(p) && (forall t :: t in order <==> Schedule.Planned(p, t)) && Schedule.Sorted(p, order)
    requires |order| <= MAX_MESSAGES_PER_RUN
    requires Admit(runId, Schedule.MaximumSequence(p, |p.cadences|), payloadBytes).Err?
    ensures PayloadFor(runId, |order|, payloadBytes).Err?
  {
    Schedule.ScheduleIsPermutation(p, order);
  }
}
