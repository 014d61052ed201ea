/**
 LoRa airtime over exact reals, the bound on the firmware's retransmission delay, and
 the drain windows derived from the largest generated packet.
 */
module Airtime {
  import opened Reals
  import opened Sequences

  datatype ModemPreset =
    ShortTurbo | ShortFast | ShortSlow | MediumFast | MediumSlow | LongTurbo | LongModerate | LongSlow | LongFast

  datatype Modem = Modem(bandwidthKhz: real, spreadingFactor: nat, codingRate: nat)

  const CONTENTION_SLOTS: nat := 256 + 16 + 32
  const PROCESSING_TIME_MS: real := 4500.0
  const SLOT_FIXED_OVERHEAD_MS: real := 7.6
  const PREAMBLE_SYMBOLS: real := 16.0
  const MAX_DRAIN_SECONDS: real := 300.0

  function Parameters(preset: ModemPreset): (m: Modem)
    ensures m.bandwidthKhz > 0.0 && 7 <= m.spreadingFactor <= 12 && 5 <= m.codingRate <= 8
  {
    match preset
    case ShortTurbo => Modem(500.0, 7, 5)
    case ShortFast => Modem(250.0, 7, 5)
    case ShortSlow => Modem(250.0, 8, 5)
    case MediumFast => Modem(250.0, 9, 5)
    case MediumSlow => Modem(250.0, 10, 5)
    case LongTurbo => Modem(500.0, 11, 8)
    case LongModerate => Modem(125.0, 11, 8)
    case LongSlow => Modem(125.0, 12, 8)
    case LongFast => Modem(250.0, 11, 5)
  }

  function Pow2(n: nat): nat {
    if n == 0 then 1 else 2 * Pow2(n - 1)
  }

  function Max(a: int, b: int): int {
    if a < b then b else a
  }

  function MaxReal(a: real, b: real): real {
    if a < b then b else a
  }

  function MinReal(a: real, b: real): real {
    if b < a then b else a
  }

  function SymbolTime(m: Modem): real
    requires m.bandwidthKhz > 0.0
  {
    Pow2(m.spreadingFactor) as real / (m.bandwidthKhz * 1000.0)
  }

  function CodedSymbols(numerator: int, denominator: nat, codingRate: nat): int
    requires denominator > 0
  {
    Ceiling(numerator as real / denominator as real * codingRate as real)
  }

  /** Symbols of the payload part; low-data-rate optimization kicks in above 16 ms per symbol. */
  function PayloadSymbols(length: nat, m: Modem): (n: nat)
    requires m.bandwidthKhz > 0.0 && m.spreadingFactor >= 7
    ensures n >= 8
  {
    var optimized := if SymbolTime(m) > 0.016 then 1 else 0;
    var numerator := 8 * length - 4 * m.spreadingFactor + 28 + 16;
    var denominator := 4 * (m.spreadingFactor - 2 * optimized);
    8 + Max(CodedSymbols(numerator, denominator, m.codingRate), 0)
  }

  /** Whole milliseconds for the preamble and the payload symbols. */
  function SymbolsToMs(symbols: nat, symbolTime: real): int {
    ((PREAMBLE_SYMBOLS + 4.25) * symbolTime * 1000.0 + symbols as real * symbolTime * 1000.0).Floor
  }

  function AirtimeMs(length: nat, preset: ModemPreset): int {
    var m := Parameters(preset);
    SymbolsToMs(PayloadSymbols(length, m), SymbolTime(m))
  }

  function SlotTimeMs(m: Modem): real
    requires m.bandwidthKhz > 0.0
  {
    2.5 * (Pow2(m.spreadingFactor) as real / m.bandwidthKhz) + SLOT_FIXED_OVERHEAD_MS
  }

  function RetransmissionDelayMs(length: nat, preset: ModemPreset): int {
    var contention := CONTENTION_SLOTS as real * SlotTimeMs(Parameters(preset));
    Ceiling(2.0 * AirtimeMs(length, preset) as real + contention + PROCESSING_TIME_MS)
  }

  lemma {:induction false} Pow2IsPositive(n: nat)
    ensures Pow2(n) > 0
  {
    if n == 0 {
    } else {
      Pow2IsPositive(n - 1);
    }
  }

  lemma SymbolTimeIsPositive(m: Modem)
    requires m.bandwidthKhz > 0.0
    ensures SymbolTime(m) > 0.0
  {
    Pow2IsPositive(m.spreadingFactor);
  }

  // ---------- what the formulas amount to ----------

  /** Bandwidth in kHz, chips per symbol, spreading factor and coding rate of each preset. */
  datatype ModemRow = ModemRow(khz: int, chips: int, spreading: int, coding: int)

  function ModemTable(preset: ModemPreset): ModemRow {
    match preset
    case ShortTurbo => ModemRow(500, 128, 7, 5)
    case ShortFast => ModemRow(250, 128, 7, 5)
    case ShortSlow => ModemRow(250, 256, 8, 5)
    case MediumFast => ModemRow(250, 512, 9, 5)
    case MediumSlow => ModemRow(250, 1024, 10, 5)
    case LongTurbo => ModemRow(500, 2048, 11, 8)
    case LongModerate => ModemRow(125, 2048, 11, 8)
    case LongSlow => ModemRow(125, 4096, 12, 8)
    case LongFast => ModemRow(250, 2048, 11, 5)
  }

  lemma ParametersAreTabled(preset: ModemPreset)
    ensures var m, r := Parameters(preset), ModemTable(preset);
            && m.bandwidthKhz == r.khz as real && m.spreadingFactor == r.spreading && m.codingRate == r.coding
            && Pow2(m.spreadingFactor) == r.chips
            && (SymbolTime(m) > 0.016 <==> r.chips > 16 * r.khz)
            && SymbolTime(m) * 1000.0 * r.khz as real == r.chips as real
  {
    assert Pow2(7) == 128 && Pow2(8) == 256 && Pow2(9) == 512;
    assert Pow2(10) == 1024 && Pow2(11) == 2048 && Pow2(12) == 4096;
  }

  lemma TimesPositive(x: real, y: real, c: real)
    requires c > 0.0
    ensures x < y <==> x * c < y * c
    ensures x <= y <==> x * c <= y * c
  {}

  lemma Regroup(x: real, y: real, z: real)
    ensures x * y * z == x * z * y
  {}

  lemma {:induction false} ProductAsReal(a: int, b: nat)
    ensures (a * b) as real == a as real * b as real
  {
    if b == 0 {
    } else {
      ProductAsReal(a, b - 1);
      assert a * b == a * (b - 1) + a;
      OneMoreTime(a as real, (b - 1) as real);
    }
  }

  lemma OneMoreTime(x: real, y: real)
    ensures x * (y + 1.0) == x * y + x
  {}

  lemma QuotientTimes(x: real, y: real, c: real)
    requires y > 0.0
    ensures (x / y * c) * y == x * c
  {
    var q := x / y;
    assert q * y == x;
    Regroup(q, c, y);
  }

  lemma TimesBetween(a: real, x: real, b: real, y: real, p: real)
    requires y > 0.0 && p == x * y
    ensures a < x ==> a * y < p
    ensures a <= x ==> a * y <= p
    ensures x < b ==> p < b * y
    ensures x <= b ==> p <= b * y
  {
    TimesPositive(a, x, y);
    TimesPositive(x, b, y);
  }

  lemma CeilingTimes(x: real, y: real, p: real)
    requires y > 0.0 && p == x * y
    ensures (Ceiling(x) - 1) as real * y < p <= Ceiling(x) as real * y
  {
    var k := Ceiling(x);
    assert (k - 1) as real < x <= k as real;
    TimesBetween((k - 1) as real, x, k as real, y, p);
  }

  lemma FloorTimes(x: real, y: real, p: real)
    requires y > 0.0 && p == x * y
    ensures x.Floor as real * y <= p < (x.Floor + 1) as real * y
  {
    var k := x.Floor;
    assert k as real <= x < (k + 1) as real;
    TimesBetween(k as real, x, (k + 1) as real, y, p);
  }

  lemma CodedSymbolsAreLeast(num: int, den: nat, c: nat)
    requires den > 0
    ensures var k := CodedSymbols(num, den, c); (k - 1) * den < num * c <= k * den
  {
    hide CodedSymbols, Ceiling;
    var x := CodedSymbolsRead(num, den, c);
    LeastAbove(x, num, den, c);
  }

  lemma CodedSymbolsRead(num: int, den: nat, c: nat) returns (x: real)
    requires den > 0
    ensures CodedSymbols(num, den, c) == Ceiling(x) && x * den as real == num as real * c as real
  {
    x := num as real / den as real * c as real;
    QuotientTimes(num as real, den as real, c as real);
    hide Ceiling;
  }

  lemma LeastAbove(x: real, num: int, den: nat, c: nat)
    requires den > 0 && x * den as real == num as real * c as real
    ensures (Ceiling(x) - 1) * den < num * c <= Ceiling(x) * den
  {
    hide Ceiling;
    ProductAsReal(num, c);
    CeilingInWhole(x, den, num * c);
  }

  lemma CeilingInWhole(x: real, den: nat, p: int)
    requires den > 0 && p as real == x * den as real
    ensures (Ceiling(x) - 1) * den < p <= Ceiling(x) * den
  {
    CeilingTimes(x, den as real, p as real);
    hide Ceiling;
    Between(Ceiling(x) - 1, Ceiling(x), den, p);
  }

  lemma Between(a: int, b: int, den: nat, p: int)
    requires a as real * den as real < p as real <= b as real * den as real
    ensures a * den < p <= b * den
  {
    ProductAsReal(a, den);
    ProductAsReal(b, den);
  }

  lemma SymbolsAreLeast(length: nat, preset: ModemPreset)
    ensures var r, n := ModemTable(preset), PayloadSymbols(length, Parameters(preset));
            var bits := (8 * length - 4 * r.spreading + 44) * r.coding;
            var perSymbol := 4 * (r.spreading - if r.chips > 16 * r.khz then 2 else 0);
            n >= 8 && (n - 8) * perSymbol >= bits && (n == 8 || (n - 9) * perSymbol < bits)
  {
    ParametersAreTabled(preset);
    hide SymbolTime, CodedSymbols, Parameters;
    var r := ModemTable(preset);
    var perSymbol := 4 * (r.spreading - if r.chips > 16 * r.khz then 2 else 0);
    var num := 8 * length - 4 * r.spreading + 44;
    CodedSymbolsAreLeast(num, perSymbol, r.coding);
    NotPositive(CodedSymbols(num, perSymbol, r.coding), perSymbol);
  }

  lemma NotPositive(k: int, d: nat)
    ensures k <= 0 ==> k * d <= 0
  {}

  /** Whole milliseconds of 20.25 symbols and `n` more, for a symbol of chips / kHz milliseconds. */
  lemma SymbolsInMs(n: nat, symbolTime: real, khz: nat, chips: nat)
    requires khz > 0 && symbolTime * 1000.0 * khz as real == chips as real
    ensures var a := SymbolsToMs(n, symbolTime); 4 * a * khz <= (4 * n + 81) * chips < 4 * (a + 1) * khz
  {
    var t := symbolTime * 1000.0;
    InMs(n as real, symbolTime);
    assert SymbolsToMs(n, symbolTime) == (20.25 * t + n as real * t).Floor;
    WholeMs(n, t, khz, chips);
  }

  lemma WholeMs(n: nat, t: real, khz: nat, chips: nat)
    requires khz > 0 && t * khz as real == chips as real
    ensures var a := (20.25 * t + n as real * t).Floor; 4 * a * khz <= (4 * n + 81) * chips < 4 * (a + 1) * khz
  {
    Spread(n as real, t, khz as real, chips as real);
    FloorInWhole(20.25 * t + n as real * t, khz, n, chips);
  }

  /** Quarters make 20.25 symbols whole. */
  lemma FloorInWhole(x: real, khz: nat, n: nat, chips: nat)
    requires khz > 0 && x * khz as real == 20.25 * chips as real + n as real * chips as real
    ensures 4 * x.Floor * khz <= (4 * n + 81) * chips < 4 * (x.Floor + 1) * khz
  {
    ProductAsReal(n, chips);
    var p := 20.25 * chips as real + (n * chips) as real;
    FloorTimes(x, khz as real, p);
    ProductAsReal(x.Floor, khz);
    ProductAsReal(x.Floor + 1, khz);
    InQuarters(x.Floor, khz, n, chips);
  }

  lemma InQuarters(a: int, khz: nat, n: nat, chips: nat)
    requires (a * khz) as real <= 20.25 * chips as real + (n * chips) as real < ((a + 1) * khz) as real
    ensures 4 * a * khz <= (4 * n + 81) * chips < 4 * (a + 1) * khz
  {
    assert (4 * n + 81) * chips == 4 * (n * chips) + 81 * chips;
    assert 4 * a * khz == 4 * (a * khz) && 4 * (a + 1) * khz == 4 * ((a + 1) * khz);
  }

  lemma Spread(n: real, t: real, k: real, c: real)
    requires t * k == c
    ensures (20.25 * t + n * t) * k == 20.25 * c + n * c
  {
    assert (n * t) * k == n * c;
  }

  lemma InMs(n: real, symbolTime: real)
    ensures (16.0 + 4.25) * symbolTime * 1000.0 + n * symbolTime * 1000.0
         == 20.25 * (symbolTime * 1000.0) + n * (symbolTime * 1000.0)
  {}

  /** 304 slots of 2.5 symbols and 7.6 ms, the airtime twice, and 4500 ms. */
  lemma DelayInMs(length: nat, preset: ModemPreset)
    ensures var r, a, delay := ModemTable(preset), AirtimeMs(length, preset), RetransmissionDelayMs(length, preset);
            10 * (delay - 1) * r.khz < (20 * a + 68104) * r.khz + 7600 * r.chips <= 10 * delay * r.khz
  {
    ParametersAreTabled(preset);
    hide AirtimeMs, Parameters, Pow2, SymbolTime;
    match ModemTable(preset).khz
    case 125 =>
    case 250 =>
    case _ =>
  }

  /**
     Airtime in whole numbers. With `n` payload symbols, eight and the least further number that
     carries the coded bits, the frame is `n` and 20.25 symbols long; a symbol is chips / kHz
     milliseconds. The retry bound is twice that, 304 slots of 2.5 symbols and 7.6 ms, and 4500 ms.
   */
  lemma AirtimeIsExact(length: nat, preset: ModemPreset) returns (n: int)
    ensures var r := ModemTable(preset);
            var bits := (8 * length - 4 * r.spreading + 44) * r.coding;
            var perSymbol := 4 * (r.spreading - if r.chips > 16 * r.khz then 2 else 0);
            n >= 8 && (n - 8) * perSymbol >= bits && (n == 8 || (n - 9) * perSymbol < bits)
    ensures var r, a := ModemTable(preset), AirtimeMs(length, preset);
            4 * a * r.khz <= (4 * n + 81) * r.chips < 4 * (a + 1) * r.khz
    ensures var r, a, delay := ModemTable(preset), AirtimeMs(length, preset), RetransmissionDelayMs(length, preset);
            10 * (delay - 1) * r.khz < (20 * a + 68104) * r.khz + 7600 * r.chips <= 10 * delay * r.khz
  {
    hide RetransmissionDelayMs, Pow2;
    n := PayloadSymbols(length, Parameters(preset));
    SymbolsAreLeast(length, preset);
    ParametersAreTabled(preset);
    SymbolsInMs(n, SymbolTime(Parameters(preset)), ModemTable(preset).khz, ModemTable(preset).chips);
    DelayInMs(length, preset);
    hide PayloadSymbols, SymbolTime, SymbolsToMs, Parameters, ModemTable;
  }

  /** The values that the unit tests of the original pin down. */
  lemma KnownAirtimes()
    ensures AirtimeMs(100, ShortFast) == 89 && AirtimeMs(100, MediumFast) == 289 && AirtimeMs(100, LongFast) == 976
    ensures AirtimeMs(100, LongModerate) == 3379
  {
    hide AirtimeMs, RetransmissionDelayMs;
    var a := AirtimeIsExact(100, ShortFast);
    var b := AirtimeIsExact(100, MediumFast);
    var c := AirtimeIsExact(100, LongFast);
    var d := AirtimeIsExact(100, LongModerate);
  }

  lemma KnownDelays()
    ensures AirtimeMs(100, LongSlow) == 6168 && RetransmissionDelayMs(100, LongSlow) == 44051
    ensures AirtimeMs(96, LongSlow) == 5939 && RetransmissionDelayMs(96, LongSlow) == 43593
  {
    hide AirtimeMs, RetransmissionDelayMs;
    var a := AirtimeIsExact(100, LongSlow);
    var b := AirtimeIsExact(96, LongSlow);
  }

  // ---------- monotonicity ----------

  lemma ScaleMonotone(x: real, y: real, c: real)
    requires x <= y && c >= 0.0
    ensures x * c <= y * c
  {}

  lemma DivideMonotone(x: real, y: real, c: real)
    requires x <= y && c > 0.0
    ensures x / c <= y / c
  {}

  lemma CodedSymbolsMonotone(x: int, y: int, d: nat, c: nat)
    requires x <= y && d > 0
    ensures CodedSymbols(x, d, c) <= CodedSymbols(y, d, c)
  {
    DivideMonotone(x as real, y as real, d as real);
    ScaleMonotone(x as real / d as real, y as real / d as real, c as real);
  }

  lemma PayloadSymbolsMonotone(a: nat, b: nat, m: Modem)
    requires a <= b && m.bandwidthKhz > 0.0 && m.spreadingFactor >= 7
    ensures PayloadSymbols(a, m) <= PayloadSymbols(b, m)
  {
    hide CodedSymbols;
    var optimized := if SymbolTime(m) > 0.016 then 1 else 0;
    CodedSymbolsMonotone(8 * a - 4 * m.spreadingFactor + 28 + 16, 8 * b - 4 * m.spreadingFactor + 28 + 16,
                         4 * (m.spreadingFactor - 2 * optimized), m.codingRate);
  }

  lemma SymbolsToMsMonotone(a: nat, b: nat, symbolTime: real)
    requires a <= b && symbolTime > 0.0
    ensures SymbolsToMs(a, symbolTime) <= SymbolsToMs(b, symbolTime)
  {
    ScaleMonotone(a as real, b as real, symbolTime);
  }

  /** A longer packet is never on the air for less time, nor retried sooner. */
  lemma LongerTakesLonger(a: nat, b: nat, preset: ModemPreset)
    requires a <= b
    ensures AirtimeMs(a, preset) <= AirtimeMs(b, preset)
    ensures RetransmissionDelayMs(a, preset) <= RetransmissionDelayMs(b, preset)
  {
    var m := Parameters(preset);
    SymbolTimeIsPositive(m);
    PayloadSymbolsMonotone(a, b, m);
    SymbolsToMsMonotone(PayloadSymbols(a, m), PayloadSymbols(b, m), SymbolTime(m));
  }

  // ---------- running maxima ----------

  function Longest(lengths: seq<nat>): nat
    requires lengths != []
  {
    if |lengths| == 1 then lengths[0]
    else Max(Longest(lengths[..|lengths| - 1]), lengths[|lengths| - 1])
  }

  lemma {:induction false} LongestIsMaximum(lengths: seq<nat>)
    requires lengths != []
    ensures Longest(lengths) in lengths && forall n <- lengths :: n <= Longest(lengths)
  {
    if |lengths| == 1 {
    } else {
      LongestIsMaximum(lengths[..|lengths| - 1]);
      assert lengths == lengths[..|lengths| - 1] + [lengths[|lengths| - 1]];
    }
  }

  /** A running maximum over packets, starting from zero, of any cost of a packet length. */
  function RunningMax(lengths: seq<nat>, cost: nat -> int): int {
    if lengths == [] then 0 else Max(RunningMax(lengths[..|lengths| - 1], cost), cost(lengths[|lengths| - 1]))
  }

  lemma RunningMaxSnoc(lengths: seq<nat>, length: nat, cost: nat -> int)
    ensures RunningMax(lengths + [length], cost) == Max(RunningMax(lengths, cost), cost(length))
  {
    DropLast(lengths, length);
  }

  function AirtimeCost(preset: ModemPreset): nat -> int {
    (length: nat) => AirtimeMs(length, preset)
  }

  function DelayCost(preset: ModemPreset): nat -> int {
    (length: nat) => RetransmissionDelayMs(length, preset)
  }

  lemma AirtimeIsPositive(length: nat, preset: ModemPreset)
    ensures AirtimeMs(length, preset) > 0
    ensures RetransmissionDelayMs(length, preset) > AirtimeMs(length, preset)
  {
    var m := Parameters(preset);
    SlowestAndFastest(preset);
    SymbolsToMsMonotone(8, PayloadSymbols(length, m), SymbolTime(m));
  }

  /** Symbol times of the table lie between those of SHORT_TURBO and LONG_SLOW. */
  lemma SlowestAndFastest(preset: ModemPreset)
    ensures 0.000256 <= SymbolTime(Parameters(preset)) <= 0.032768
    ensures 2.5 * 0.256 <= SlotTimeMs(Parameters(preset)) <= 2.5 * 32.768 + 7.6
  {
    assert Pow2(7) == 128 && Pow2(8) == 256 && Pow2(9) == 512;
    assert Pow2(10) == 1024 && Pow2(11) == 2048 && Pow2(12) == 4096;
  }

  lemma {:induction false} MonotoneMax(lengths: seq<nat>, cost: nat -> int)
    requires lengths != [] && forall a: nat, b: nat :: a <= b ==> 0 < cost(a) <= cost(b)
    ensures RunningMax(lengths, cost) == cost(Longest(lengths))
  {
    var init, last := lengths[..|lengths| - 1], lengths[|lengths| - 1];
    assert cost(last) > 0;
    if |lengths| == 1 {
      assert RunningMax(init, cost) == 0;
    } else {
      MonotoneMax(init, cost);
      assert if Longest(init) <= last then cost(Longest(init)) <= cost(last) else cost(last) <= cost(Longest(init));
    }
  }

  /** The running maxima over any packets are the values of the longest packet. */
  lemma RunningMaximaAreForLongest(lengths: seq<nat>, preset: ModemPreset)
    requires lengths != []
    ensures RunningMax(lengths, AirtimeCost(preset)) == AirtimeMs(Longest(lengths), preset)
    ensures RunningMax(lengths, DelayCost(preset)) == RetransmissionDelayMs(Longest(lengths), preset)
  {
    forall a: nat, b: nat | a <= b
      ensures 0 < AirtimeCost(preset)(a) <= AirtimeCost(preset)(b) && 0 < DelayCost(preset)(a) <= DelayCost(preset)(b)
    {
      LongerTakesLonger(a, b, preset);
      AirtimeIsPositive(a, preset);
    }
    MonotoneMax(lengths, AirtimeCost(preset));
    MonotoneMax(lengths, DelayCost(preset));
  }

  // ---------- drain windows ----------

  datatype Windows = Windows(quiet: real, deadline: real)

  /** All attempts of the origin and of every relaying hop, one after the other. */
  function RetrySeconds(delay: real, hopLimit: nat, attempts: int): real {
    delay * (hopLimit + 1) as real * attempts as real
  }

  function DrainWindows(maxAirtimeMs: int, maxDelayMs: int, hopLimit: nat, reliable: bool): Windows {
    var airtime := Max(maxAirtimeMs, 1) as real / 1000.0;
    var delay := Max(Max(maxDelayMs, maxAirtimeMs), 1) as real / 1000.0;
    var quiet := MaxReal(3.0, delay);
    var originAttempts := if reliable then 3 else 1;
    var intermediateAttempts := if hopLimit > 0 then 2 else 1;
    var attempts := Max(originAttempts, intermediateAttempts);
    var deadline := RetrySeconds(delay, hopLimit, attempts) + airtime + quiet;
    Windows(quiet, MinReal(MAX_DRAIN_SECONDS, MaxReal(quiet, deadline)))
  }

  /**
     The windows in milliseconds. `delay` is the longest retry delay and `airtime` the longest
     packet, neither below one; quiet is the delay but at least three seconds. The deadline leaves
     every hop, the first included, all its attempts, one more packet and the quiet time, within
     five minutes: three attempts when acknowledgments are requested, two when packets are relayed.
   */
  lemma WindowsCoverRetries(maxAirtimeMs: int, maxDelayMs: int, hopLimit: nat, reliable: bool, airtime: nat, delay: nat)
    requires airtime >= 1 && airtime >= maxAirtimeMs && (airtime == 1 || airtime == maxAirtimeMs)
    requires delay >= 1 && delay >= maxAirtimeMs && delay >= maxDelayMs
    requires delay == 1 || delay == maxAirtimeMs || delay == maxDelayMs
    ensures var w := DrainWindows(maxAirtimeMs, maxDelayMs, hopLimit, reliable);
            var attempts := if reliable then 3 else if hopLimit > 0 then 2 else 1;
            var all := delay * (hopLimit + 1) * attempts + airtime + if delay > 3000 then delay else 3000;
            && 1000.0 * w.quiet == (if delay > 3000 then delay else 3000) as real
            && 1000.0 * w.deadline == (if all < 300_000 then all else 300_000) as real
  {
    hide RetrySeconds;
    var attempts := if reliable then 3 else if hopLimit > 0 then 2 else 1;
    InMilliseconds(delay, hopLimit, attempts);
  }

  lemma InMilliseconds(delay: nat, hopLimit: nat, attempts: nat)
    ensures 1000.0 * RetrySeconds(delay as real / 1000.0, hopLimit, attempts)
         == (delay * (hopLimit + 1) * attempts) as real >= 0.0
  {
    ProductAsReal(delay, hopLimit + 1);
    ProductAsReal(delay * (hopLimit + 1), attempts);
    NotNegative(delay * (hopLimit + 1), attempts);
    var d := delay as real / 1000.0;
    assert 1000.0 * d == delay as real;
    Outward(d, (hopLimit + 1) as real, attempts as real);
  }

  lemma NotNegative(x: nat, y: nat)
    ensures x * y >= 0
  {}

  lemma Outward(d: real, x: real, y: real)
    ensures 1000.0 * (d * x * y) == (1000.0 * d) * x * y
  {}

  /** The deadline never exceeds five minutes, and covers the quiet window exactly when that fits. */
  lemma DeadlineBounds(maxAirtimeMs: int, maxDelayMs: int, hopLimit: nat, reliable: bool)
    ensures var w := DrainWindows(maxAirtimeMs, maxDelayMs, hopLimit, reliable);
            && w.quiet >= 3.0 && 0.0 < w.deadline <= MAX_DRAIN_SECONDS
            && (w.quiet <= w.deadline <==> maxAirtimeMs <= 300_000 && maxDelayMs <= 300_000)
  {
  }

  lemma LongestAirtime(preset: ModemPreset)
    ensures AirtimeMs(512, preset) <= 60_000
  {
    assert Pow2(7) == 128 && Pow2(8) == 256 && Pow2(9) == 512;
    assert Pow2(10) == 1024 && Pow2(11) == 2048 && Pow2(12) == 4096;
  }

  /** No packet the firmware can send is retried later than the drain limit. */
  lemma DelayWithinDrainLimit(length: nat, preset: ModemPreset)
    requires length <= 512
    ensures RetransmissionDelayMs(length, preset) <= 300_000
  {
    LongerTakesLonger(length, 512, preset);
    LongestAirtime(preset);
    SlowestAndFastest(preset);
    hide AirtimeMs, Parameters;
  }
}
