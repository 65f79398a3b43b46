/**
 The leveled logger of `src/logger.ts`: the level gate of `write`, the pad
 helper `f`, the separator choice, the timestamp it builds from them, and the
 channel, prefix and colour of each level method. Colouring, the clock and the
 console are outside: the colour is carried as a value, the time is a
 parameter, and `write` returns the console call it would make.
 */
module Logger {
  import opened Wrappers

  // ---------------------------------------------------------------------------
  // Levels

  datatype LogLevel = None | Error | Warning | Info | Debug

  /** The numeric value of each `LogLevel` member. */
  function Ord(l: LogLevel): (n: nat)
    ensures n <= 4
  {
    match l
    case None => 0
    case Error => 1
    case Warning => 2
    case Info => 3
    case Debug => 4
  }

  /** The gate of `write`: a call is dropped iff `logLevel < level`. */
  predicate Suppressed(threshold: LogLevel, level: LogLevel)
  {
    Ord(threshold) < Ord(level)
  }

  /** The levels are strictly ordered None < Error < Warning < Info < Debug, and `Ord` tells them apart. */
  lemma LevelsStrictlyOrdered()
    ensures Ord(LogLevel.None) < Ord(Error) < Ord(Warning) < Ord(Info) < Ord(Debug)
    ensures forall a: LogLevel, b: LogLevel :: Ord(a) == Ord(b) <==> a == b
  {
    forall a: LogLevel, b: LogLevel | Ord(a) == Ord(b) ensures a == b {
      match a
      case None =>
      case Error =>
      case Warning =>
      case Info =>
      case Debug =>
    }
  }

  /** A message emitted at threshold `t` is emitted at every higher threshold too. */
  lemma EmittedAtHigherThresholds(t: LogLevel, t': LogLevel, level: LogLevel)
    requires !Suppressed(t, level) && Ord(t) <= Ord(t')
    ensures !Suppressed(t', level)
  {
  }

  /** Conversely, a message dropped at threshold `t` is dropped at every lower threshold. */
  lemma SuppressedAtLowerThresholds(t: LogLevel, t': LogLevel, level: LogLevel)
    requires Suppressed(t, level) && Ord(t') <= Ord(t)
    ensures Suppressed(t', level)
  {
  }

  // ---------------------------------------------------------------------------
  // Decimal strings

  function Digit(d: nat): (c: char)
    requires d < 10
    ensures '0' <= c <= '9' && c as int - '0' as int == d
  {
    (d + '0' as int) as char
  }

  predicate IsDigits(s: string)
  {
    forall i | 0 <= i < |s| :: '0' <= s[i] <= '9'
  }

  /** `String(n)` for a non-negative integer: its decimal digits, without leading zeros. */
  function Dec(n: nat): (s: string)
    ensures |s| >= 1 && IsDigits(s)
    ensures n >= 10 ==> s[0] != '0'
  {
    if n < 10 then [Digit(n)] else Dec(n / 10) + [Digit(n % 10)]
  }

  /** The number a digit string spells. */
  function Val(s: string): nat
    requires IsDigits(s)
  {
    if s == [] then 0 else Val(s[..|s| - 1]) * 10 + (s[|s| - 1] as int - '0' as int)
  }

  function Pow10(k: nat): (p: nat)
    ensures p >= 1
  {
    if k == 0 then 1 else 10 * Pow10(k - 1)
  }

  /** `Dec` and `Val` are inverse: the decimal string of `n` spells `n`. */
  lemma {:induction false} DecVal(n: nat)
    ensures Val(Dec(n)) == n
  {
    if n >= 10 {
      DecVal(n / 10);
      var s := Dec(n);
      assert s[..|s| - 1] == Dec(n / 10);
    }
  }

  /** A number below `10^k` (for `k >= 1`) has at most `k` digits. */
  lemma {:induction false} DecLength(n: nat, k: nat)
    requires k >= 1 && n < Pow10(k)
    ensures |Dec(n)| <= k
  {
    if n >= 10 {
      assert k >= 2;
      DecLength(n / 10, k - 1);
    }
  }

  /** A digit string of length `k` spells a number below `10^k`. */
  lemma {:induction false} ValBound(s: string)
    requires IsDigits(s)
    ensures Val(s) < Pow10(|s|)
  {
    if s != [] {
      var init := s[..|s| - 1];
      ValBound(init);
      assert Val(s) <= (Pow10(|init|) - 1) * 10 + 9;
    }
  }

  /** Splitting a digit string after its first `|s| - t` digits. */
  lemma {:induction false} ValSplit(s: string, t: nat)
    requires IsDigits(s) && t <= |s|
    ensures IsDigits(s[..|s| - t]) && IsDigits(s[|s| - t..])
    ensures Val(s) == Val(s[..|s| - t]) * Pow10(t) + Val(s[|s| - t..])
  {
    if t == 0 {
      assert s[..|s|] == s;
      assert s[|s|..] == [];
    } else {
      var init := s[..|s| - 1];
      ValSplit(init, t - 1);
      var u := s[|s| - t..];
      assert init[..|init| - (t - 1)] == s[..|s| - t];
      assert u[..|u| - 1] == init[|init| - (t - 1)..];
      Shift(Val(s[..|s| - t]), Pow10(t - 1), Val(u[..|u| - 1]), Val(init), s[|s| - 1] as int - '0' as int);
    }
  }

  /** Appending one digit shifts the higher part one place. */
  lemma Shift(a: int, p: int, b: int, v: int, c: int)
    requires v == a * p + b
    ensures v * 10 + c == a * (10 * p) + (b * 10 + c)
  {
  }

  function Zeros(k: nat): (z: string)
    ensures |z| == k && IsDigits(z)
    ensures forall i | 0 <= i < k :: z[i] == '0'
  {
    seq(k, _ => '0')
  }

  /** Leading zeros do not change the number a digit string spells. */
  lemma {:induction false} ValZeros(k: nat, d: string)
    requires IsDigits(d)
    ensures IsDigits(Zeros(k) + d) && Val(Zeros(k) + d) == Val(d)
  {
    var s := Zeros(k) + d;
    assert IsDigits(s);
    ValSplit(s, |d|);
    assert s[..|s| - |d|] == Zeros(k);
    assert s[|s| - |d|..] == d;
    ValOfZeros(k);
  }

  lemma {:induction false} ValOfZeros(k: nat)
    ensures Val(Zeros(k)) == 0
  {
    if k > 0 {
      assert Zeros(k)[..k - 1] == Zeros(k - 1);
      ValOfZeros(k - 1);
    }
  }

  /** Division with remainder is unique. */
  lemma ModUnique(a: nat, q: nat, r: nat, m: nat)
    requires m >= 1 && r < m && a == q * m + r
    ensures a % m == r
  {
    var q', r' := a / m, a % m;
    assert a == q' * m + r';
    if q < q' {
      MulSplit(q, q' - q, m);
      MulAtLeast(q' - q, m);
    } else if q > q' {
      MulSplit(q', q - q', m);
      MulAtLeast(q - q', m);
    }
  }

  lemma MulSplit(x: int, y: int, m: int)
    ensures (x + y) * m == x * m + y * m
  {
  }

  lemma {:induction false} MulAtLeast(k: nat, m: nat)
    requires k >= 1
    ensures k * m >= m
  {
    if k > 1 {
      MulAtLeast(k - 1, m);
      MulSplit(k - 1, 1, m);
    }
  }

  // ---------------------------------------------------------------------------
  // The pad helper and the timestamp

  /**
   `f(nb, total)`: `('0'.repeat(total) + nb).slice(-total)`. `slice(-0)` is
   `slice(0)`, so with `total == 0` the whole string, which is `nb`'s decimal
   form, comes back.
   */
  function Pad(nb: nat, total: nat): (r: string)
    ensures IsDigits(r)
  {
    var s := Zeros(total) + Dec(nb);
    if total == 0 then s else s[|s| - total..]
  }

  /**
   With `total > 0` the result has exactly `total` digits and spells
   `nb mod 10^total`: the last `total` digits of `nb`, zero-padded.
   */
  lemma PadDigits(nb: nat, total: nat)
    requires total > 0
    ensures |Pad(nb, total)| == total
    ensures Val(Pad(nb, total)) == nb % Pow10(total)
  {
    var d := Dec(nb);
    var s := Zeros(total) + d;
    var r := s[|s| - total..];
    ValSplit(s, total);
    ValBound(r);
    ValZeros(total, d);
    DecVal(nb);
    ModUnique(nb, Val(s[..|s| - total]), Val(r), Pow10(total));
  }

  /** Below `10^total`, the result is `nb`'s decimal form with zeros in front. */
  lemma PadSmall(nb: nat, total: nat)
    requires total > 0 && nb < Pow10(total)
    ensures |Dec(nb)| <= total
    ensures Pad(nb, total) == Zeros(total - |Dec(nb)|) + Dec(nb)
  {
    DecLength(nb, total);
    var d := Dec(nb);
    var s := Zeros(total) + d;
    assert s[|s| - total..] == Zeros(total)[|d|..] + d;
    assert Zeros(total)[|d|..] == Zeros(total - |d|);
  }

  /** With `total == 0` nothing is cut off: `f(nb, 0)` is `nb`'s decimal form. */
  lemma PadZeroWidth(nb: nat)
    ensures Pad(nb, 0) == Dec(nb) && Val(Pad(nb, 0)) == nb
  {
    assert Zeros(0) + Dec(nb) == Dec(nb);
    DecVal(nb);
  }

  /** The separator around the timestamp: a tab after a prefix shorter than 8 characters, else a space. */
  function Tab(prefix: string): (t: string)
    ensures |t| == 1
    ensures t == "\t" <==> |prefix| < 8
    ensures t == " " <==> |prefix| >= 8
  {
    if |prefix| < 8 then "\t" else " "
  }

  /** The clock reading `write` formats: `getHours()` … `getMilliseconds()`. */
  datatype Time = Time(hours: nat, minutes: nat, seconds: nat, millis: nat)

  /** `[${f(h)}:${f(m)}:${f(s)}.${f(ms, 3)}]`: the clock part of the timestamp. */
  function Clock(t: Time): string
  {
    Frame(Pad(t.hours, 2), Pad(t.minutes, 2), Pad(t.seconds, 2), Pad(t.millis, 3))
  }

  function Frame(h: string, m: string, s: string, ms: string): string
  {
    "[" + h + ":" + m + ":" + s + "." + ms + "]"
  }

  /** The tab, the clock and the tab again. */
  function Timestamp(tab: string, t: Time): string
  {
    tab + Clock(t) + tab
  }

  /** Where each field of a frame sits, when the fields have the widths `f` gives them. */
  lemma {:induction false} FrameFields(h: string, m: string, s: string, ms: string)
    requires |h| == |m| == |s| == 2 && |ms| == 3
    ensures var c := Frame(h, m, s, ms);
      && |c| == 14
      && c[0] == '[' && c[3] == ':' && c[6] == ':' && c[9] == '.' && c[13] == ']'
      && c[1..3] == h && c[4..6] == m && c[7..9] == s && c[10..13] == ms
  {
    var c := Frame(h, m, s, ms);
    var c1 := "[" + h + ":" + m + ":";
    var c2 := c1 + s + "." + ms;
    assert c == c2 + "]";
    assert c1[1..3] == h && c1[4..6] == m;
    assert c2[..|c1|] == c1 && c2[7..9] == s && c2[10..13] == ms;
  }

  /**
   The clock part is always 14 characters, and its fields spell the clock
   reading modulo their widths.
   */
  lemma ClockShape(t: Time)
    ensures var c := Clock(t);
      && |c| == 14
      && c[0] == '[' && c[3] == ':' && c[6] == ':' && c[9] == '.' && c[13] == ']'
      && IsDigits(c[1..3]) && Val(c[1..3]) == t.hours % 100
      && IsDigits(c[4..6]) && Val(c[4..6]) == t.minutes % 100
      && IsDigits(c[7..9]) && Val(c[7..9]) == t.seconds % 100
      && IsDigits(c[10..13]) && Val(c[10..13]) == t.millis % 1000
  {
    PadDigits(t.hours, 2);
    PadDigits(t.minutes, 2);
    PadDigits(t.seconds, 2);
    PadDigits(t.millis, 3);
    FrameFields(Pad(t.hours, 2), Pad(t.minutes, 2), Pad(t.seconds, 2), Pad(t.millis, 3));
    assert Pow10(2) == 100 && Pow10(3) == 1000;
  }

  // ---------------------------------------------------------------------------
  // The level methods and `write`

  datatype Method = ErrorMethod | WarningMethod | InfoMethod | DebugMethod | LogMethod

  /** The arguments each level method passes to `write` (defaults filled in for `log`). */
  datatype Call = Call(channel: string, level: LogLevel, prefix: string, color: string)

  function CallOf(m: Method): Call
  {
    match m
    case ErrorMethod => Call("error", Error, "[ERROR]", "#c53932")
    case WarningMethod => Call("warn", Warning, "[WARNING]", "#d78738")
    case InfoMethod => Call("info", Info, "[INFO]", "#dac66e")
    case DebugMethod => Call("debug", Debug, "[DEBUG]", "#bababa")
    case LogMethod => Call("log", LogLevel.None, "", "#ffffff")
  }

  /** The console call `write` makes: `console[channel](color(head), ...output)`. */
  datatype Line = Line(channel: string, head: string, color: string, output: seq<string>)

  /** The logger object: only its threshold is state. */
  datatype Logger = Logger(logLevel: LogLevel)

  /** `export const logger = new Logger()`: the threshold starts at `None`. */
  const Default: Logger := Logger(LogLevel.None)

  /**
   `logger.<method>(...output)` at clock reading `t`: nothing when the gate
   drops it, else one call on the method's console channel whose head is the
   prefix, the separator, the timestamp and the separator again.
   */
  function Write(lg: Logger, m: Method, output: seq<string>, t: Time): (r: Option<Line>)
    ensures r.None? <==> Suppressed(lg.logLevel, CallOf(m).level)
    ensures r.Some? ==>
      && r.value.channel == CallOf(m).channel && r.value.color == CallOf(m).color
      && r.value.output == output
      && |CallOf(m).prefix| <= |r.value.head|
      && r.value.head[..|CallOf(m).prefix|] == CallOf(m).prefix
  {
    var c := CallOf(m);
    if Suppressed(lg.logLevel, c.level) then Option.None
    else Some(Line(c.channel, c.prefix + Timestamp(Tab(c.prefix), t), c.color, output))
  }

  /** `log()` writes at level `None`, so no threshold ever drops it. */
  lemma LogIsNeverSuppressed(lg: Logger, output: seq<string>, t: Time)
    ensures Write(lg, LogMethod, output, t).Some?
  {
  }

  /** With the default threshold, every level method but `log` is silent. */
  lemma DefaultIsSilent(m: Method, output: seq<string>, t: Time)
    ensures Write(Default, m, output, t).None? <==> m != LogMethod
  {
  }

  /** `warning` is the only method whose prefix is 8 characters or longer, so it alone gets a space. */
  lemma OnlyWarningGetsASpace(m: Method)
    ensures Tab(CallOf(m).prefix) == " " <==> m == WarningMethod
  {
  }

  /** The head of an emitted line is the prefix, then the clock part framed by the method's separator. */
  lemma HeadShape(lg: Logger, m: Method, output: seq<string>, t: Time)
    requires Write(lg, m, output, t).Some?
    ensures var h := Write(lg, m, output, t).value.head;
      var p := CallOf(m).prefix;
      && |h| == |p| + 16
      && h[..|p|] == p
      && h[|p|] == h[|h| - 1] == Tab(p)[0]
      && h[|p| + 1..|p| + 15] == Clock(t)
  {
    var p := CallOf(m).prefix;
    ClockShape(t);
    var h := Write(lg, m, output, t).value.head;
    assert h == p + Tab(p) + Clock(t) + Tab(p);
  }
}
