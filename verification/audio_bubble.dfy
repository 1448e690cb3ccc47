/**
 * The voice-memo bubble (src/components/IMessageAudioBubble.tsx): the
 * `m:ss` duration label, the time left, the 30 waveform bars of which a
 * prefix is drawn as played, and the play/pause glyph. JavaScript numbers
 * are `real`s here; the bar heights (`Math.sin`) are left out.
 */
module AudioBubble {
  import opened ChatTypes

  /** `barCount`. */
  const BarCount: nat := 30

  // ---------------------------------------------------------------------
  // Number formatting
  // ---------------------------------------------------------------------

  predicate IsDigit(c: char) {
    '0' <= c <= '9'
  }

  predicate AllDigits(s: string) {
    forall k :: 0 <= k < |s| ==> IsDigit(s[k])
  }

  function DigitChar(d: nat): (c: char)
    requires d < 10
    ensures IsDigit(c) && c as int - '0' as int == d
  {
    ('0' as int + d) as char
  }

  /** `n.toString()` for a whole number `n >= 0`: its decimal digits, without leading zeros. */
  function NatToString(n: nat): (r: string)
    ensures 1 <= |r| && AllDigits(r)
    ensures n < 10 <==> |r| == 1
    ensures 10 <= n < 100 ==> |r| == 2
  {
    if n < 10 then [DigitChar(n)] else NatToString(n / 10) + [DigitChar(n % 10)]
  }

  /** `n.toString()` for a whole number. */
  function IntToString(n: int): string {
    if n < 0 then "-" + NatToString(-n) else NatToString(n)
  }

  /** `s.padStart(2, "0")`. */
  function PadStart2(s: string): (r: string)
    ensures |s| >= 2 ==> r == s
    ensures |s| < 2 ==> |r| == 2 && r[2 - |s|..] == s && forall k :: 0 <= k < 2 - |s| ==> r[k] == '0'
  {
    if |s| >= 2 then s else if |s| == 1 then "0" + s else "00"
  }

  /** JavaScript's conversion toward zero, as `%` on numbers uses it. */
  function Trunc(x: real): (r: int)
    ensures x >= 0.0 ==> r == x.Floor
    ensures x < 0.0 ==> r == -((-x).Floor)
  {
    if x >= 0.0 then x.Floor else -((-x).Floor)
  }

  /** JavaScript's `a % b`: the remainder takes the sign of `a`. */
  function JsRem(a: real, b: real): real
    requires b != 0.0
  {
    a - b * Trunc(a / b) as real
  }

  /** `Math.floor(sec / 60)`. */
  function Minutes(sec: real): int {
    (sec / 60.0).Floor
  }

  /** `Math.floor(sec % 60)`. */
  function SecondsPart(sec: real): int {
    JsRem(sec, 60.0).Floor
  }

  /** `formatDuration` (lines 12-16). */
  function FormatDuration(sec: real): string {
    IntToString(Minutes(sec)) + ":" + PadStart2(IntToString(SecondsPart(sec)))
  }

  /** For a non-negative time, the minutes and seconds split its whole seconds, with 0 <= seconds < 60. */
  lemma MinutesSeconds(sec: real)
    requires sec >= 0.0
    ensures Minutes(sec) >= 0 && 0 <= SecondsPart(sec) < 60
    ensures 60 * Minutes(sec) + SecondsPart(sec) == sec.Floor
  {
    var m := Minutes(sec);
    assert Trunc(sec / 60.0) == m;
    assert JsRem(sec, 60.0) == sec - 60.0 * m as real;
    assert 0.0 <= sec - 60.0 * m as real < 60.0;
  }

  // ---------------------------------------------------------------------
  // Reading a label back
  // ---------------------------------------------------------------------

  /** The value of a string of decimal digits. */
  function ParseNat(s: string): nat
    requires AllDigits(s)
  {
    if s == [] then 0 else 10 * ParseNat(s[..|s| - 1]) + (s[|s| - 1] as int - '0' as int)
  }

  lemma {:induction false} ParseNatToString(n: nat)
    ensures ParseNat(NatToString(n)) == n
  {
    if n >= 10 {
      ParseNatToString(n / 10);
      var r := NatToString(n);
      assert r[..|r| - 1] == NatToString(n / 10);
    }
  }

  /** Reads `m:ss` back as whole seconds; anything else is `None`. */
  function ParseClock(t: string): Option<int> {
    if |t| >= 4 && t[|t| - 3] == ':' && AllDigits(t[..|t| - 3]) && AllDigits(t[|t| - 2..])
    then Some(60 * ParseNat(t[..|t| - 3]) + ParseNat(t[|t| - 2..]))
    else None
  }

  /** Seconds below 60, padded: exactly two digits that read back as the seconds. */
  lemma TwoDigits(s: nat)
    requires s < 60
    ensures var p := PadStart2(NatToString(s));
      |p| == 2 && AllDigits(p) && ParseNat(p) == s
  {
    ParseNatToString(s);
    var p := PadStart2(NatToString(s));
    if s < 10 {
      assert p == "0" + NatToString(s);
      assert p[..1] == "0";
    }
  }

  /** A string of digits, a colon and two digits reads back as minutes and seconds. */
  lemma ParseClockOf(left: string, right: string)
    requires |left| >= 1 && AllDigits(left) && |right| == 2 && AllDigits(right)
    ensures ParseClock(left + ":" + right) == Some(60 * ParseNat(left) + ParseNat(right))
  {
    var t := left + ":" + right;
    assert t[..|t| - 3] == left;
    assert t[|t| - 2..] == right;
  }

  /** The label of a non-negative time: its minutes, a colon, and its seconds padded to two digits. */
  lemma FormatShape(sec: real)
    requires sec >= 0.0
    ensures Minutes(sec) >= 0 && 0 <= SecondsPart(sec) < 60
    ensures FormatDuration(sec) == NatToString(Minutes(sec)) + ":" + PadStart2(NatToString(SecondsPart(sec)))
  {
    MinutesSeconds(sec);
  }

  /**
   * The label of a non-negative time reads back as its whole seconds: the
   * formatter loses only the fraction.
   */
  lemma FormatRoundTrip(sec: real)
    requires sec >= 0.0
    ensures ParseClock(FormatDuration(sec)) == Some(sec.Floor)
  {
    MinutesSeconds(sec);
    FormatShape(sec);
    var m: nat := Minutes(sec);
    var s: nat := SecondsPart(sec);
    TwoDigits(s);
    ParseNatToString(m);
    ParseClockOf(NatToString(m), PadStart2(NatToString(s)));
  }

  lemma ZeroLabel()
    ensures FormatDuration(0.0) == "0:00"
  {
    assert IntToString(0) == "0";
  }

  // ---------------------------------------------------------------------
  // Time left and bars
  // ---------------------------------------------------------------------

  function Max(a: real, b: real): real {
    if a >= b then a else b
  }

  /** `remaining` (line 18). */
  function Remaining(durationSec: real, progress: real): real {
    Max(0.0, durationSec - durationSec * progress)
  }

  /**
   * The time left is never negative; it is the whole clip before the
   * start, nothing from the end on, and the unplayed share in between.
   */
  lemma RemainingBounds(durationSec: real, p: real)
    ensures Remaining(durationSec, p) >= 0.0
    ensures durationSec >= 0.0 && p == 0.0 ==> Remaining(durationSec, p) == durationSec
    ensures durationSec >= 0.0 && p >= 1.0 ==> Remaining(durationSec, p) == 0.0
    ensures durationSec >= 0.0 && 0.0 <= p <= 1.0 ==> Remaining(durationSec, p) == durationSec * (1.0 - p)
  {
    var left := durationSec - durationSec * p;
    assert Remaining(durationSec, p) == Max(0.0, left) >= 0.0;
    if durationSec >= 0.0 && p >= 1.0 {
      MulNonneg(durationSec, p - 1.0);
      assert durationSec * (p - 1.0) == durationSec * p - durationSec;
    }
    if durationSec >= 0.0 && 0.0 <= p <= 1.0 {
      MulNonneg(durationSec, 1.0 - p);
      assert durationSec - durationSec * p == durationSec * (1.0 - p);
    }
  }

  /** The time left only shrinks as the progress grows. */
  lemma RemainingShrinks(durationSec: real, p: real, q: real)
    requires durationSec >= 0.0 && p <= q
    ensures Remaining(durationSec, q) <= Remaining(durationSec, p)
  {
    MulNonneg(durationSec, q - p);
    assert durationSec * q - durationSec * p == durationSec * (q - p);
  }

  lemma MulNonneg(a: real, b: real)
    requires a >= 0.0 && b >= 0.0
    ensures a * b >= 0.0
  {
  }

  /** `barPosition <= playProgress` with `barPosition = i / barCount` (lines 48-49). */
  predicate Played(i: nat, progress: real) {
    i as real / BarCount as real <= progress
  }

  /** Whether each of the 30 bars is drawn as played. */
  function Bars(progress: real): (r: seq<bool>)
    ensures |r| == BarCount
  {
    seq(BarCount, i requires 0 <= i < BarCount => Played(i, progress))
  }

  /** How many bars are played: none before the start, else one more than `30 * progress` rounded down, at most 30. */
  function PlayedCount(progress: real): nat {
    if progress < 0.0 then 0
    else if (30.0 * progress).Floor + 1 >= 30 then 30
    else (30.0 * progress).Floor + 1
  }

  function CountTrue(bs: seq<bool>): nat {
    if bs == [] then 0 else CountTrue(bs[..|bs| - 1]) + (if bs[|bs| - 1] then 1 else 0)
  }

  lemma {:induction false} CountPrefix(bs: seq<bool>, k: nat)
    requires k <= |bs| && forall i :: 0 <= i < |bs| ==> (bs[i] <==> i < k)
    ensures CountTrue(bs) == k
  {
    if bs != [] {
      var init := bs[..|bs| - 1];
      if k == |bs| {
        CountPrefix(init, k - 1);
      } else {
        CountPrefix(init, k);
      }
    }
  }

  /**
   * The played bars form a prefix whose length is `PlayedCount`: bar `i`
   * is played exactly when `i < PlayedCount(progress)`.
   */
  lemma PlayedPrefix(progress: real)
    ensures forall i :: 0 <= i < BarCount ==> (Bars(progress)[i] <==> i < PlayedCount(progress))
    ensures CountTrue(Bars(progress)) == PlayedCount(progress)
  {
    forall i | 0 <= i < BarCount
      ensures Bars(progress)[i] <==> i < PlayedCount(progress)
    {
      assert Played(i, progress) <==> i as real <= 30.0 * progress;
    }
    CountPrefix(Bars(progress), PlayedCount(progress));
  }

  /**
   * More progress never unplays a bar; bar 0 is played from progress 0 on,
   * and from progress 1 on every bar is.
   */
  lemma PlayedMonotone(p: real, q: real)
    ensures p <= q ==> PlayedCount(p) <= PlayedCount(q)
    ensures p <= q ==> forall i :: 0 <= i < BarCount && Bars(p)[i] ==> Bars(q)[i]
    ensures Bars(p)[0] <==> p >= 0.0
    ensures p >= 1.0 ==> PlayedCount(p) == BarCount
  {
  }

  // ---------------------------------------------------------------------
  // The bubble
  // ---------------------------------------------------------------------

  datatype Glyph = PauseGlyph | PlayGlyph

  /** What the bubble shows: its colour side, the glyph, the bars and the label. */
  datatype View = View(mine: bool, glyph: Glyph, bars: seq<bool>, caption: string)

  /** `playProgress = 0`: an absent progress counts as the start. */
  function ProgressOf(playProgress: Option<real>): real {
    if playProgress.Some? then playProgress.value else 0.0
  }

  /** The component's output for its props (lines 11-74). */
  function BubbleView(isMe: bool, durationSec: real, isPlaying: bool, playProgress: Option<real>): View {
    var p := ProgressOf(playProgress);
    View(isMe,
         if isPlaying then PauseGlyph else PlayGlyph,
         Bars(p),
         if isPlaying then FormatDuration(Remaining(durationSec, p)) else FormatDuration(durationSec))
  }

  /**
   * While playing the bubble shows the pause glyph and the time left,
   * otherwise the play glyph and the whole length; there are always 30
   * bars. A clip not yet started shows its whole length either way, and a
   * finished clip that still plays shows "0:00".
   */
  lemma BubbleRule(isMe: bool, durationSec: real, isPlaying: bool, playProgress: Option<real>)
    ensures var v := BubbleView(isMe, durationSec, isPlaying, playProgress);
      && |v.bars| == BarCount
      && (v.glyph == PauseGlyph <==> isPlaying)
      && (!isPlaying ==> v.caption == FormatDuration(durationSec))
      && (isPlaying ==> v.caption == FormatDuration(Remaining(durationSec, ProgressOf(playProgress))))
      && (durationSec >= 0.0 && ProgressOf(playProgress) == 0.0 ==> v.caption == FormatDuration(durationSec))
      && (durationSec >= 0.0 && isPlaying && ProgressOf(playProgress) >= 1.0 ==> v.caption == "0:00")
  {
    var p := ProgressOf(playProgress);
    RemainingBounds(durationSec, p);
    ZeroLabel();
  }
}
