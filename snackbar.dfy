/** The recent-change indicator ("snackbar") of one player (updateSnackbar in app.js): a
    running total of the life changes made in quick succession, shown with its sign. */
module Snackbar {

  /** A change joins the running total when it comes less than this many milliseconds after
      the player's previous change. */
  const MergeWindow := 3000

  /** One entry of the per-player state list.  `shown` stands for the pending hide timer:
      the indicator is visible exactly while that timer has not yet fired. */
  datatype PlayerState = PlayerState(lastChangeTime: int, totalChange: int, shown: bool)

  /** The entry the start handler creates for every player. */
  const Fresh := PlayerState(0, 0, false)

  /** The record kept for one player at time `now` when their life changes by `amount`:
      the total grows while changes follow each other within the window and otherwise
      starts again at `amount`; the indicator is (re)shown. */
  function Accumulate(s: PlayerState, amount: int, now: int): (r: PlayerState)
    ensures r.lastChangeTime == now && r.shown
    ensures r.totalChange == amount || r.totalChange == s.totalChange + amount
  {
    var total := if now - s.lastChangeTime < MergeWindow then s.totalChange + amount else amount;
    PlayerState(now, total, true)
  }

  /** Two changes less than MergeWindow apart add up on the indicator. */
  lemma MergeWithinWindow(s: PlayerState, a: int, t1: int, b: int, t2: int)
    requires t2 - t1 < MergeWindow
    ensures Accumulate(Accumulate(s, a, t1), b, t2).totalChange == Accumulate(s, a, t1).totalChange + b
    ensures Accumulate(Accumulate(s, a, t1), b, t2).lastChangeTime == t2
  {
  }

  /** A change MergeWindow or more after the previous one shows only itself. */
  lemma RestartAfterQuiet(s: PlayerState, a: int, t1: int, b: int, t2: int)
    requires t2 - t1 >= MergeWindow
    ensures Accumulate(Accumulate(s, a, t1), b, t2).totalChange == b
    ensures Accumulate(Accumulate(s, a, t1), b, t2).lastChangeTime == t2
  {
  }

  /** The first change of a game shows exactly its own amount, whatever the clock reads. */
  lemma FirstChangeShowsAmount(amount: int, now: int)
    ensures Accumulate(Fresh, amount, now).totalChange == amount
    ensures Accumulate(Fresh, amount, now).shown
  {
  }

  // ---------------------------------------------------------------------------------------
  // Reference definition of the running total over the whole history of a player's changes

  /** A life change of `amount` made at time `time`. */
  datatype Change = Change(time: int, amount: int)

  /** Sum of the amounts of a run of changes. */
  function Sum(h: seq<Change>): int
  {
    if h == [] then 0 else Sum(h[..|h| - 1]) + h[|h| - 1].amount
  }

  /** Time of the latest change, 0 (the start value of the record) when there is none. */
  function LastTime(h: seq<Change>): int
  {
    if h == [] then 0 else h[|h| - 1].time
  }

  /** Index at which the trailing run of changes starts in which every change follows the
      previous one by less than MergeWindow milliseconds. */
  function BurstStart(h: seq<Change>): (k: nat)
    ensures k <= |h| && (h != [] ==> k < |h|)
  {
    if |h| <= 1 then 0
    else if h[|h| - 1].time - h[|h| - 2].time < MergeWindow then BurstStart(h[..|h| - 1])
    else |h| - 1
  }

  /** The changes the indicator currently adds up. */
  function LastBurst(h: seq<Change>): seq<Change>
  {
    h[BurstStart(h)..]
  }

  /** The burst is the longest run without a quiet gap: every gap inside it is shorter than
      the window, and the gap just before it (if any) is not. */
  lemma {:induction false} BurstIsMaximalRun(h: seq<Change>)
    ensures forall i :: BurstStart(h) < i < |h| ==> h[i].time - h[i - 1].time < MergeWindow
    ensures 0 < BurstStart(h) ==> h[BurstStart(h)].time - h[BurstStart(h) - 1].time >= MergeWindow
  {
    if |h| > 1 && h[|h| - 1].time - h[|h| - 2].time < MergeWindow {
      var init := h[..|h| - 1];
      BurstIsMaximalRun(init);
      forall i | BurstStart(h) < i < |h| ensures h[i].time - h[i - 1].time < MergeWindow {
        if i < |init| {
          assert h[i] == init[i] && h[i - 1] == init[i - 1];
        }
      }
    }
  }

  lemma {:induction false} SumSnoc(h: seq<Change>, c: Change)
    ensures Sum(h + [c]) == Sum(h) + c.amount
  {
    assert (h + [c])[..|h|] == h;
  }

  /** A record summarises a history when its timestamp is that of the latest change and its
      total is the sum of the latest burst. */
  ghost predicate Summarises(s: PlayerState, h: seq<Change>)
  {
    s.lastChangeTime == LastTime(h) && s.totalChange == Sum(LastBurst(h))
  }

  /** The fresh record summarises the empty history. */
  lemma FreshSummarisesNothing()
    ensures Summarises(Fresh, [])
  {
  }

  /** Accumulate keeps a record in step with its history: after one more change, the
      record still shows the sum of the latest burst, and the history's sum grows by the
      change. */
  lemma {:induction false} AccumulateExtendsBurst(s: PlayerState, h: seq<Change>, c: Change)
    requires Summarises(s, h)
    ensures Summarises(Accumulate(s, c.amount, c.time), h + [c])
    ensures Sum(h + [c]) == Sum(h) + c.amount
  {
    var h' := h + [c];
    SumSnoc(h, c);
    assert h'[..|h'| - 1] == h;
    if h == [] {
      assert LastBurst(h') == [] + [c];
      SumSnoc([], c);
    } else if c.time - LastTime(h) >= MergeWindow {
      assert LastBurst(h') == [] + [c];
      SumSnoc([], c);
    } else {
      var k := BurstStart(h);
      assert BurstStart(h') == k;
      assert LastBurst(h') == LastBurst(h) + [c];
      SumSnoc(LastBurst(h), c);
    }
  }

  // ---------------------------------------------------------------------------------------
  // The text of the indicator

  predicate IsDigit(ch: char)
  {
    '0' <= ch <= '9'
  }

  predicate AllDigits(s: string)
  {
    forall i :: 0 <= i < |s| ==> IsDigit(s[i])
  }

  function DigitChar(d: nat): (ch: char)
    requires d < 10
    ensures IsDigit(ch) && ch as int - '0' as int == d
  {
    ('0' as int + d) as char
  }

  /** Decimal digits of `n` without leading zeros, as JavaScript prints a non-negative
      integer below 10^21 (larger ones it prints in exponent notation). */
  function Decimal(n: nat): (s: string)
    ensures |s| >= 1 && AllDigits(s)
    ensures |s| > 1 ==> s[0] != '0'
    ensures n == 0 <==> s == "0"
  {
    if n < 10 then [DigitChar(n)] else Decimal(n / 10) + [DigitChar(n % 10)]
  }

  /** The value of a string of decimal digits. */
  function DecimalValue(s: string): nat
    requires AllDigits(s)
  {
    if s == [] then 0 else DecimalValue(s[..|s| - 1]) * 10 + (s[|s| - 1] as int - '0' as int)
  }

  lemma {:induction false} DecimalRoundTrip(n: nat)
    ensures DecimalValue(Decimal(n)) == n
  {
    if n >= 10 {
      var d := Decimal(n / 10);
      DecimalRoundTrip(n / 10);
      assert (d + [DigitChar(n % 10)])[..|d|] == d;
    }
  }

  /** JavaScript's text for an integer: a minus sign before a negative one. */
  function IntText(x: int): (s: string)
    ensures |s| >= 1 && (s[0] == '-' <==> x < 0)
  {
    if x < 0 then "-" + Decimal(-x) else Decimal(x)
  }

  /** What the indicator shows for a running total: "+" before a positive total, the plain
      integer (with its own minus sign) otherwise. */
  function SnackbarText(total: int): (s: string)
    ensures |s| >= 1 && (s[0] == '+' <==> total > 0)
  {
    (if total > 0 then "+" else "") + IntText(total)
  }

  /** Reads an indicator text back: an optional sign followed by decimal digits. */
  function ParseSigned(s: string): Option<int>
  {
    if |s| > 0 && (s[0] == '+' || s[0] == '-') then
      var digits := s[1..];
      if digits != [] && AllDigits(digits) then
        var magnitude: int := DecimalValue(digits);
        Some(if s[0] == '-' then -magnitude else magnitude)
      else None
    else if s != [] && AllDigits(s) then Some(DecimalValue(s))
    else None
  }

  datatype Option<T> = None | Some(value: T)

  /** The indicator loses nothing: its text reads back as the total it was made from. */
  lemma SnackbarTextRoundTrip(total: int)
    ensures ParseSigned(SnackbarText(total)) == Some(total)
  {
    if total > 0 {
      ParsePlus(total);
      assert SnackbarText(total) == ['+'] + Decimal(total);
    } else if total < 0 {
      ParseMinus(-total);
      assert SnackbarText(total) == ['-'] + Decimal(-total);
    } else {
      ParseZero();
      assert SnackbarText(total) == "0";
    }
  }

  lemma ParsePlus(n: nat)
    ensures ParseSigned(['+'] + Decimal(n)) == Some(n)
  {
    var d := Decimal(n);
    DecimalRoundTrip(n);
    assert (['+'] + d)[1..] == d;
  }

  lemma ParseMinus(n: nat)
    ensures ParseSigned(['-'] + Decimal(n)) == Some(-(n as int))
  {
    var d := Decimal(n);
    DecimalRoundTrip(n);
    assert (['-'] + d)[1..] == d;
  }

  lemma ParseZero()
    ensures ParseSigned("0") == Some(0)
  {
  }

  /** Different totals show different texts. */
  lemma SnackbarTextInjective(a: int, b: int)
    requires SnackbarText(a) == SnackbarText(b)
    ensures a == b
  {
    SnackbarTextRoundTrip(a);
    SnackbarTextRoundTrip(b);
  }

  /** The sign the indicator shows: "+" exactly for a positive total, "-" exactly for a
      negative one, and the text is "0" exactly for a zero total. */
  lemma SnackbarTextSign(total: int)
    ensures |SnackbarText(total)| >= 1
    ensures SnackbarText(total)[0] == '+' <==> total > 0
    ensures SnackbarText(total)[0] == '-' <==> total < 0
    ensures SnackbarText(total) == "0" <==> total == 0
  {
  }

  /** Sample texts: +1, +2, -1, 0 and -15. */
  lemma SnackbarTextExamples()
    ensures SnackbarText(1) == "+1" && SnackbarText(2) == "+2"
    ensures SnackbarText(-1) == "-1" && SnackbarText(0) == "0"
    ensures SnackbarText(-15) == "-15"
  {
  }
}
