/** The game screen's state machine (app.js): life totals, the per-player indicator
    records, and the one long-press timer shared by every control area.  Timers are
    explicit events: `TimerFire` is the long-press timer running out, `HideSnackbar` the
    indicator's hide timer; `now` is the clock reading the source takes from Date.now(). */
module Game {
  import opened Snackbar

  /** How long a press must be held to count as a long press, in milliseconds. */
  const LongPressDuration := 500
  /** A long press changes life by this many points in the pressed direction. */
  const LongPressFactor := 5

  /** The two control areas of a player's region. */
  datatype Direction = Minus | Plus

  /** The amount a tap on the area applies. */
  function Step(dir: Direction): int
  {
    if dir == Minus then -1 else 1
  }

  /** The long-press timer that is pending: the closure it runs belongs to the region of
      `player` and the area `dir`. */
  datatype Timer = Timer(player: nat, dir: Direction)

  datatype Pending = NoTimer | Armed(timer: Timer)

  class Session {
    /** Whether the game screen is up (the setup screen is hidden). */
    var started: bool
    /** The life total of each player; the source keeps one per region's closure. */
    var life: array<int>
    /** The per-player indicator records. */
    var states: seq<PlayerState>
    /** Set when the pending long press fired, so that the release that follows applies nothing. */
    var longPressOccurred: bool
    /** The one long-press timer slot. */
    var pending: Pending

    /** Life total every player started the game with. */
    ghost var initialLife: int
    /** Every life change each player has had in this game, in order. */
    ghost var history: seq<seq<Change>>

    /** The session invariant: one record and one history per player; each life total is the
        starting life plus every change made; each record summarises its history; and while
        a long-press timer is pending the long press has not yet happened. */
    ghost predicate Valid()
      reads this, life
    {
      PlayersValid() &&
      (pending.Armed? ==> pending.timer.player < life.Length && !longPressOccurred)
    }

    /** The part of the invariant about the players alone. */
    ghost predicate PlayersValid()
      reads this`life, this`states, this`history, this`initialLife, life
    {
      |states| == life.Length && |history| == life.Length &&
      (forall p :: 0 <= p < life.Length ==> life[p] == initialLife + Sum(history[p])) &&
      (forall p :: 0 <= p < life.Length ==> Summarises(states[p], history[p]))
    }

    /** Life changed by `amount` for player `p` at time `now`, and nothing else changed
        apart from that player's indicator record. */
    twostate predicate Applied(p: nat, amount: int, now: int)
      reads this`life, this`states, this`started, life
    {
      life == old(life) && p < life.Length && |old(states)| == life.Length &&
      life[p] == old(life[p]) + amount &&
      (forall q :: 0 <= q < life.Length && q != p ==> life[q] == old(life[q])) &&
      states == old(states)[p := Accumulate(old(states)[p], amount, now)] &&
      started == old(started)
    }

    /** No life total and no indicator record changed. */
    twostate predicate Untouched()
      reads this`life, this`states, this`history, this`started, life
    {
      life == old(life) && life[..] == old(life[..]) && states == old(states) &&
      history == old(history) && started == old(started)
    }

    /** The page as first loaded: the setup screen, no players, no pending timer. */
    constructor ()
      ensures Valid() && !started
      ensures life.Length == 0 && states == [] && !longPressOccurred && pending == NoTimer
    {
      started := false;
      life := new int[0];
      states := [];
      longPressOccurred := false;
      pending := NoTimer;
      initialLife := 0;
      history := [];
    }

    /** The start button: one fresh record and one region at `startingLife` per player. */
    method Start(playerCount: nat, startingLife: int)
      modifies this
      ensures Valid() && started
      ensures fresh(life) && life.Length == playerCount
      ensures forall p :: 0 <= p < playerCount ==> life[p] == startingLife
      ensures |states| == playerCount && forall p :: 0 <= p < playerCount ==> states[p] == Fresh
      ensures pending == NoTimer && longPressOccurred == old(longPressOccurred)
    {
      started := true;
      states := [];
      var i := 0;
      while i < playerCount
        invariant 0 <= i <= playerCount
        invariant |states| == i && forall k :: 0 <= k < i ==> states[k] == Fresh
        invariant started && longPressOccurred == old(longPressOccurred)
      {
        states := states + [Fresh];
        i := i + 1;
      }
      var totals := new int[playerCount];
      i := 0;
      while i < playerCount
        modifies totals
        invariant 0 <= i <= playerCount
        invariant forall k :: 0 <= k < i ==> totals[k] == startingLife
      {
        totals[i] := startingLife;
        i := i + 1;
      }
      life := totals;
      pending := NoTimer;
      initialLife := startingLife;
      history := seq(playerCount, _ => []);
      FreshSummarisesNothing();
    }

    /** The indicator update for a change of `amount` to player `p` at time `now`. */
    method UpdateSnackbar(p: nat, amount: int, now: int)
      requires p < |states|
      modifies this
      ensures states == old(states)[p := Accumulate(old(states)[p], amount, now)]
      ensures life == old(life) && history == old(history) && initialLife == old(initialLife)
      ensures started == old(started) && pending == old(pending)
      ensures longPressOccurred == old(longPressOccurred)
    {
      states := states[p := Accumulate(states[p], amount, now)];
    }

    /** A change of `amount` to player `p`'s life at time `now`, shown on the indicator. */
    method ChangeLife(p: nat, amount: int, now: int)
      requires Valid() && p < life.Length
      modifies this, life
      ensures Valid() && Applied(p, amount, now)
      ensures history == old(history)[p := old(history)[p] + [Change(now, amount)]]
      ensures pending == old(pending) && longPressOccurred == old(longPressOccurred)
    {
      AccumulateExtendsBurst(states[p], history[p], Change(now, amount));
      life[p] := life[p] + amount;
      UpdateSnackbar(p, amount, now);
      history := history[p := history[p] + [Change(now, amount)]];
    }

    /** Pressing (mouse down or touch start on) area `dir` of player `p`'s region: the long
        press is forgotten and the timer is armed. */
    method Press(p: nat, dir: Direction)
      requires Valid() && p < life.Length
      modifies this
      ensures Valid() && Untouched()
      ensures !longPressOccurred && pending == Armed(Timer(p, dir))
    {
      longPressOccurred := false;
      pending := Armed(Timer(p, dir));
    }

    /** The long-press timer running out at time `now`, LongPressDuration milliseconds after
        the press that armed it: five times the tap amount goes to the timer's player and
        the long press is recorded; without a pending timer nothing happens. */
    method TimerFire(now: int)
      requires Valid()
      modifies this, life
      ensures Valid() && pending == NoTimer
      ensures old(pending) == NoTimer ==> Untouched() && longPressOccurred == old(longPressOccurred)
      ensures old(pending).Armed? ==>
                var t := old(pending).timer;
                longPressOccurred && Applied(t.player, LongPressFactor * Step(t.dir), now)
    {
      if pending.Armed? {
        var t := pending.timer;
        ChangeLife(t.player, LongPressFactor * Step(t.dir), now);
        longPressOccurred := true;
        pending := NoTimer;
      }
    }

    /** Releasing (mouse up or touch end on) area `dir` of player `p`'s region at time `now`:
        the timer is cancelled, and the tap amount applies unless a long press fired. */
    method Release(p: nat, dir: Direction, now: int)
      requires Valid() && p < life.Length
      modifies this, life
      ensures Valid() && pending == NoTimer && longPressOccurred == old(longPressOccurred)
      ensures !old(longPressOccurred) ==> Applied(p, Step(dir), now)
      ensures old(longPressOccurred) ==> Untouched()
    {
      pending := NoTimer;
      if !longPressOccurred {
        ChangeLife(p, Step(dir), now);
      }
    }

    /** The mouse leaving a control area: the timer is cancelled and nothing else happens. */
    method Leave()
      requires Valid()
      modifies this
      ensures Valid() && Untouched()
      ensures pending == NoTimer && longPressOccurred == old(longPressOccurred)
    {
      pending := NoTimer;
    }

    /** Player `p`'s hide timer running out: the indicator disappears, its total stays. */
    method HideSnackbar(p: nat)
      requires Valid() && p < life.Length
      modifies this
      ensures Valid()
      ensures states == old(states)[p := old(states)[p].(shown := false)]
      ensures life == old(life) && history == old(history) && started == old(started)
      ensures pending == old(pending) && longPressOccurred == old(longPressOccurred)
    {
      states := states[p := states[p].(shown := false)];
    }

    /** The reset button: back to the setup screen; the game state is left as it was. */
    method Reset()
      requires Valid()
      modifies this
      ensures Valid() && !started
      ensures life == old(life) && states == old(states) && history == old(history)
      ensures pending == old(pending) && longPressOccurred == old(longPressOccurred)
    {
      started := false;
    }

    /** What player `p`'s indicator reads once it has appeared (from the player's first change
        on; before that the page leaves the indicator empty and hidden): a text that reads
        back as the player's running total. */
    function IndicatorText(p: nat): (text: string)
      reads this
      requires p < |states|
      ensures ParseSigned(text) == Some(states[p].totalChange)
    {
      SnackbarTextRoundTrip(states[p].totalChange);
      SnackbarText(states[p].totalChange)
    }

    // -------------------------------------------------------------------------------------
    // Whole gestures, as the listeners of a control area drive the handlers above

    /** A tap: press, then release before the timer fires.  The timer is cancelled and the
        life total moves by exactly one step, once. */
    method Tap(p: nat, dir: Direction, now: int)
      requires Valid() && p < life.Length
      modifies this, life
      ensures Valid() && Applied(p, Step(dir), now)
      ensures pending == NoTimer && !longPressOccurred
    {
      Press(p, dir);
      Release(p, dir, now);
    }

    /** A long press: press, the timer fires at `fireTime`, then release.  The life total
        moves by five steps and the release adds nothing, so one gesture never applies both. */
    method LongPress(p: nat, dir: Direction, fireTime: int, releaseTime: int)
      requires Valid() && p < life.Length
      modifies this, life
      ensures Valid() && Applied(p, LongPressFactor * Step(dir), fireTime)
      ensures pending == NoTimer && longPressOccurred
    {
      Press(p, dir);
      TimerFire(fireTime);
      Release(p, dir, releaseTime);
    }

    /** A press whose mouse leaves the area before the timer fires: nothing changes and
        no timer is left pending. */
    method PressThenLeave(p: nat, dir: Direction)
      requires Valid() && p < life.Length
      modifies this
      ensures Valid() && Untouched()
      ensures pending == NoTimer && !longPressOccurred
    {
      Press(p, dir);
      Leave();
    }
  }

  /** Four players start at 40; player 2 taps plus twice a second apart (41, "+1", then
      42, "+2"), then taps minus four seconds later (41, "-1").  Returns the four life
      totals at the end and the three texts player 2's indicator showed. */
  method FourPlayerExample() returns (lives: seq<int>, texts: seq<string>)
    ensures lives == [40, 40, 41, 40]
    ensures texts == ["+1", "+2", "-1"]
  {
    SnackbarTextExamples();
    var s := new Session();
    s.Start(4, 40);
    s.Tap(2, Plus, 100000);
    var first := s.IndicatorText(2);
    s.Tap(2, Plus, 101000);
    var second := s.IndicatorText(2);
    s.Tap(2, Minus, 105000);
    var third := s.IndicatorText(2);
    lives := s.life[..];
    texts := [first, second, third];
  }
}
